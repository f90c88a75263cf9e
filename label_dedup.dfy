/**
 * Removal of duplicate candidate labels (NewDataLabelUtils.removeDuplicates).
 *
 * A candidate is dropped when an earlier kept candidate has the same text
 * and an equal parent anchor; everything else is kept, in input order.
 * The loop is modelled by the method RemoveDuplicates, which is proved
 * to compute FirstOccurrences, a declarative description of the result:
 * the candidates that no earlier candidate duplicates.
 */
module LabelDedup {
  import opened LabelTypes

  /** How a rectangle parent is oriented; it plays no part in the comparison. */
  datatype RectOrientation =
    | NoOrientation
    | VerticalBottomBased
    | VerticalTopBased
    | HorizontalLeftBased
    | HorizontalRightBased

  /**
   * The shape a candidate label is attached to: a rectangle (a bar, a
   * column) or a point (a marker) with its radius.
   */
  datatype ParentShape =
    | RectParent(rect: Rect, orientation: RectOrientation)
    | PointParent(point: Point, radius: real)

  /** A candidate label before layout. */
  datatype LabelDataPoint = LabelDataPoint(text: string, parentShape: ParentShape, isPreferred: bool)

  /**
   * The anchor comparison of sameParentIsInArray: a rectangle parent is
   * compared by its rectangle, a point parent by its point; a stored
   * anchor of the other kind never matches.
   */
  predicate AnchorEquals(shape: ParentShape, stored: ParentShape): (b: bool)
    ensures b ==> shape.RectParent? == stored.RectParent?
    ensures shape.RectParent? && stored.RectParent? ==> (b <==> shape.rect == stored.rect)
    ensures shape.PointParent? && stored.PointParent? ==> (b <==> shape.point == stored.point)
  {
    match shape
    case RectParent(r, _) => stored.RectParent? && stored.rect == r
    case PointParent(pt, _) => stored.PointParent? && stored.point == pt
  }

  /**
   * `array.some` over the anchors already kept for one text, scanning from
   * the front: true exactly when one of them matches.
   */
  predicate SameParentIsInArray(shape: ParentShape, anchors: seq<ParentShape>): (b: bool)
    ensures b <==> exists k :: 0 <= k < |anchors| && AnchorEquals(shape, anchors[k])
  {
    if anchors == [] then false
    else AnchorEquals(shape, anchors[0]) || SameParentIsInArray(shape, anchors[1..])
  }

  /** `later` repeats `earlier`: same text and an equal parent anchor. */
  predicate Duplicate(earlier: LabelDataPoint, later: LabelDataPoint)
  {
    earlier.text == later.text && AnchorEquals(later.parentShape, earlier.parentShape)
  }

  lemma AnchorEqualsIsEquivalence(a: ParentShape, b: ParentShape, c: ParentShape)
    ensures AnchorEquals(a, a)
    ensures AnchorEquals(a, b) ==> AnchorEquals(b, a)
    ensures AnchorEquals(a, b) && AnchorEquals(b, c) ==> AnchorEquals(a, c)
  {
  }

  lemma DuplicateIsEquivalence(a: LabelDataPoint, b: LabelDataPoint, c: LabelDataPoint)
    ensures Duplicate(a, a)
    ensures Duplicate(a, b) ==> Duplicate(b, a)
    ensures Duplicate(a, b) && Duplicate(b, c) ==> Duplicate(a, c)
  {
    AnchorEqualsIsEquivalence(a.parentShape, b.parentShape, c.parentShape);
    AnchorEqualsIsEquivalence(c.parentShape, b.parentShape, a.parentShape);
  }

  /** No earlier candidate has the same text and an equal anchor as candidate i. */
  predicate IsFirst(ps: seq<LabelDataPoint>, i: int)
    requires 0 <= i < |ps|
  {
    forall j :: 0 <= j < i ==> !Duplicate(ps[j], ps[i])
  }

  /** No two candidates of `ps` are duplicates of each other. */
  predicate DuplicateFree(ps: seq<LabelDataPoint>)
  {
    forall a, b :: 0 <= a < b < |ps| ==> !Duplicate(ps[a], ps[b])
  }

  lemma IsFirstOfPrefix(ps: seq<LabelDataPoint>, n: nat, i: nat)
    requires i < n <= |ps|
    ensures IsFirst(ps[..n], i) == IsFirst(ps, i)
  {
    assert forall j :: 0 <= j < i ==> ps[..n][j] == ps[j];
  }

  /** The candidates that no earlier candidate duplicates, in input order. */
  function FirstOccurrences(ps: seq<LabelDataPoint>): seq<LabelDataPoint>
  {
    if ps == [] then []
    else
      var n := |ps| - 1;
      FirstOccurrences(ps[..n]) + (if IsFirst(ps, n) then [ps[n]] else [])
  }

  /**
   * The input positions of FirstOccurrences(ps): strictly increasing, and
   * position i is among them exactly when candidate i is a first occurrence.
   */
  function KeptIndices(ps: seq<LabelDataPoint>): (idx: seq<nat>)
    ensures forall k :: 0 <= k < |idx| ==> idx[k] < |ps|
    ensures forall k1, k2 :: 0 <= k1 < k2 < |idx| ==> idx[k1] < idx[k2]
    ensures forall i :: 0 <= i < |ps| ==> (i in idx <==> IsFirst(ps, i))
  {
    if ps == [] then []
    else
      var n := |ps| - 1;
      var prefix := KeptIndices(ps[..n]);
      assert forall i :: 0 <= i < n ==> IsFirst(ps[..n], i) == IsFirst(ps, i) by {
        forall i | 0 <= i < n {
          IsFirstOfPrefix(ps, n, i);
        }
      }
      prefix + (if IsFirst(ps, n) then [n] else [])
  }

  /**
   * The result is the ordered selection of the input at KeptIndices:
   * an order-preserving subsequence holding exactly the first occurrences.
   */
  lemma {:induction false} FirstOccurrencesAreKeptIndices(ps: seq<LabelDataPoint>)
    ensures |FirstOccurrences(ps)| == |KeptIndices(ps)|
    ensures forall k :: 0 <= k < |KeptIndices(ps)| ==> FirstOccurrences(ps)[k] == ps[KeptIndices(ps)[k]]
  {
    if ps != [] {
      var n := |ps| - 1;
      FirstOccurrencesAreKeptIndices(ps[..n]);
      var idx := KeptIndices(ps[..n]);
      forall k | 0 <= k < |idx|
        ensures FirstOccurrences(ps)[k] == ps[KeptIndices(ps)[k]]
      {
        assert ps[..n][idx[k]] == ps[idx[k]];
      }
    }
  }

  /** Every candidate of the result is a candidate of the input. */
  lemma ResultDrawsFromInput(ps: seq<LabelDataPoint>, k: nat)
    requires k < |FirstOccurrences(ps)|
    ensures FirstOccurrences(ps)[k] in ps
  {
    FirstOccurrencesAreKeptIndices(ps);
  }

  /** The first candidate carrying a given text is always kept. */
  lemma FirstOfEachTextIsKept(ps: seq<LabelDataPoint>, i: nat)
    requires i < |ps|
    requires forall j :: 0 <= j < i ==> ps[j].text != ps[i].text
    ensures i in KeptIndices(ps)
    ensures ps[i] in FirstOccurrences(ps)
  {
    FirstOccurrencesAreKeptIndices(ps);
    var idx := KeptIndices(ps);
    assert IsFirst(ps, i);
    assert i in idx;
    var k :| 0 <= k < |idx| && idx[k] == i;
    assert FirstOccurrences(ps)[k] == ps[i];
  }

  /** No two candidates of the result share the same text and an equal anchor. */
  lemma ResultIsDuplicateFree(ps: seq<LabelDataPoint>)
    ensures DuplicateFree(FirstOccurrences(ps))
  {
    FirstOccurrencesAreKeptIndices(ps);
    var r, idx := FirstOccurrences(ps), KeptIndices(ps);
    forall a, b | 0 <= a < b < |r|
      ensures !Duplicate(r[a], r[b])
    {
      assert IsFirst(ps, idx[b]);
      assert idx[a] < idx[b];
    }
  }

  /**
   * Every input candidate is represented in the result by a kept candidate
   * it duplicates, taken at or before its own position (strictly before
   * when the candidate itself was dropped).
   */
  lemma {:induction false} DroppedHasKeptDuplicate(ps: seq<LabelDataPoint>, i: nat)
    requires i < |ps|
    ensures exists k :: 0 <= k < |KeptIndices(ps)| && KeptIndices(ps)[k] <= i && Duplicate(ps[KeptIndices(ps)[k]], ps[i])
    ensures i !in KeptIndices(ps) ==>
      exists k :: 0 <= k < |KeptIndices(ps)| && KeptIndices(ps)[k] < i && Duplicate(ps[KeptIndices(ps)[k]], ps[i])
    decreases i
  {
    var idx := KeptIndices(ps);
    if IsFirst(ps, i) {
      var k :| 0 <= k < |idx| && idx[k] == i;
      DuplicateIsEquivalence(ps[i], ps[i], ps[i]);
    } else {
      var j :| 0 <= j < i && Duplicate(ps[j], ps[i]);
      DroppedHasKeptDuplicate(ps, j);
      var k :| 0 <= k < |idx| && idx[k] <= j && Duplicate(ps[idx[k]], ps[j]);
      DuplicateIsEquivalence(ps[idx[k]], ps[j], ps[i]);
    }
  }

  /** Some candidate of `kept` is duplicated by `p`. */
  predicate HasDuplicateIn(kept: seq<LabelDataPoint>, p: LabelDataPoint)
  {
    exists k :: 0 <= k < |kept| && Duplicate(kept[k], p)
  }

  lemma KeptDuplicateIsEarlierDuplicate(q: seq<LabelDataPoint>)
    requires q != []
    requires HasDuplicateIn(FirstOccurrences(q[..|q| - 1]), q[|q| - 1])
    ensures !IsFirst(q, |q| - 1)
  {
    var n := |q| - 1;
    var u, idx := FirstOccurrences(q[..n]), KeptIndices(q[..n]);
    FirstOccurrencesAreKeptIndices(q[..n]);
    var k :| 0 <= k < |u| && Duplicate(u[k], q[n]);
    assert u[k] == q[..n][idx[k]] == q[idx[k]];
  }

  lemma EarlierDuplicateHasKeptDuplicate(q: seq<LabelDataPoint>)
    requires q != []
    requires !IsFirst(q, |q| - 1)
    ensures HasDuplicateIn(FirstOccurrences(q[..|q| - 1]), q[|q| - 1])
  {
    var n := |q| - 1;
    var u, idx := FirstOccurrences(q[..n]), KeptIndices(q[..n]);
    FirstOccurrencesAreKeptIndices(q[..n]);
    var j :| 0 <= j < n && Duplicate(q[j], q[n]);
    assert q[..n][j] == q[j];
    DroppedHasKeptDuplicate(q[..n], j);
    var k :| 0 <= k < |idx| && idx[k] <= j && Duplicate(q[..n][idx[k]], q[..n][j]);
    DuplicateIsEquivalence(u[k], q[j], q[n]);
  }

  /** The last candidate has a kept duplicate before it exactly when it is not a first occurrence. */
  lemma FirstOccurrenceTest(q: seq<LabelDataPoint>)
    requires q != []
    ensures HasDuplicateIn(FirstOccurrences(q[..|q| - 1]), q[|q| - 1]) <==> !IsFirst(q, |q| - 1)
  {
    if HasDuplicateIn(FirstOccurrences(q[..|q| - 1]), q[|q| - 1]) {
      KeptDuplicateIsEarlierDuplicate(q);
    }
    if !IsFirst(q, |q| - 1) {
      EarlierDuplicateHasKeptDuplicate(q);
    }
  }

  /** Anchors stored for a text in the text-to-anchors dictionary (none when absent). */
  function Anchors(m: map<string, seq<ParentShape>>, t: string): seq<ParentShape>
  {
    if t in m then m[t] else []
  }

  /**
   * The text-to-anchors dictionary the loop has built once `kept` holds the
   * candidates kept so far: each text maps to the anchors of the kept
   * candidates with that text, in order.
   */
  function AnchorMap(kept: seq<LabelDataPoint>): (m: map<string, seq<ParentShape>>)
    ensures forall k :: 0 <= k < |kept| ==> kept[k].text in m
  {
    if kept == [] then map[]
    else
      var n := |kept| - 1;
      var m := AnchorMap(kept[..n]);
      var p := kept[n];
      assert forall k :: 0 <= k < n ==> kept[..n][k] == kept[k];
      m[p.text := Anchors(m, p.text) + [p.parentShape]]
  }

  lemma SameParentInAppended(shape: ParentShape, anchors: seq<ParentShape>, last: ParentShape)
    ensures SameParentIsInArray(shape, anchors + [last]) <==>
            SameParentIsInArray(shape, anchors) || AnchorEquals(shape, last)
  {
    var all := anchors + [last];
    if SameParentIsInArray(shape, all) {
      var k :| 0 <= k < |all| && AnchorEquals(shape, all[k]);
      if k < |anchors| {
        assert AnchorEquals(shape, anchors[k]);
      }
    }
    if SameParentIsInArray(shape, anchors) {
      var k :| 0 <= k < |anchors| && AnchorEquals(shape, anchors[k]);
      assert all[k] == anchors[k];
    }
    assert all[|anchors|] == last;
  }

  /** Looking a candidate up in the dictionary finds exactly the kept candidates it duplicates. */
  lemma {:induction false} LookupFindsKeptDuplicate(kept: seq<LabelDataPoint>, p: LabelDataPoint)
    ensures SameParentIsInArray(p.parentShape, Anchors(AnchorMap(kept), p.text)) <==> HasDuplicateIn(kept, p)
  {
    if kept != [] {
      var n := |kept| - 1;
      var q := kept[n];
      var m := AnchorMap(kept[..n]);
      LookupFindsKeptDuplicate(kept[..n], p);
      assert forall k :: 0 <= k < n ==> kept[..n][k] == kept[k];
      if q.text == p.text {
        SameParentInAppended(p.parentShape, Anchors(m, p.text), q.parentShape);
        if HasDuplicateIn(kept, p) && !HasDuplicateIn(kept[..n], p) {
          var k :| 0 <= k < |kept| && Duplicate(kept[k], p);
          assert k == n;
        }
      } else {
        assert Anchors(AnchorMap(kept), p.text) == Anchors(m, p.text);
        if HasDuplicateIn(kept, p) {
          var k :| 0 <= k < |kept| && Duplicate(kept[k], p);
          assert k < n;
        }
      }
    } else {
      assert Anchors(AnchorMap(kept), p.text) == [];
    }
  }

  /**
   * removeDuplicates: one pass over the candidates, keeping a candidate
   * unless the dictionary holds an equal anchor for its text, and
   * recording the anchor of every kept candidate.
   */
  method RemoveDuplicates(labelDataPoints: seq<LabelDataPoint>) returns (uniqueLabelDataPoints: seq<LabelDataPoint>)
    ensures uniqueLabelDataPoints == FirstOccurrences(labelDataPoints)
  {
    uniqueLabelDataPoints := [];
    var labelDataPointMap: map<string, seq<ParentShape>> := map[];
    for i := 0 to |labelDataPoints|
      invariant uniqueLabelDataPoints == FirstOccurrences(labelDataPoints[..i])
      invariant labelDataPointMap == AnchorMap(uniqueLabelDataPoints)
    {
      var dataPoint := labelDataPoints[i];
      ghost var seen := labelDataPoints[..i + 1];
      assert seen[..i] == labelDataPoints[..i] && seen[i] == dataPoint;
      ghost var before := uniqueLabelDataPoints;
      LookupFindsKeptDuplicate(before, dataPoint);
      FirstOccurrenceTest(seen);
      if dataPoint.text !in labelDataPointMap {
        uniqueLabelDataPoints := uniqueLabelDataPoints + [dataPoint];
        labelDataPointMap := labelDataPointMap[dataPoint.text := [dataPoint.parentShape]];
        assert uniqueLabelDataPoints[..|before|] == before;
        assert Anchors(AnchorMap(before), dataPoint.text) + [dataPoint.parentShape] == [dataPoint.parentShape];
      } else if !SameParentIsInArray(dataPoint.parentShape, labelDataPointMap[dataPoint.text]) {
        uniqueLabelDataPoints := uniqueLabelDataPoints + [dataPoint];
        labelDataPointMap := labelDataPointMap[dataPoint.text := labelDataPointMap[dataPoint.text] + [dataPoint.parentShape]];
        assert uniqueLabelDataPoints[..|before|] == before;
      }
    }
    assert labelDataPoints[..|labelDataPoints|] == labelDataPoints;
  }

  /** A duplicate-free input comes back unchanged. */
  lemma {:induction false} DuplicateFreeInputIsKept(ps: seq<LabelDataPoint>)
    requires DuplicateFree(ps)
    ensures FirstOccurrences(ps) == ps
  {
    if ps != [] {
      var n := |ps| - 1;
      assert DuplicateFree(ps[..n]) by {
        forall a, b | 0 <= a < b < n ensures !Duplicate(ps[..n][a], ps[..n][b]) {
          assert ps[..n][a] == ps[a] && ps[..n][b] == ps[b];
        }
      }
      DuplicateFreeInputIsKept(ps[..n]);
      assert IsFirst(ps, n);
      assert ps[..n] + [ps[n]] == ps;
    }
  }

  /** Removing duplicates twice gives the same result as once. */
  lemma RemoveDuplicatesIsIdempotent(ps: seq<LabelDataPoint>)
    ensures FirstOccurrences(FirstOccurrences(ps)) == FirstOccurrences(ps)
  {
    ResultIsDuplicateFree(ps);
    DuplicateFreeInputIsKept(FirstOccurrences(ps));
  }

  /** Two candidates with the same text and equal rectangles collapse to the first, whatever their orientations. */
  lemma EqualRectanglesCollapse(text: string, r: Rect, o1: RectOrientation, o2: RectOrientation, pref1: bool, pref2: bool)
    ensures var p := LabelDataPoint(text, RectParent(r, o1), pref1);
            var q := LabelDataPoint(text, RectParent(r, o2), pref2);
            FirstOccurrences([p, q]) == [p]
  {
    var p := LabelDataPoint(text, RectParent(r, o1), pref1);
    var q := LabelDataPoint(text, RectParent(r, o2), pref2);
    assert [p, q][..1] == [p];
    assert [p][..0] == [];
    assert IsFirst([p], 0);
    assert FirstOccurrences([p]) == [p];
    assert Duplicate([p, q][0], [p, q][1]);
    assert !IsFirst([p, q], 1);
  }

  /** Candidates with the same text but anchors that differ (or differ in kind) both survive. */
  lemma DifferentAnchorsSurvive(p: LabelDataPoint, q: LabelDataPoint)
    requires !AnchorEquals(q.parentShape, p.parentShape)
    ensures FirstOccurrences([p, q]) == [p, q]
  {
    DuplicateFreeInputIsKept([p, q]);
  }

  // ---------------------------------------------------------------------
  // The loop as written looks texts up in a plain object literal, which
  // inherits the members of Object.prototype.

  /** Names every plain object inherits from Object.prototype. */
  const ObjectPrototypeMembers: set<string> := {
    "constructor", "__proto__", "toString", "toLocaleString", "valueOf",
    "hasOwnProperty", "isPrototypeOf", "propertyIsEnumerable",
    "__defineGetter__", "__defineSetter__", "__lookupGetter__", "__lookupSetter__"
  }

  /** What a call of the function as written does: return a list, or throw. */
  datatype Outcome = Returned(points: seq<LabelDataPoint>) | ThrewTypeError

  /**
   * removeDuplicates as written: a text with no own entry in the
   * dictionary may still find an inherited member of Object.prototype,
   * which is truthy, so the loop calls `.some` on it and throws.
   */
  function RemoveDuplicatesAsWritten(ps: seq<LabelDataPoint>): (r: Outcome)
    ensures r.Returned? ==> |r.points| <= |ps|
    ensures r.Returned? ==> forall k :: 0 <= k < |r.points| ==> r.points[k] in ps
  {
    if ps == [] then Returned([])
    else
      var n := |ps| - 1;
      match RemoveDuplicatesAsWritten(ps[..n])
      case ThrewTypeError => ThrewTypeError
      case Returned(kept) => AsWrittenStep(kept, ps[n])
  }

  /**
   * One turn of the loop as written, after `kept`: a text with an own entry
   * is tested against its anchors; any other text that names an inherited
   * member throws; the rest start a new entry.
   */
  function AsWrittenStep(kept: seq<LabelDataPoint>, p: LabelDataPoint): (r: Outcome)
    ensures r.Returned? ==> r.points == kept || r.points == kept + [p]
  {
    var own := AnchorMap(kept);
    if p.text in own then
      if SameParentIsInArray(p.parentShape, own[p.text]) then Returned(kept) else Returned(kept + [p])
    else if p.text in ObjectPrototypeMembers then ThrewTypeError
    else Returned(kept + [p])
  }

  lemma {:induction false} AnchorMapHasOnlyKeptTexts(kept: seq<LabelDataPoint>, t: string)
    requires forall k :: 0 <= k < |kept| ==> kept[k].text != t
    ensures t !in AnchorMap(kept)
  {
    if kept != [] {
      var n := |kept| - 1;
      assert forall k :: 0 <= k < n ==> kept[..n][k] == kept[k];
      AnchorMapHasOnlyKeptTexts(kept[..n], t);
    }
  }

  /** Off the inherited names, the code as written computes FirstOccurrences. */
  lemma {:induction false} AsWrittenAgreesOffPrototypeNames(ps: seq<LabelDataPoint>)
    requires forall i :: 0 <= i < |ps| ==> ps[i].text !in ObjectPrototypeMembers
    ensures RemoveDuplicatesAsWritten(ps) == Returned(FirstOccurrences(ps))
  {
    if ps != [] {
      var n := |ps| - 1;
      assert forall i :: 0 <= i < n ==> ps[..n][i] == ps[i];
      AsWrittenAgreesOffPrototypeNames(ps[..n]);
      var kept := FirstOccurrences(ps[..n]);
      LookupFindsKeptDuplicate(kept, ps[n]);
      FirstOccurrenceTest(ps);
    }
  }

  /**
   * The first candidate with an inherited name finds no own entry for its
   * text: no kept candidate before it carries that text.
   */
  lemma FirstPrototypeNameHasNoOwnEntry(ps: seq<LabelDataPoint>, n: nat)
    requires n < |ps| && ps[n].text in ObjectPrototypeMembers
    requires forall j :: 0 <= j < n ==> ps[j].text !in ObjectPrototypeMembers
    ensures ps[n].text !in AnchorMap(FirstOccurrences(ps[..n]))
  {
    var kept := FirstOccurrences(ps[..n]);
    FirstOccurrencesAreKeptIndices(ps[..n]);
    forall k | 0 <= k < |kept| ensures kept[k].text != ps[n].text {
      assert kept[k] == ps[KeptIndices(ps[..n])[k]];
    }
    AnchorMapHasOnlyKeptTexts(kept, ps[n].text);
  }

  lemma AsWrittenReturnsBeforeFirstPrototypeName(q: seq<LabelDataPoint>)
    requires q != []
    requires forall j :: 0 <= j < |q| - 1 ==> q[j].text !in ObjectPrototypeMembers
    ensures RemoveDuplicatesAsWritten(q[..|q| - 1]) == Returned(FirstOccurrences(q[..|q| - 1]))
  {
    var n := |q| - 1;
    forall j | 0 <= j < n ensures q[..n][j].text !in ObjectPrototypeMembers {
      assert q[..n][j] == q[j];
    }
    AsWrittenAgreesOffPrototypeNames(q[..n]);
  }

  /** The first candidate with an inherited name makes the pass throw on reaching it. */
  lemma ThrowsAtFirstPrototypeName(q: seq<LabelDataPoint>)
    requires q != [] && q[|q| - 1].text in ObjectPrototypeMembers
    requires forall j :: 0 <= j < |q| - 1 ==> q[j].text !in ObjectPrototypeMembers
    ensures RemoveDuplicatesAsWritten(q) == ThrewTypeError
  {
    var n := |q| - 1;
    AsWrittenReturnsBeforeFirstPrototypeName(q);
    FirstPrototypeNameHasNoOwnEntry(q, n);
    assert AsWrittenStep(FirstOccurrences(q[..n]), q[n]) == ThrewTypeError;
  }

  /** Once the pass has thrown on a prefix, it throws on the whole input. */
  lemma {:induction false} ThrowPropagates(ps: seq<LabelDataPoint>, m: nat)
    requires m <= |ps| && RemoveDuplicatesAsWritten(ps[..m]) == ThrewTypeError
    ensures RemoveDuplicatesAsWritten(ps) == ThrewTypeError
    decreases |ps| - m
  {
    if m == |ps| {
      assert ps[..m] == ps;
    } else {
      assert ps[..m + 1][..m] == ps[..m];
      ThrowPropagates(ps, m + 1);
    }
  }

  /**
   * Any candidate whose text names an Object.prototype member makes the
   * code as written throw, although FirstOccurrences is defined for it.
   */
  lemma {:induction false} PrototypeNamedTextThrows(ps: seq<LabelDataPoint>, i: nat)
    requires i < |ps| && ps[i].text in ObjectPrototypeMembers
    ensures RemoveDuplicatesAsWritten(ps) == ThrewTypeError
    decreases i
  {
    if exists j :: 0 <= j < i && ps[j].text in ObjectPrototypeMembers {
      var j :| 0 <= j < i && ps[j].text in ObjectPrototypeMembers;
      PrototypeNamedTextThrows(ps, j);
    } else {
      var q := ps[..i + 1];
      assert q[i] == ps[i] && forall j :: 0 <= j < i ==> q[j] == ps[j];
      ThrowsAtFirstPrototypeName(q);
      ThrowPropagates(ps, i + 1);
    }
  }

  /**
   * The code as written throws exactly when some candidate's text names an
   * inherited member, and otherwise returns FirstOccurrences.
   */
  lemma AsWrittenOutcome(ps: seq<LabelDataPoint>)
    ensures RemoveDuplicatesAsWritten(ps)
         == if exists i :: 0 <= i < |ps| && ps[i].text in ObjectPrototypeMembers then ThrewTypeError
            else Returned(FirstOccurrences(ps))
  {
    if exists i :: 0 <= i < |ps| && ps[i].text in ObjectPrototypeMembers {
      var i :| 0 <= i < |ps| && ps[i].text in ObjectPrototypeMembers;
      PrototypeNamedTextThrows(ps, i);
    } else {
      AsWrittenAgreesOffPrototypeNames(ps);
    }
  }

  /** A single candidate labelled "constructor": the corrected pass keeps it, the code as written throws. */
  lemma ConstructorLabelCounterexample(shape: ParentShape)
    ensures var p := LabelDataPoint("constructor", shape, true);
            FirstOccurrences([p]) == [p] && RemoveDuplicatesAsWritten([p]) == ThrewTypeError
  {
    var p := LabelDataPoint("constructor", shape, true);
    assert [p][..0] == [];
    PrototypeNamedTextThrows([p], 0);
  }
}
