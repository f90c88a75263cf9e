/**
 * Which labels the renderers draw and the keys they join them on
 * (the filters of drawDefaultLabels, animateDefaultLabels and
 * drawLabelBackground, and labelKeyFunction).
 *
 * The rendering library's data join is not modelled; only the data it is
 * given: the filtered labels and the key of each, where a positional
 * fallback key is the position among the FILTERED labels.
 */
module LabelJoin {
  import opened LabelTypes

  /** A join key: a text key, or a position when a label has neither key nor identity. */
  datatype JoinKey = KeyText(text: string) | Position(index: nat)

  /** The label's own key is set and non-empty (truthy). */
  predicate HasKey(dataLabel: Label)
  {
    dataLabel.key.Some? && dataLabel.key.value != ""
  }

  /** `_.isEmpty(secondRowText)` is false: a non-empty second row is present. */
  predicate HasSecondRow(dataLabel: Label)
  {
    dataLabel.secondRowText.Some? && dataLabel.secondRowText.value != ""
  }

  /**
   * labelKeyFunction: the label's key when truthy, else its identity's key
   * without highlight, else its position.
   */
  function LabelKey(dataLabel: Label, index: nat): (r: JoinKey)
    ensures r.Position? <==> !HasKey(dataLabel) && dataLabel.identity.None?
    ensures r.Position? ==> r.index == index
    ensures HasKey(dataLabel) ==> r == KeyText(dataLabel.key.value)
    ensures !HasKey(dataLabel) && dataLabel.identity.Some? ==> r == KeyText(dataLabel.identity.value.keyWithoutHighlight)
  {
    if HasKey(dataLabel) then KeyText(dataLabel.key.value)
    else if dataLabel.identity.Some? then KeyText(dataLabel.identity.value.keyWithoutHighlight)
    else Position(index)
  }

  /** The key of a second-row label: its identity's key, else its position; the label's own key is not used. */
  function SecondRowKey(dataLabel: Label, index: nat): (r: JoinKey)
    ensures r.Position? <==> dataLabel.identity.None?
    ensures dataLabel.identity.Some? ==> r == KeyText(dataLabel.identity.value.keyWithoutHighlight)
    ensures r.Position? ==> r.index == index
  {
    if dataLabel.identity.Some? then KeyText(dataLabel.identity.value.keyWithoutHighlight) else Position(index)
  }

  /** The visible labels, in their original order: the only ones that get an element. */
  function VisibleLabels(labels: seq<Label>): (r: seq<Label>)
    ensures |r| <= |labels|
    ensures forall i :: 0 <= i < |r| ==> r[i].isVisible
    ensures forall l :: l in r <==> l in labels && l.isVisible
    ensures (forall i :: 0 <= i < |labels| ==> labels[i].isVisible) ==> r == labels
  {
    if labels == [] then []
    else (if labels[0].isVisible then [labels[0]] else []) + VisibleLabels(labels[1..])
  }

  /**
   * The labels drawn on the second row: none unless two rows are asked
   * for, else the visible labels whose second row is non-empty.
   */
  function SecondRowLabels(labels: seq<Label>, twoRows: bool): (r: seq<Label>)
    ensures !twoRows ==> r == []
    ensures |r| <= |labels|
    ensures forall i :: 0 <= i < |r| ==> r[i].isVisible && HasSecondRow(r[i])
    ensures twoRows ==> forall l :: l in r <==> l in labels && l.isVisible && HasSecondRow(l)
  {
    if !twoRows || labels == [] then []
    else (if labels[0].isVisible && HasSecondRow(labels[0]) then [labels[0]] else []) + SecondRowLabels(labels[1..], twoRows)
  }

  /** Every second-row label is also drawn as a first-row label. */
  lemma SecondRowLabelsAreVisible(labels: seq<Label>, twoRows: bool)
    ensures forall l :: l in SecondRowLabels(labels, twoRows) ==> l in VisibleLabels(labels)
  {
  }

  /**
   * The keys the text (and background) elements are joined on: one per
   * visible label, the positional fallback counting visible labels only.
   */
  function TextJoinKeys(labels: seq<Label>): (keys: seq<JoinKey>)
    ensures |keys| == |VisibleLabels(labels)|
    ensures forall k :: 0 <= k < |keys| ==> keys[k] == LabelKey(VisibleLabels(labels)[k], k)
  {
    var visible := VisibleLabels(labels);
    seq(|visible|, k requires 0 <= k < |visible| => LabelKey(visible[k], k))
  }

  /** The keys the second-row elements are joined on. */
  function SecondRowJoinKeys(labels: seq<Label>, twoRows: bool): (keys: seq<JoinKey>)
    ensures |keys| == |SecondRowLabels(labels, twoRows)|
    ensures !twoRows ==> keys == []
    ensures forall k :: 0 <= k < |keys| ==> keys[k] == SecondRowKey(SecondRowLabels(labels, twoRows)[k], k)
  {
    var rows := SecondRowLabels(labels, twoRows);
    seq(|rows|, k requires 0 <= k < |rows| => SecondRowKey(rows[k], k))
  }

  /** A label with a key or an identity is joined on the same key wherever it appears. */
  lemma KeyedLabelKeyIsPositionIndependent(dataLabel: Label, i: nat, j: nat)
    requires HasKey(dataLabel) || dataLabel.identity.Some?
    ensures LabelKey(dataLabel, i) == LabelKey(dataLabel, j)
  {
  }

  /**
   * `_.filter` keeps the order of what it keeps: filtering a concatenation
   * is concatenating the filtered parts. With the single-label case fixed by
   * the contract of VisibleLabels, this determines the result completely.
   */
  lemma {:induction false} VisibleLabelsOfConcat(a: seq<Label>, b: seq<Label>)
    ensures VisibleLabels(a + b) == VisibleLabels(a) + VisibleLabels(b)
  {
    if a == [] {
      assert a + b == b;
    } else {
      assert (a + b)[0] == a[0];
      assert (a + b)[1..] == a[1..] + b;
      VisibleLabelsOfConcat(a[1..], b);
    }
  }

  /** The second-row filter keeps the order of what it keeps as well. */
  lemma {:induction false} SecondRowLabelsOfConcat(a: seq<Label>, b: seq<Label>, twoRows: bool)
    ensures SecondRowLabels(a + b, twoRows) == SecondRowLabels(a, twoRows) + SecondRowLabels(b, twoRows)
  {
    if !twoRows {
    } else if a == [] {
      assert a + b == b;
    } else {
      assert (a + b)[0] == a[0];
      assert (a + b)[1..] == a[1..] + b;
      SecondRowLabelsOfConcat(a[1..], b, twoRows);
    }
  }

  /** The join keys depend on the visible labels alone. */
  lemma JoinKeysSeeOnlyVisibleLabels(labels: seq<Label>)
    ensures TextJoinKeys(labels) == TextJoinKeys(VisibleLabels(labels))
  {
    assert VisibleLabels(VisibleLabels(labels)) == VisibleLabels(labels);
  }

  lemma {:induction false} NoVisibleAmongHidden(hidden: seq<Label>)
    requires forall i :: 0 <= i < |hidden| ==> !hidden[i].isVisible
    ensures VisibleLabels(hidden) == []
  {
    if hidden != [] {
      NoVisibleAmongHidden(hidden[1..]);
    }
  }

  /** Hidden labels, wherever they stand, do not shift the positional keys of the others. */
  lemma HiddenLabelsDoNotShiftKeys(before: seq<Label>, hidden: seq<Label>, after: seq<Label>)
    requires forall i :: 0 <= i < |hidden| ==> !hidden[i].isVisible
    ensures TextJoinKeys(before + hidden + after) == TextJoinKeys(before + after)
  {
    NoVisibleAmongHidden(hidden);
    VisibleLabelsOfConcat(before + hidden, after);
    VisibleLabelsOfConcat(before, hidden);
    VisibleLabelsOfConcat(before, after);
    assert VisibleLabels(before + hidden) == VisibleLabels(before);
    assert VisibleLabels(before + hidden + after) == VisibleLabels(before + after);
  }

  /** Font size in points: the label's own when set and non-zero, else 9. */
  function FontSizeInPt(dataLabel: Label): (r: real)
    ensures dataLabel.fontSize.Some? && dataLabel.fontSize.value != 0.0 ==> r == dataLabel.fontSize.value
    ensures dataLabel.fontSize.None? || dataLabel.fontSize.value == 0.0 ==> r == DefaultLabelFontSizeInPt
  {
    if dataLabel.fontSize.Some? && dataLabel.fontSize.value != 0.0 then dataLabel.fontSize.value else DefaultLabelFontSizeInPt
  }
}
