/**
 * Label precision and the column formatter cache
 * (getLabelPrecision, getOptionsForLabelFormatter,
 * createColumnFormatterCacheManager and its getOrCreate).
 *
 * The formatter factory (valueFormatter.create) is modelled as handing out
 * a fresh handle from a counter; the formatter remembers the options it was
 * created with. The number-format metadata service is a function supplied
 * to the cache when it is created.
 */
module FormatterCache {
  import opened LabelTypes

  /** What the number-format service reports about a format: whether it has a decimal point, and its precision. */
  datatype FormatMetadata = FormatMetadata(hasDots: bool, precision: int)

  /** The display-unit system a label formatter is created for. */
  datatype DisplayUnitSystemType = DataLabels

  /** The options a formatter is created from. */
  datatype FormatterOptions = FormatterOptions(
    displayUnitSystemType: DisplayUnitSystemType,
    format: Option<string>,
    precision: Option<int>,
    value: real,
    value2: Option<real>,
    allowFormatBeautification: bool)

  /** A formatter: an opaque handle and the options it was created with. */
  datatype Formatter = Formatter(handle: nat, options: FormatterOptions)

  /** The key of a cached formatter: (format string, display units, derived precision, value2). */
  datatype CacheKey = CacheKey(formatString: string, displayUnits: real, precision: int, value2: Option<real>)

  /** A format string is used only when it is present and non-empty (JavaScript truthiness). */
  predicate IsTruthy(format: Option<string>)
  {
    format.Some? && format.value != ""
  }

  /** `format.split(";")[0]`: the text before the first `;`, or all of it. */
  function PositiveSubformat(format: string): (r: string)
    ensures r <= format
    ensures ';' !in r
    ensures |r| < |format| ==> format[|r|] == ';'
  {
    if format == [] || format[0] == ';' then []
    else [format[0]] + PositiveSubformat(format[1..])
  }

  /** The positive subformat of `positive;rest` is `positive`, whatever `rest` is. */
  lemma PositiveSubformatOfSections(positive: string, rest: string)
    requires ';' !in positive
    ensures PositiveSubformat(positive + ";" + rest) == positive
  {
    var f := positive + ";" + rest;
    var r := PositiveSubformat(f);
    assert f[|positive|] == ';';
    assert r == f[..|r|] && positive == f[..|positive|];
  }

  /**
   * getLabelPrecision: an explicit precision wins; otherwise the precision
   * of the positive subformat when it has a decimal point; otherwise 0
   * (count fields get no decimals by default).
   */
  function GetLabelPrecision(precision: Option<int>, format: Option<string>, metadata: string -> FormatMetadata): (r: int)
    ensures precision.Some? ==> r == precision.value
    ensures precision.None? && IsTruthy(format) && metadata(PositiveSubformat(format.value)).hasDots ==>
              r == metadata(PositiveSubformat(format.value)).precision
    ensures precision.None? && !(IsTruthy(format) && metadata(PositiveSubformat(format.value)).hasDots) ==> r == 0
  {
    if precision.Some? then precision.value
    else if IsTruthy(format) && metadata(PositiveSubformat(format.value)).hasDots then
      metadata(PositiveSubformat(format.value)).precision
    else 0
  }

  /** The derived precision never depends on the text after the first `;`. */
  lemma PrecisionIgnoresOtherSubformats(precision: Option<int>, positive: string, rest1: string, rest2: string,
                                        metadata: string -> FormatMetadata)
    requires ';' !in positive
    ensures GetLabelPrecision(precision, Some(positive + ";" + rest1), metadata)
         == GetLabelPrecision(precision, Some(positive + ";" + rest2), metadata)
  {
    PositiveSubformatOfSections(positive, rest1);
    PositiveSubformatOfSections(positive, rest2);
  }

  /**
   * getOptionsForLabelFormatter: data-label display units, beautification
   * on, and the precision passed in; the settings' own precision is not read.
   */
  function OptionsForLabelFormatter(labelSetting: LabelSettings, formatString: Option<string>, value2: Option<real>,
                                    precision: Option<int>): (r: FormatterOptions)
    ensures r.displayUnitSystemType == DataLabels && r.allowFormatBeautification
    ensures r.format == formatString && r.value == labelSetting.displayUnits && r.value2 == value2
    ensures r.precision == precision
  {
    FormatterOptions(DataLabels, formatString, precision, labelSetting.displayUnits, value2, true)
  }

  /** The key getOrCreate computes for a non-empty format string. */
  function KeyFor(formatString: string, labelSetting: LabelSettings, value2: Option<real>,
                  metadata: string -> FormatMetadata): (key: CacheKey)
    ensures key.precision == GetLabelPrecision(labelSetting.precision, Some(formatString), metadata)
    ensures KeyOptions(key) == OptionsForLabelFormatter(labelSetting, Some(formatString), value2, Some(key.precision))
  {
    CacheKey(formatString, labelSetting.displayUnits,
             GetLabelPrecision(labelSetting.precision, Some(formatString), metadata), value2)
  }

  /** The options of the formatter created for a key; they depend on the key alone. */
  function KeyOptions(key: CacheKey): FormatterOptions
  {
    FormatterOptions(DataLabels, Some(key.formatString), Some(key.precision), key.displayUnits, key.value2, true)
  }

  /** Different keys lead to formatters with different options. */
  lemma KeyOptionsAreInjective(k1: CacheKey, k2: CacheKey)
    ensures KeyOptions(k1) == KeyOptions(k2) ==> k1 == k2
  {
  }

  /** The state of one cache manager: keyed entries, the default slot, and the next handle to hand out. */
  datatype CacheState = CacheState(entries: map<CacheKey, Formatter>, defaultFormatter: Option<Formatter>, nextHandle: nat)

  /** One getOrCreate call: format string, label settings and value2. */
  datatype Request = Request(formatString: Option<string>, labelSetting: LabelSettings, value2: Option<real>)

  /** The cache a fresh manager starts with. */
  const EmptyCache := CacheState(map[], None, 0)

  /**
   * Every formatter held was handed out earlier, no handle is held twice,
   * and each keyed formatter was created from its own key.
   */
  predicate ValidState(s: CacheState)
  {
    && (forall k :: k in s.entries ==> s.entries[k].handle < s.nextHandle && s.entries[k].options == KeyOptions(k))
    && (forall k1, k2 :: k1 in s.entries && k2 in s.entries && k1 != k2 ==> s.entries[k1].handle != s.entries[k2].handle)
    && (s.defaultFormatter.Some? ==>
          && s.defaultFormatter.value.handle < s.nextHandle
          && forall k :: k in s.entries ==> s.entries[k].handle != s.defaultFormatter.value.handle)
  }

  /**
   * getOrCreate on values: a hit returns the stored formatter and leaves
   * the cache alone; a miss creates one formatter, stores it and returns it.
   */
  function GetOrCreateSpec(s: CacheState, metadata: string -> FormatMetadata, req: Request): (res: (CacheState, Formatter))
    ensures forall k :: k in s.entries ==> k in res.0.entries && res.0.entries[k] == s.entries[k]
    ensures s.defaultFormatter.Some? ==> res.0.defaultFormatter == s.defaultFormatter
    ensures IsTruthy(req.formatString) ==>
              var key := KeyFor(req.formatString.value, req.labelSetting, req.value2, metadata);
              && res.0.entries.Keys == s.entries.Keys + {key}
              && res.0.entries[key] == res.1
              && res.0.defaultFormatter == s.defaultFormatter
              && (key in s.entries <==> res.0 == s)
    ensures !IsTruthy(req.formatString) ==>
              && res.0.entries == s.entries
              && res.0.defaultFormatter == Some(res.1)
              && (s.defaultFormatter.Some? <==> res.0 == s)
    ensures res.0 == s || (res.0.nextHandle == s.nextHandle + 1 && res.1.handle == s.nextHandle)
    ensures IsTruthy(req.formatString) && res.0 != s ==>
              var key := KeyFor(req.formatString.value, req.labelSetting, req.value2, metadata);
              && res.1.options == OptionsForLabelFormatter(req.labelSetting, req.formatString, req.value2, Some(key.precision))
              && res.1.options == KeyOptions(key)
    ensures !IsTruthy(req.formatString) && s.defaultFormatter.None? ==>
              res.1.options == OptionsForLabelFormatter(req.labelSetting, req.formatString, req.value2, req.labelSetting.precision)
    ensures ValidState(s) ==> ValidState(res.0)
  {
    if IsTruthy(req.formatString) then
      var key := KeyFor(req.formatString.value, req.labelSetting, req.value2, metadata);
      if key in s.entries then (s, s.entries[key])
      else
        var f := Formatter(s.nextHandle, OptionsForLabelFormatter(req.labelSetting, req.formatString, req.value2, Some(key.precision)));
        (s.(entries := s.entries[key := f], nextHandle := s.nextHandle + 1), f)
    else if s.defaultFormatter.Some? then (s, s.defaultFormatter.value)
    else
      var f := Formatter(s.nextHandle, OptionsForLabelFormatter(req.labelSetting, req.formatString, req.value2, req.labelSetting.precision));
      (s.(defaultFormatter := Some(f), nextHandle := s.nextHandle + 1), f)
  }

  /** The cache after a sequence of getOrCreate calls. */
  function Replay(s: CacheState, metadata: string -> FormatMetadata, reqs: seq<Request>): CacheState
    decreases |reqs|
  {
    if reqs == [] then s else Replay(GetOrCreateSpec(s, metadata, reqs[0]).0, metadata, reqs[1..])
  }

  /** Entries are never overwritten or evicted, and a filled default slot stays as it is. */
  lemma {:induction false} ReplayKeepsEntries(s: CacheState, metadata: string -> FormatMetadata, reqs: seq<Request>)
    ensures forall k :: k in s.entries ==> k in Replay(s, metadata, reqs).entries && Replay(s, metadata, reqs).entries[k] == s.entries[k]
    ensures s.defaultFormatter.Some? ==> Replay(s, metadata, reqs).defaultFormatter == s.defaultFormatter
    decreases |reqs|
  {
    if reqs != [] {
      ReplayKeepsEntries(GetOrCreateSpec(s, metadata, reqs[0]).0, metadata, reqs[1..]);
    }
  }

  /** Any sequence of calls keeps the cache valid. */
  lemma {:induction false} ReplayKeepsValid(s: CacheState, metadata: string -> FormatMetadata, reqs: seq<Request>)
    requires ValidState(s)
    ensures ValidState(Replay(s, metadata, reqs))
    decreases |reqs|
  {
    if reqs != [] {
      ReplayKeepsValid(GetOrCreateSpec(s, metadata, reqs[0]).0, metadata, reqs[1..]);
    }
  }

  /**
   * A call repeated after any other calls returns the formatter the first
   * call returned and changes nothing; for the default formatter this holds
   * whatever settings either call passes.
   */
  lemma RepeatedLookupReturnsSameFormatter(s: CacheState, metadata: string -> FormatMetadata,
                                           first: Request, between: seq<Request>, again: Request)
    requires IsTruthy(first.formatString) ==>
               again.formatString == first.formatString && again.value2 == first.value2
               && KeyFor(again.formatString.value, again.labelSetting, again.value2, metadata)
                  == KeyFor(first.formatString.value, first.labelSetting, first.value2, metadata)
    requires !IsTruthy(first.formatString) ==> !IsTruthy(again.formatString)
    ensures var (s1, f1) := GetOrCreateSpec(s, metadata, first);
            var s2 := Replay(s1, metadata, between);
            GetOrCreateSpec(s2, metadata, again) == (s2, f1)
  {
    var (s1, f1) := GetOrCreateSpec(s, metadata, first);
    ReplayKeepsEntries(s1, metadata, between);
  }

  /**
   * The default formatter keeps the settings of the call that created it:
   * after any calls in between, a call without a format gets a formatter
   * made from the first such call's label settings, format and value2, and
   * from the raw precision of those settings, not the derived one.
   */
  lemma DefaultFormatterKeepsFirstSettings(s: CacheState, metadata: string -> FormatMetadata,
                                           first: Request, between: seq<Request>, again: Request)
    requires s.defaultFormatter.None?
    requires !IsTruthy(first.formatString) && !IsTruthy(again.formatString)
    ensures var s1 := GetOrCreateSpec(s, metadata, first).0;
            GetOrCreateSpec(Replay(s1, metadata, between), metadata, again).1.options
              == OptionsForLabelFormatter(first.labelSetting, first.formatString, first.value2, first.labelSetting.precision)
  {
    RepeatedLookupReturnsSameFormatter(s, metadata, first, between, again);
  }

  /** Two calls whose keys differ in any component get different formatters. */
  lemma DifferentKeysGetDifferentFormatters(s: CacheState, metadata: string -> FormatMetadata,
                                            first: Request, between: seq<Request>, later: Request)
    requires ValidState(s)
    requires IsTruthy(first.formatString) && IsTruthy(later.formatString)
    requires KeyFor(first.formatString.value, first.labelSetting, first.value2, metadata)
          != KeyFor(later.formatString.value, later.labelSetting, later.value2, metadata)
    ensures var (s1, f1) := GetOrCreateSpec(s, metadata, first);
            GetOrCreateSpec(Replay(s1, metadata, between), metadata, later).1 != f1
  {
    var (s1, f1) := GetOrCreateSpec(s, metadata, first);
    var s2 := Replay(s1, metadata, between);
    ReplayKeepsEntries(s1, metadata, between);
    ReplayKeepsValid(s1, metadata, between);
    var (s3, f3) := GetOrCreateSpec(s2, metadata, later);
    var k1 := KeyFor(first.formatString.value, first.labelSetting, first.value2, metadata);
    var k3 := KeyFor(later.formatString.value, later.labelSetting, later.value2, metadata);
    assert s3.entries[k1] == f1 && s3.entries[k3] == f3;
  }

  /** Keyed and default formatters are never the same formatter. */
  lemma DefaultDiffersFromKeyed(s: CacheState, k: CacheKey)
    requires ValidState(s) && s.defaultFormatter.Some? && k in s.entries
    ensures s.entries[k] != s.defaultFormatter.value
  {
  }

  /** Handles handed out by one call: one per new key, plus one if it filled the default slot. */
  function Created(s: CacheState, t: CacheState): int
  {
    |t.entries.Keys - s.entries.Keys| + (if s.defaultFormatter.None? && t.defaultFormatter.Some? then 1 else 0)
  }

  lemma NewKeysAddUp<K>(a: set<K>, b: set<K>, c: set<K>)
    requires a <= b <= c
    ensures |c - a| == |c - b| + |b - a|
  {
    assert c - a == (c - b) + (b - a);
    assert (c - b) !! (b - a);
  }

  lemma CallCreatesOnlyOnMiss(s: CacheState, metadata: string -> FormatMetadata, req: Request)
    ensures GetOrCreateSpec(s, metadata, req).0.nextHandle == s.nextHandle + Created(s, GetOrCreateSpec(s, metadata, req).0)
  {
    var s1 := GetOrCreateSpec(s, metadata, req).0;
    if IsTruthy(req.formatString) {
      var key := KeyFor(req.formatString.value, req.labelSetting, req.value2, metadata);
      if key !in s.entries {
        assert s1.entries.Keys - s.entries.Keys == {key};
      } else {
        assert s1.entries.Keys - s.entries.Keys == {};
      }
    } else {
      assert s1.entries.Keys - s.entries.Keys == {};
    }
  }

  /**
   * Formatters are created only on a miss: after any calls, the handles
   * handed out number exactly the new keys plus one if the default slot
   * was filled.
   */
  lemma {:induction false} ReplayCreatesOnlyOnMiss(s: CacheState, metadata: string -> FormatMetadata, reqs: seq<Request>)
    ensures Replay(s, metadata, reqs).nextHandle == s.nextHandle + Created(s, Replay(s, metadata, reqs))
    decreases |reqs|
  {
    if reqs != [] {
      var s1 := GetOrCreateSpec(s, metadata, reqs[0]).0;
      var t := Replay(s1, metadata, reqs[1..]);
      assert Replay(s, metadata, reqs) == t;
      CallCreatesOnlyOnMiss(s, metadata, reqs[0]);
      ReplayCreatesOnlyOnMiss(s1, metadata, reqs[1..]);
      ReplayKeepsEntries(s1, metadata, reqs[1..]);
      NewKeysAddUp(s.entries.Keys, s1.entries.Keys, t.entries.Keys);
    }
  }

  /**
   * A column formatter cache manager (createColumnFormatterCacheManager):
   * a dictionary of keyed formatters and one default-formatter slot.
   */
  class ColumnFormatterCacheManager {
    var cache: map<CacheKey, Formatter>
    var defaultFormatter: Option<Formatter>
    var nextHandle: nat
    const metadata: string -> FormatMetadata

    function State(): CacheState
      reads this
    {
      CacheState(cache, defaultFormatter, nextHandle)
    }

    ghost predicate Valid()
      reads this
    {
      ValidState(State())
    }

    constructor (metadata: string -> FormatMetadata)
      ensures Valid() && State() == EmptyCache && this.metadata == metadata
    {
      cache := map[];
      defaultFormatter := None;
      nextHandle := 0;
      this.metadata := metadata;
    }

    /** valueFormatter.create: a formatter with a handle never handed out before. */
    method Create(options: FormatterOptions) returns (formatter: Formatter)
      modifies this`nextHandle
      ensures formatter == Formatter(old(nextHandle), options)
      ensures nextHandle == old(nextHandle) + 1
    {
      formatter := Formatter(nextHandle, options);
      nextHandle := nextHandle + 1;
    }

    /**
     * getOrCreate: with a non-empty format string, the formatter cached
     * under (format string, display units, derived precision, value2),
     * created on the first miss; otherwise the single default formatter,
     * created by the first such call.
     */
    method GetOrCreate(formatString: Option<string>, labelSetting: LabelSettings, value2: Option<real>)
      returns (formatter: Formatter)
      requires Valid()
      modifies this
      ensures Valid()
      ensures (State(), formatter) == GetOrCreateSpec(old(State()), metadata, Request(formatString, labelSetting, value2))
    {
      ghost var before := State();
      if IsTruthy(formatString) {
        var precision := GetLabelPrecision(labelSetting.precision, formatString, metadata);
        var cacheKey := CacheKey(formatString.value, labelSetting.displayUnits, precision, value2);
        if cacheKey !in cache {
          var created := Create(OptionsForLabelFormatter(labelSetting, formatString, value2, Some(precision)));
          cache := cache[cacheKey := created];
        }
        formatter := cache[cacheKey];
      } else {
        if defaultFormatter.None? {
          var created := Create(OptionsForLabelFormatter(labelSetting, formatString, value2, labelSetting.precision));
          defaultFormatter := Some(created);
        }
        formatter := defaultFormatter.value;
      }
      assert (State(), formatter) == GetOrCreateSpec(before, metadata, Request(formatString, labelSetting, value2));
    }
  }
}
