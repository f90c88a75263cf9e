# Data-label utilities of the Power BI visuals, in Dafny

This project models the non-rendering logic of the shared data-label module
`NewDataLabelUtils` (`src/Clients/Visuals/common/newDataLabelUtils.ts`), which
chart visuals use to turn label view-models into SVG text:

- **Duplicate removal** (`removeDuplicates`, module `LabelDedup`). The loop is
  the method `RemoveDuplicates`: it keeps a text-to-anchors dictionary and the
  output list, as the source does. It is proved to compute `FirstOccurrences`:
  the candidates that no earlier candidate duplicates. A duplicate has the same
  text and an equal parent anchor. Rectangle parents are compared by rectangle
  and point parents by point. A rectangle never equals a point. Lemmas about
  `FirstOccurrences` show the following:
  - the result is an order-preserving selection of the input;
  - the first candidate with each text is kept;
  - no two kept candidates are duplicates;
  - every dropped candidate has an earlier kept duplicate;
  - a duplicate-free input is returned unchanged, so the operation is idempotent.
- **Precision and the column formatter cache** (`getLabelPrecision`,
  `getOptionsForLabelFormatter`, `createColumnFormatterCacheManager`, module
  `FormatterCache`).
  - The manager is the class `ColumnFormatterCacheManager`. It holds a map of
    keyed formatters, the default-formatter slot, and a counter. The counter
    stands for the formatter factory: each formatter created gets a new handle
    and keeps the options it was created from.
  - `GetOrCreate` is proved to behave as the value-level function
    `GetOrCreateSpec`.
  - Lemmas over any sequence of calls (`Replay`) show the following. Entries are
    never overwritten. A repeated request returns the same formatter. Keys that
    differ get different formatters. All later calls without a format string
    share one default formatter, whatever their settings. A formatter is created
    only on a miss.
- **Join keys and visibility filters** (`labelKeyFunction` and the filters of
  the three renderers, module `LabelJoin`).
- **Label geometry** (text x/y, the second row, the background rectangle, module
  `LabelGeometry`).
- **Selectors** (`getDisplayUnitValueFromAxisFormatter`,
  `getDataLabelLayoutOptions`, module `LabelSelectors`).

Shared types and the module's constants (paddings 4 and 2, background rounding
4, default font size 9pt, default label offsets 8) are in `LabelTypes`.

Numbers are Dafny `real` (geometry, display units, `value2`) and `int`
(precision). An absent JavaScript value (`undefined`) is `None`.

## Model

| member | source | states |
|---|---|---|
| `LabelDedup.AnchorEquals` | src/Clients/Visuals/common/newDataLabelUtils.ts:319-325 | Anchors of different kinds never match. Two rectangle parents match exactly when their rectangles are equal, and two point parents exactly when their points are equal; orientation and radius play no part. |
| `LabelDedup.SameParentIsInArray` | src/Clients/Visuals/common/newDataLabelUtils.ts:318-327 | Scanning the stored anchors from the front, as `array.some` does, is true exactly when one of them matches the candidate's anchor. |
| `LabelDedup.AnchorMap` | src/Clients/Visuals/common/newDataLabelUtils.ts:317-339 | The dictionary state after the kept candidates: every kept candidate's text has an entry. |
| `LabelDedup.AnchorMapHasOnlyKeptTexts` | src/Clients/Visuals/common/newDataLabelUtils.ts:330-334 | A text that no kept candidate carries has no own entry in the dictionary. |
| `LabelDedup.RemoveDuplicates` | src/Clients/Visuals/common/newDataLabelUtils.ts:315-343 | The single pass with its dictionary and output list returns exactly `FirstOccurrences` of its input. |
| `LabelDedup.KeptIndices` | src/Clients/Visuals/common/newDataLabelUtils.ts:328-342 | The kept positions are strictly increasing. A position is kept exactly when no earlier candidate has the same text and an equal anchor. |
| `LabelDedup.FirstOccurrencesAreKeptIndices` | src/Clients/Visuals/common/newDataLabelUtils.ts:328-342 | The result is the input read at the kept positions, so it is an order-preserving subsequence. |
| `LabelDedup.ResultDrawsFromInput` | src/Clients/Visuals/common/newDataLabelUtils.ts:332-337 | Every point of the result comes from the input. |
| `LabelDedup.FirstOfEachTextIsKept` | src/Clients/Visuals/common/newDataLabelUtils.ts:330-334 | The first candidate carrying a text is always kept. |
| `LabelDedup.ResultIsDuplicateFree` | src/Clients/Visuals/common/newDataLabelUtils.ts:318-339 | No two kept candidates share text and an equal anchor (rectangle by rectangle, point by point). |
| `LabelDedup.DroppedHasKeptDuplicate` | src/Clients/Visuals/common/newDataLabelUtils.ts:329-341 | Every input candidate has a kept duplicate at or before its position. A dropped candidate has one strictly before it. |
| `LabelDedup.LookupFindsKeptDuplicate` | src/Clients/Visuals/common/newDataLabelUtils.ts:330-339 | Looking a text up in the dictionary and testing its anchors finds a match exactly when a kept candidate is duplicated. |
| `LabelDedup.DuplicateFreeInputIsKept` | src/Clients/Visuals/common/newDataLabelUtils.ts:335-339 | An input with no duplicates comes back unchanged. Equal texts with different anchors all survive. |
| `LabelDedup.RemoveDuplicatesIsIdempotent` | src/Clients/Visuals/common/newDataLabelUtils.ts:315-343 | Removing duplicates twice gives the same result as once. |
| `LabelDedup.EqualRectanglesCollapse` | src/Clients/Visuals/common/newDataLabelUtils.ts:320-321 | Two candidates with the same text and equal rectangles reduce to the first, whatever their orientations. |
| `LabelDedup.DifferentAnchorsSurvive` | src/Clients/Visuals/common/newDataLabelUtils.ts:318-327 | Two candidates whose anchors differ, or differ in kind, both survive. |
| `LabelDedup.RemoveDuplicatesAsWritten` | src/Clients/Visuals/common/newDataLabelUtils.ts:315-343 | The code as written, whose dictionary is a plain object: when it returns, its list is no longer than the input and draws only from the input. |
| `LabelDedup.AsWrittenStep` | src/Clients/Visuals/common/newDataLabelUtils.ts:329-339 | One turn of the loop as written either throws or returns the kept list unchanged or with the candidate appended. |
| `LabelDedup.AsWrittenOutcome` | src/Clients/Visuals/common/newDataLabelUtils.ts:317-336 | The code as written throws exactly when some candidate's text names an inherited object member, and otherwise returns `FirstOccurrences`. |
| `LabelDedup.AsWrittenAgreesOffPrototypeNames` | src/Clients/Visuals/common/newDataLabelUtils.ts:317-341 | When no text names an inherited object member, the code as written returns `FirstOccurrences`. |
| `LabelDedup.PrototypeNamedTextThrows` | src/Clients/Visuals/common/newDataLabelUtils.ts:317-336 | A text such as `constructor` finds an inherited member of the plain-object dictionary, and the code as written throws. |
| `LabelDedup.ConstructorLabelCounterexample` | src/Clients/Visuals/common/newDataLabelUtils.ts:330-336 | For one candidate labelled `constructor`, the corrected pass keeps it and the code as written throws. |
| `FormatterCache.PositiveSubformat` | src/Clients/Visuals/common/newDataLabelUtils.ts:269 | The result is the longest prefix of the format without a `;`. |
| `FormatterCache.PositiveSubformatOfSections` | src/Clients/Visuals/common/newDataLabelUtils.ts:269 | The positive subformat of `a;b` is `a`, whatever `b` is. |
| `FormatterCache.GetLabelPrecision` | src/Clients/Visuals/common/newDataLabelUtils.ts:261-277 | An explicit precision wins. Otherwise the positive subformat's precision is used when it has a decimal point. Otherwise the result is 0. |
| `FormatterCache.PrecisionIgnoresOtherSubformats` | src/Clients/Visuals/common/newDataLabelUtils.ts:267-273 | The derived precision never depends on the text after the first `;`. |
| `FormatterCache.OptionsForLabelFormatter` | src/Clients/Visuals/common/newDataLabelUtils.ts:304-313 | The options use the data-label display-unit system and allow format beautification. They carry the given format, `value2` and precision, and the settings' display units as `value`; the settings' own precision is not read. |
| `FormatterCache.KeyFor` | src/Clients/Visuals/common/newDataLabelUtils.ts:285-290 | The key holds the format, the display units, `value2` and the precision derived by `GetLabelPrecision`. The options a keyed formatter is created from at line 293 are a function of this key alone. |
| `FormatterCache.KeyOptionsAreInjective` | src/Clients/Visuals/common/newDataLabelUtils.ts:304-313 | Formatters created for different keys are created with different options. |
| `FormatterCache.GetOrCreateSpec` | src/Clients/Visuals/common/newDataLabelUtils.ts:283-300 | Existing entries are kept. A non-empty format adds exactly its key and returns that entry; it changes nothing on a hit. No format returns the default slot, filling it only when empty. At most one handle is created. A new keyed formatter is created from the settings, format and `value2` of the call with the derived precision. A new default formatter is created from the call's settings, format and `value2` with the settings' raw precision. Validity is preserved. |
| `FormatterCache.ColumnFormatterCacheManager.constructor` | src/Clients/Visuals/common/newDataLabelUtils.ts:279-282 | A new manager starts with an empty cache and an empty default slot. |
| `FormatterCache.ColumnFormatterCacheManager.Create` | src/Clients/Visuals/common/newDataLabelUtils.ts:293 | Each created formatter gets a handle never handed out before. |
| `FormatterCache.ColumnFormatterCacheManager.GetOrCreate` | src/Clients/Visuals/common/newDataLabelUtils.ts:283-300 | The new cache state and the returned formatter are those of `GetOrCreateSpec`. The manager stays valid. |
| `FormatterCache.ReplayKeepsEntries` | src/Clients/Visuals/common/newDataLabelUtils.ts:292-298 | Over any sequence of calls, no entry is overwritten or evicted and a filled default slot is never replaced. |
| `FormatterCache.ReplayKeepsValid` | src/Clients/Visuals/common/newDataLabelUtils.ts:284-299 | Over any sequence of calls, handles stay distinct and each keyed formatter keeps its key's options. |
| `FormatterCache.RepeatedLookupReturnsSameFormatter` | src/Clients/Visuals/common/newDataLabelUtils.ts:284-299 | After any other calls, an equal key returns the first call's formatter. A later call without a format returns the default formatter whatever its settings. Neither changes the cache. |
| `FormatterCache.DefaultFormatterKeepsFirstSettings` | src/Clients/Visuals/common/newDataLabelUtils.ts:296-299 | After any calls in between, a call without a format gets the formatter made from the first such call's settings, format and `value2`, with the raw precision of those settings. |
| `FormatterCache.DifferentKeysGetDifferentFormatters` | src/Clients/Visuals/common/newDataLabelUtils.ts:285-294 | Keys that differ in any component get different formatters. |
| `FormatterCache.DefaultDiffersFromKeyed` | src/Clients/Visuals/common/newDataLabelUtils.ts:293-297 | The default formatter is never one of the keyed formatters. |
| `FormatterCache.CallCreatesOnlyOnMiss` | src/Clients/Visuals/common/newDataLabelUtils.ts:292-298 | One call creates a formatter exactly when it adds a key or fills the default slot. |
| `FormatterCache.ReplayCreatesOnlyOnMiss` | src/Clients/Visuals/common/newDataLabelUtils.ts:292-298 | Over any sequence of calls, the formatters created number exactly the new keys, plus one if the default slot was filled. |
| `LabelJoin.LabelKey` | src/Clients/Visuals/common/newDataLabelUtils.ts:382-390 | The key is the label's key when it is truthy, else the identity's key without highlight, else the position. A position is used only when the label has neither key nor identity. |
| `LabelJoin.SecondRowKey` | src/Clients/Visuals/common/newDataLabelUtils.ts:103 | The key is the identity's key, else the position. The label's own key is ignored. |
| `LabelJoin.VisibleLabels` | src/Clients/Visuals/common/newDataLabelUtils.ts:67 | Exactly the visible labels remain, and an all-visible input is unchanged. The same filter is used at lines 149 and 192. Order is fixed by `VisibleLabelsOfConcat`. |
| `LabelJoin.SecondRowLabels` | src/Clients/Visuals/common/newDataLabelUtils.ts:101 | The result is empty unless two rows are requested. Otherwise it holds exactly the visible labels with a non-empty second row. Order is fixed by `SecondRowLabelsOfConcat`. |
| `LabelJoin.VisibleLabelsOfConcat` | src/Clients/Visuals/common/newDataLabelUtils.ts:67 | Filtering a concatenation concatenates the filtered parts, so kept labels stay in input order and each appears as often as in the input. |
| `LabelJoin.SecondRowLabelsOfConcat` | src/Clients/Visuals/common/newDataLabelUtils.ts:101 | The second-row filter also distributes over concatenation and keeps input order. |
| `LabelJoin.SecondRowLabelsAreVisible` | src/Clients/Visuals/common/newDataLabelUtils.ts:101 | Every second-row label is also a visible first-row label. |
| `LabelJoin.TextJoinKeys` | src/Clients/Visuals/common/newDataLabelUtils.ts:67-69 | There is one key per visible label, with the position counted among visible labels. |
| `LabelJoin.SecondRowJoinKeys` | src/Clients/Visuals/common/newDataLabelUtils.ts:101-103 | There is one key per second-row label, and none without two rows. |
| `LabelJoin.KeyedLabelKeyIsPositionIndependent` | src/Clients/Visuals/common/newDataLabelUtils.ts:382-388 | A label with a key or an identity gets the same join key at any position. |
| `LabelJoin.JoinKeysSeeOnlyVisibleLabels` | src/Clients/Visuals/common/newDataLabelUtils.ts:67-69 | The join keys of a list are those of its visible labels alone. |
| `LabelJoin.HiddenLabelsDoNotShiftKeys` | src/Clients/Visuals/common/newDataLabelUtils.ts:67-69 | Hidden labels inserted anywhere leave every join key unchanged, positional ones included. |
| `LabelJoin.FontSizeInPt` | src/Clients/Visuals/common/newDataLabelUtils.ts:95 | The font size is the label's own when set and non-zero, else 9pt. |
| `LabelGeometry.TextX` | src/Clients/Visuals/common/newDataLabelUtils.ts:74-76 | The text x is the horizontal centre of the box. |
| `LabelGeometry.TextDyEm` | src/Clients/Visuals/common/newDataLabelUtils.ts:83-87 | Categorical text gets a `dy` of exactly -0.15em, an upward shift. Numeric text gets none. |
| `LabelGeometry.FirstRowY` | src/Clients/Visuals/common/newDataLabelUtils.ts:77-82 | The first-row y is the box bottom, 2 higher with a background. |
| `LabelGeometry.SecondRowY` | src/Clients/Visuals/common/newDataLabelUtils.ts:112-118 | The second row sits half the box height above the first row when first-row text is defined, and on it otherwise. |
| `LabelGeometry.SecondRowNotBelowFirst` | src/Clients/Visuals/common/newDataLabelUtils.ts:108-120 | With a non-negative height, the second row is never below the first. |
| `LabelGeometry.AnimatedTextY` | src/Clients/Visuals/common/newDataLabelUtils.ts:160-162 | An animated label's y is the box bottom, whether or not it has a background. |
| `LabelGeometry.LabelBackground` | src/Clients/Visuals/common/newDataLabelUtils.ts:197-216 | The background is the box padded by 4 on the left and right and by 2 on top. It has height 0 when both texts are undefined, and otherwise extends 2 below the box. Corners are rounded by 4. |
| `LabelGeometry.FirstRowInsideBackground` | src/Clients/Visuals/common/newDataLabelUtils.ts:202-214 | A label with text and a background has its first-row baseline inside the background. |
| `LabelGeometry.BackgroundFill` | src/Clients/Visuals/common/newDataLabelUtils.ts:217 | The fill is the given colour when truthy, else black. |
| `LabelGeometry.BackgroundFillOpacity` | src/Clients/Visuals/common/newDataLabelUtils.ts:218 | The opacity is the given one when set, else 1. |
| `LabelSelectors.GetDisplayUnitValueFromAxisFormatter` | src/Clients/Visuals/common/newDataLabelUtils.ts:255-259 | A value is returned exactly when the formatter has a display unit and display units are 0. The value is that unit's. |
| `LabelSelectors.GetDataLabelLayoutOptions` | src/Clients/Visuals/common/newDataLabelUtils.ts:345-362 | Both presets move labels into the viewport. Leader lines are allowed exactly for scatter charts. Scatter uses its own offsets and the default preset uses 8 and 8. |

## Left out

- The rendering library's data join: enter, update, exit, `remove` and `interrupt`. The model stops at the filtered labels and their keys. It does not model the rule that one element exists per key, or the text, fill and text-anchor values passed straight through. The library turns keys into strings, so a positional key 3 and a text key "3" would collide there. The model keeps them apart.
- Tooltips (`<title>`) and `pointer-events` (lines 137-142): these only attach DOM content.
- The transitions of `animateDefaultLabels` (easing, duration, opacity fades). Only its filter and its y are modelled.
- `drawLabelLeaderLines`: it passes each label's point list and stroke colour to the renderer.
- `getLabelFormattedText`, `valueFormatter.create` and `formattingService` are foreign services. A created formatter is a fresh handle plus its options.
- `NumberFormat.getCustomFormatMetadata` is foreign. It is a function parameter of the cache manager and of `GetLabelPrecision`. The `debug.assertAnyValue` check at line 262 is debug-only.
- `getTextSize` and `PixelConverter` are measurement services. `FontSizeInPt` stops at the size in points.
- The cache key's exact `JSON.stringify` encoding. The key is a tuple. Serialisation collisions (NaN and Infinity both become `null`) and a `null` explicit precision, which the source returns as it is, are not modelled.
- `shapes.Rect.equals` and `shapes.Point.equals` are not part of this model. They are taken as field-wise equality, and parents of different kinds never compare equal.
- A candidate's parent type is derived from the kind of its parent shape. The source stores the two separately and could let them disagree. Valid positions and the other layout fields of a candidate do not affect duplicate removal and are omitted.
- Chart types other than scatter are merged into `NonScatter`, because the layout choice only separates scatter from the rest. The scatter offsets belong to the scatter chart and are a parameter. The default offsets are module-level variables with the value 8, modelled as constants.
- Floating point: geometry is exact `real` arithmetic.
- Module constants the modelled functions never read (label density settings, map polyline opacity, maximum label width, the percentage format, colours, text properties).
- `src/Clients/PowerBIVisualsTests/customVisuals/tornadoChartTests.ts` is not part of this model. It drives a chart visual through a DOM harness, and that visual's source is not included.

## Findings

| source | as written | input that shows it | evidently intended | confidence | as-written member | corrected member |
|---|---|---|---|---|---|---|
| src/Clients/Visuals/common/newDataLabelUtils.ts:317-336 | The text-to-anchors dictionary is a plain object literal. A text that names an inherited `Object.prototype` member finds a truthy value that is not an array. `resultsFromMap.some` then throws a TypeError. | One candidate with the text `constructor` (also `toString`, `__proto__`, `valueOf`, ...) | A dictionary of own entries only, which keeps that candidate like any other first occurrence | high; not executed | `LabelDedup.PrototypeNamedTextThrows` | `LabelDedup.RemoveDuplicates` |
