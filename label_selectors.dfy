/**
 * Small selectors of the data-label utilities:
 * getDisplayUnitValueFromAxisFormatter and getDataLabelLayoutOptions.
 */
module LabelSelectors {
  import opened LabelTypes

  /** A display unit of an axis formatter (thousands, millions, ...), by its scale value. */
  datatype DisplayUnit = DisplayUnit(value: real)

  /** An axis formatter, of which only the display unit is read. */
  datatype AxisFormatter = AxisFormatter(displayUnit: Option<DisplayUnit>)

  /**
   * getDisplayUnitValueFromAxisFormatter: the axis formatter's display-unit
   * value when there is one and the labels ask for automatic units
   * (displayUnits is 0); otherwise nothing.
   */
  function GetDisplayUnitValueFromAxisFormatter(axisFormatter: Option<AxisFormatter>, labelSettings: LabelSettings)
    : (r: Option<real>)
    ensures r.Some? <==> axisFormatter.Some? && axisFormatter.value.displayUnit.Some? && labelSettings.displayUnits == 0.0
    ensures r.Some? ==> r.value == axisFormatter.value.displayUnit.value.value
  {
    if axisFormatter.Some? && axisFormatter.value.displayUnit.Some? && labelSettings.displayUnits == 0.0 then
      Some(axisFormatter.value.displayUnit.value.value)
    else None
  }

  /** The chart kinds the layout preset is chosen by: scatter charts and all others. */
  datatype CartesianChartType = Scatter | NonScatter

  /** The scatter chart's own layout constants. */
  datatype ScatterLayoutConstants = ScatterLayoutConstants(maximumOffset: real, startingOffset: real, offsetIterationDelta: real)

  /** A label layout configuration; absent fields are left to the layout engine's defaults. */
  datatype DataLabelLayoutOptions = DataLabelLayoutOptions(
    maximumOffset: real,
    startingOffset: real,
    offsetIterationDelta: Option<real>,
    allowLeaderLines: Option<bool>,
    attemptToMoveLabelsIntoViewport: bool)

  /** Leader lines are allowed only when the option is set to true. */
  predicate AllowsLeaderLines(options: DataLabelLayoutOptions)
  {
    options.allowLeaderLines == Some(true)
  }

  /**
   * getDataLabelLayoutOptions: the scatter preset (its own offsets, leader
   * lines allowed) or the default preset (offsets of 8, no leader lines);
   * both try to move labels into the viewport.
   */
  function GetDataLabelLayoutOptions(chartType: CartesianChartType, scatter: ScatterLayoutConstants)
    : (r: DataLabelLayoutOptions)
    ensures r.attemptToMoveLabelsIntoViewport
    ensures AllowsLeaderLines(r) <==> chartType == Scatter
    ensures chartType == Scatter ==>
              && r.maximumOffset == scatter.maximumOffset
              && r.startingOffset == scatter.startingOffset
              && r.offsetIterationDelta == Some(scatter.offsetIterationDelta)
    ensures chartType != Scatter ==>
              && r.maximumOffset == MaxLabelOffset
              && r.startingOffset == StartingLabelOffset
              && r.offsetIterationDelta.None?
              && r.allowLeaderLines.None?
  {
    match chartType
    case Scatter =>
      DataLabelLayoutOptions(scatter.maximumOffset, scatter.startingOffset, Some(scatter.offsetIterationDelta), Some(true), true)
    case NonScatter =>
      DataLabelLayoutOptions(MaxLabelOffset, StartingLabelOffset, None, None, true)
  }
}
