/**
 * Label geometry computed by the renderers from a label's bounding box
 * (the attribute functions of drawDefaultLabels, animateDefaultLabels and
 * drawLabelBackground).
 */
module LabelGeometry {
  import opened LabelTypes

  /** Vertical nudge of categorical text, in em; numeric labels get none. */
  const CategoricalBaselineShiftEm: real := -0.15

  /** x of a label's text: the horizontal centre of its box. */
  function TextX(box: Rect): (x: real)
    ensures x - box.left == Right(box) - x
  {
    box.left + box.width / 2.0
  }

  /** The `dy` attribute: a shift for categorical labels, none for numeric ones. */
  function TextDyEm(numeric: bool): (dy: Option<real>)
    ensures dy.None? <==> numeric
    ensures !numeric ==> dy == Some(CategoricalBaselineShiftEm)
    ensures dy.Some? ==> dy.value < 0.0
  {
    if numeric then None else Some(CategoricalBaselineShiftEm)
  }

  /** y of the first row: the bottom of the box, raised by the vertical padding when the label has a background. */
  function FirstRowY(dataLabel: Label): (y: real)
    ensures !dataLabel.hasBackground ==> y == Bottom(dataLabel.boundingBox)
    ensures dataLabel.hasBackground ==> Bottom(dataLabel.boundingBox) - y == VerticalLabelBackgroundPadding
  {
    var box := dataLabel.boundingBox;
    if dataLabel.hasBackground then box.top + box.height - VerticalLabelBackgroundPadding
    else box.top + box.height
  }

  /**
   * y of the second row: like the first row, but measured from the middle
   * of the box when the label also has first-row text.
   */
  function SecondRowY(dataLabel: Label): (y: real)
    ensures dataLabel.text.None? ==> y == FirstRowY(dataLabel)
    ensures dataLabel.text.Some? ==> FirstRowY(dataLabel) - y == dataLabel.boundingBox.height / 2.0
  {
    var box := dataLabel.boundingBox;
    var height := if dataLabel.text.Some? then box.height / 2.0 else box.height;
    if dataLabel.hasBackground then box.top + height - VerticalLabelBackgroundPadding
    else box.top + height
  }

  /** With a box of non-negative height the second row never sits below the first. */
  lemma SecondRowNotBelowFirst(dataLabel: Label)
    requires dataLabel.boundingBox.height >= 0.0
    ensures SecondRowY(dataLabel) <= FirstRowY(dataLabel)
  {
  }

  /** y of an animated label: the bottom of its box, whether or not it has a background. */
  function AnimatedTextY(box: Rect): (y: real)
    ensures y - box.top == box.height
  {
    box.top + box.height
  }

  /** A label background: a rounded rectangle. */
  datatype Background = Background(x: real, y: real, width: real, height: real, rx: real, ry: real)

  /**
   * The background of a label: its box padded by 4 horizontally and 2
   * vertically on each side, or of height 0 when the label has neither
   * first- nor second-row text.
   */
  function LabelBackground(dataLabel: Label): (r: Background)
    ensures r.x == dataLabel.boundingBox.left - HorizontalLabelBackgroundPadding
    ensures r.x + r.width == Right(dataLabel.boundingBox) + HorizontalLabelBackgroundPadding
    ensures r.y == dataLabel.boundingBox.top - VerticalLabelBackgroundPadding
    ensures dataLabel.text.None? && dataLabel.secondRowText.None? ==> r.height == 0.0
    ensures dataLabel.text.Some? || dataLabel.secondRowText.Some? ==>
              r.y + r.height == Bottom(dataLabel.boundingBox) + VerticalLabelBackgroundPadding
    ensures r.rx == LabelBackgroundRounding && r.ry == LabelBackgroundRounding
  {
    var box := dataLabel.boundingBox;
    Background(
      box.left - HorizontalLabelBackgroundPadding,
      box.top - VerticalLabelBackgroundPadding,
      box.width + 2.0 * HorizontalLabelBackgroundPadding,
      if dataLabel.text.None? && dataLabel.secondRowText.None? then 0.0 else box.height + 2.0 * VerticalLabelBackgroundPadding,
      LabelBackgroundRounding,
      LabelBackgroundRounding)
  }

  /** A label with text and a background has its first-row baseline inside the background. */
  lemma FirstRowInsideBackground(dataLabel: Label)
    requires dataLabel.hasBackground && dataLabel.text.Some? && dataLabel.boundingBox.height >= 0.0
    ensures LabelBackground(dataLabel).y <= FirstRowY(dataLabel) <= LabelBackground(dataLabel).y + LabelBackground(dataLabel).height
  {
  }

  /** Fill of the backgrounds: the given colour when truthy, else black. */
  function BackgroundFill(fill: Option<string>): (r: string)
    ensures fill.Some? && fill.value != "" ==> r == fill.value
    ensures fill.None? || fill.value == "" ==> r == "#000000"
  {
    if fill.Some? && fill.value != "" then fill.value else "#000000"
  }

  /** Fill opacity of the backgrounds: the given opacity when set, else fully opaque. */
  function BackgroundFillOpacity(fillOpacity: Option<real>): (r: real)
    ensures fillOpacity.Some? ==> r == fillOpacity.value
    ensures fillOpacity.None? ==> r == 1.0
  {
    if fillOpacity.Some? then fillOpacity.value else 1.0
  }
}
