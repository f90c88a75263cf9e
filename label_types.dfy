/**
 * Shared value types and constants of the data-label utilities
 * (NewDataLabelUtils): labels as the renderers receive them, the
 * rectangles and points their geometry is made of, and the fixed paddings.
 */
module LabelTypes {

  /** A value that may be absent (`undefined` in the source). */
  datatype Option<+T> = None | Some(value: T)

  /** An axis-aligned rectangle (the source's IRect). */
  datatype Rect = Rect(left: real, top: real, width: real, height: real)

  /** A point (the source's IPoint). */
  datatype Point = Point(x: real, y: real)

  /** The identity a label may carry; only its highlight-free key is used here. */
  datatype Identity = Identity(keyWithoutHighlight: string)

  /**
   * A label view-model: its bounding box, first- and second-row text,
   * visibility and background flags, and the optional key and identity
   * the renderers join on.
   */
  datatype Label = Label(
    boundingBox: Rect,
    text: Option<string>,
    secondRowText: Option<string>,
    isVisible: bool,
    hasBackground: bool,
    key: Option<string>,
    identity: Option<Identity>,
    fontSize: Option<real>,
    fill: string,
    tooltip: Option<string>)

  /**
   * The data-label settings read here: the display units (0 asks for
   * automatic units) and an optional explicit precision.
   */
  datatype LabelSettings = LabelSettings(displayUnits: real, precision: Option<int>)

  /** Font size of a label without one of its own, in points. */
  const DefaultLabelFontSizeInPt: real := 9.0

  /** Horizontal padding between a label's box and its background. */
  const HorizontalLabelBackgroundPadding: real := 4.0

  /** Vertical padding between a label's box and its background. */
  const VerticalLabelBackgroundPadding: real := 2.0

  /** Corner radius of a label background. */
  const LabelBackgroundRounding: real := 4.0

  /** Pixel offsets used by the default label layout preset. */
  const MaxLabelOffset: real := 8.0
  const StartingLabelOffset: real := 8.0

  /** Right edge and bottom edge of a rectangle. */
  function Right(r: Rect): real { r.left + r.width }
  function Bottom(r: Rect): real { r.top + r.height }
}
