/**
 * The page canvas a web part is placed on: sections, columns and the default web part kinds.
 * These types belong to the page model around PageWebPart (CanvasControl, CanvasSection,
 * CanvasColumn, Page); only the members PageWebPart reads are kept.
 */
module Canvas {
  import opened Wrappers

  /** CanvasSectionTemplate; the templates PageWebPart does not test are one constructor. */
  datatype SectionTemplate = OneColumnFullWidth | OneColumnVerticalSection | OtherTemplate

  /** The members of a canvas column that a web part reads while rendering. */
  datatype CanvasColumn = CanvasColumn(
    order: int,
    columnFactor: int,
    layoutIndex: int,
    verticalSectionEmphasis: Option<int>)  // int?: null unless the column is a vertical section

  /** The members of a canvas section that a web part reads while rendering. */
  datatype CanvasSection = CanvasSection(
    template: SectionTemplate,
    order: int,
    zoneEmphasis: int,
    columns: seq<CanvasColumn>)

  /** DefaultWebPart, as far as the data-version table distinguishes its values. */
  datatype DefaultWebPart = Image | ImageGallery | People | DocumentEmbed | ContentRollup | QuickLinks | OtherWebPart

  /** The float ControlIndex of a control's position, carried through by its bit pattern. */
  datatype ControlIndex = ControlIndex(bits: bv32)

  /** Attribute names of the canvas control markup that PageWebPart inherits from CanvasControl. */
  const CanvasControlAttribute: string := "data-sp-canvascontrol"
  const CanvasDataVersionAttribute: string := "data-sp-canvasdataversion"
  const ControlDataAttribute: string := "data-sp-controldata"

  /**
   * The part of a control's state kept by the CanvasControl base class: what its constructor
   * leaves, and Section/Column once the control is placed (None while it is not on a page).
   */
  datatype CanvasControlState = CanvasControlState(
    dataVersion: NString,
    canvasDataVersion: NString,
    canvasControlData: string,
    jsonControlData: NString,
    instanceId: string,  // InstanceId.ToString("D")
    section: Option<CanvasSection>,
    column: Option<CanvasColumn>)
}
