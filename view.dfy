/** What a cell shows: a background, an optional media overlay and lines of text. */
module View {

  /** The background colour of a cell: `transparent`, the theme colour
      `var(--primary-color)`, or a literal colour string. */
  datatype Background = Transparent | Primary | Color(color: string)

  /** The media artwork layer: hidden, or shown with an image URL. */
  datatype Overlay = Hidden | Shown(url: string)

  /** One line of text and whether it is visible. */
  datatype TextLine = TextLine(text: string, visible: bool)

  /** The suffix of a temperature readout. */
  const Degree := "°"
}
