/**
  The settings objects the PDF builders create and hand to the converter, as
  values. Only the members the builders themselves set are modelled; every
  other member keeps the value a fresh object has, which is what `None` stands
  for.
*/
module PdfSettings {
  import opened Wrappers

  datatype ColorMode = Color | Grayscale
  datatype Orientation = Portrait | Landscape
  datatype PaperKind = A3 | A4 | A5 | Letter | Legal

  datatype GlobalSettings = GlobalSettings(
    colorMode: Option<ColorMode>,
    orientation: Option<Orientation>,
    paperSize: Option<PaperKind>)

  datatype WebSettings = WebSettings(defaultEncoding: Option<string>)

  datatype ObjectSettings = ObjectSettings(webSettings: WebSettings, htmlContent: Option<string>)

  /** The document handed to the converter: the global settings and the objects to render. */
  datatype HtmlToPdfDocument = HtmlToPdfDocument(globalSettings: GlobalSettings, objects: seq<ObjectSettings>)

  /** `new GlobalSettings()`: nothing set. */
  const FreshGlobal := GlobalSettings(None, None, None)

  /** The builders' lazy default: colour, portrait, A4. */
  const DefaultGlobal := GlobalSettings(Some(Color), Some(Portrait), Some(A4))

  /** `new ObjectSettings()`: nothing set. */
  const FreshObject := ObjectSettings(WebSettings(None), None)

  /** The builders' lazy default: pages read as UTF-8. */
  const DefaultObject := ObjectSettings(WebSettings(Some("utf-8")), None)
}
