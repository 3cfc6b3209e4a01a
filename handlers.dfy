/**
 * The format handlers of the extraction engine. The libraries they call
 * (file reading, csv, json, the XML parser, zipfile, tarfile, PyPDF2, Pillow,
 * BeautifulSoup, openpyxl) are not modelled: what each would return or raise
 * for a file is part of that file's `FileData`.
 */
module Handlers {
  import opened Common
  import opened JsonValue
  import opened Paths
  import Xml
  import Archives

  /** The Python exception classes that matter to the handlers' `except` clauses. */
  datatype ExcKind =
    | OSError            // IOError is an alias of OSError
    | UnicodeDecodeError
    | CsvError
    | JSONDecodeError
    | XmlParseError
    | BadZipFile
    | TarError
    | KeyError           // `TarFile.getmember` finding no member
    | ImportError
    | ValueError
    | OtherError

  /** A raised exception: its class and `str(e)`. */
  datatype Exc = Exc(kind: ExcKind, message: string)

  datatype CsvTable = CsvTable(headers: Option<seq<string>>, rows: seq<seq<(string, Json)>>)
  datatype ImageInfo = ImageInfo(format: string, mode: string, width: nat, height: nat, base64: string)
  datatype Link = Link(href: Option<string>, text: string)
  datatype HtmlDoc = HtmlDoc(title: Option<string>, text: string, links: seq<Link>)
  type Sheets = seq<(string, seq<seq<Json>>)>

  /** What each library call would produce, or raise, for one file. */
  datatype FileData = FileData(
    text: Result<string, Exc>,                     // open(..., encoding="utf-8").read()
    csv: Result<CsvTable, Exc>,                    // csv.DictReader over the file
    pdf: Result<seq<string>, Exc>,                 // PyPDF2: extract_text() of each page
    image: Result<ImageInfo, Exc>,                 // Pillow: open, re-encode, base64
    json: Result<Json, Exc>,                       // json.load
    xml: Result<Xml.Element, Exc>,                 // ET.parse(...).getroot()
    zip: Result<seq<Archives.ZipMember>, Exc>,     // zipfile.ZipFile and its entries
    tar: Result<seq<Archives.TarMember>, Exc>,     // tarfile.open(..., 'r:*') and its members
    html: Result<HtmlDoc, Exc>,                    // BeautifulSoup(..., 'html.parser')
    excel: Result<Sheets, Exc>)                    // openpyxl.load_workbook: cell values per sheet

  datatype ArchiveKind = ZipArchive | TarArchive

  /**
   * The dict a handler returns. Every variant but `ErrorRecord` is a success
   * payload; `ErrorRecord` carries only the `type` tag and the `error` string.
   */
  datatype Record =
    | TextRecord(content: string)
    | CsvRecord(headers: Option<seq<string>>, rows: seq<seq<(string, Json)>>)
    | PdfRecord(pdfText: string, numPages: nat)
    | ImageRecord(format: string, mode: string, width: nat, height: nat, base64: string)
    | JsonRecord(json: Json)
    | XmlRecord(xml: Json)
    | ArchiveRecord(archive: ArchiveKind, fileList: seq<string>, members: map<string, string>)
    | HtmlRecord(title: Option<string>, pageText: string, links: seq<Link>)
    | ExcelRecord(sheets: Sheets)
    | ErrorRecord(tag: string, error: string)

  /** The record's `"type"` field. */
  function Tag(r: Record): string {
    match r
    case TextRecord(_) => "text"
    case CsvRecord(_, _) => "csv"
    case PdfRecord(_, _) => "pdf"
    case ImageRecord(_, _, _, _, _) => "image"
    case JsonRecord(_) => "json"
    case XmlRecord(_) => "xml"
    case ArchiveRecord(k, _, _) => if k == ZipArchive then "zip" else "tar"
    case HtmlRecord(_, _, _) => "html"
    case ExcelRecord(_) => "excel"
    case ErrorRecord(t, _) => t
  }

  /** The handler classes of the source. */
  datatype Kind = TextKind | CsvKind | PdfKind | ImageKind | JsonKind | XmlKind | ZipKind | TarKind | HtmlKind | ExcelKind

  function KindTag(k: Kind): string {
    match k
    case TextKind => "text"
    case CsvKind => "csv"
    case PdfKind => "pdf"
    case ImageKind => "image"
    case JsonKind => "json"
    case XmlKind => "xml"
    case ZipKind => "zip"
    case TarKind => "tar"
    case HtmlKind => "html"
    case ExcelKind => "excel"
  }

  /** Whether the handler's `except` clauses catch an exception of this class. */
  predicate Catches(k: Kind, e: ExcKind) {
    match k
    case TextKind => e == OSError
    case CsvKind => e == OSError
    case JsonKind => e == JSONDecodeError
    case XmlKind => e == XmlParseError
    case ZipKind => e == BadZipFile
    case TarKind => e == TarError
    case _ => true   // PDF, image, HTML and Excel catch every Exception
  }

  /** The message of the error record a caught exception becomes. */
  function CaughtMessage(k: Kind, e: Exc): string {
    if e.kind == ImportError then
      match k
      case PdfKind => "PyPDF2 module not found"
      case ImageKind => "Pillow module not found"
      case HtmlKind => "BeautifulSoup module not found"
      case ExcelKind => "openpyxl module not found"
      case _ => e.message
    else e.message
  }

  /** `text += page.extract_text() + "\n"` over the pages. */
  function PdfText(pages: seq<string>): string {
    if pages == [] then "" else PdfText(pages[..|pages| - 1]) + pages[|pages| - 1] + "\n"
  }

  /**
   * The handler's library call: the success record it builds from what the
   * library returned, or the exception the library raised.
   */
  function Call(k: Kind, d: FileData): Result<Record, Exc> {
    match k
    case TextKind => if d.text.Success? then Success(TextRecord(d.text.value)) else Failure(d.text.error)
    case CsvKind => if d.csv.Success? then Success(CsvRecord(d.csv.value.headers, d.csv.value.rows)) else Failure(d.csv.error)
    case PdfKind => if d.pdf.Success? then Success(PdfRecord(PdfText(d.pdf.value), |d.pdf.value|)) else Failure(d.pdf.error)
    case ImageKind =>
      if d.image.Success? then
        var i := d.image.value;
        Success(ImageRecord(i.format, i.mode, i.width, i.height, i.base64))
      else Failure(d.image.error)
    case JsonKind => if d.json.Success? then Success(JsonRecord(d.json.value)) else Failure(d.json.error)
    case XmlKind => if d.xml.Success? then Success(XmlRecord(JObject(Xml.ElementDict(d.xml.value)))) else Failure(d.xml.error)
    case ZipKind =>
      if d.zip.Success? then
        Success(ArchiveRecord(ZipArchive, Archives.Names(d.zip.value, Archives.ZipName), Archives.ZipContent(d.zip.value)))
      else Failure(d.zip.error)
    case TarKind =>
      if d.tar.Success? then TarCall(d.tar.value) else Failure(d.tar.error)
    case HtmlKind =>
      if d.html.Success? then Success(HtmlRecord(d.html.value.title, d.html.value.text, d.html.value.links))
      else Failure(d.html.error)
    case ExcelKind => if d.excel.Success? then Success(ExcelRecord(d.excel.value)) else Failure(d.excel.error)
  }

  /** The TAR handler's `try` body over an opened archive: `getmember` raises `KeyError` for a name it cannot find. */
  function TarCall(ms: seq<Archives.TarMember>): (r: Result<Record, Exc>)
    ensures r.Failure? ==> r.error.kind == KeyError
  {
    var names := Archives.Names(ms, Archives.TarName);
    var content := Archives.TarSelection(ms, names);
    if content.Failure? then Failure(Exc(KeyError, "filename '" + content.error + "' not found"))
    else Success(ArchiveRecord(TarArchive, names, content.value))
  }

  /** The exception the handler's library call raised, when it did not return. */
  function Raised(k: Kind, d: FileData): Option<Exc> {
    if Call(k, d).Failure? then Some(Call(k, d).error) else None
  }

  /**
   * `extract_data` of a built-in handler: the success record; or, when the
   * library raised an exception the handler catches, an error record with the
   * handler's tag; or else the exception itself, propagating to the caller.
   */
  function Extract(k: Kind, d: FileData): (r: Result<Record, Exc>)
    ensures r.Success? ==> Tag(r.value) == KindTag(k)
    ensures r.Success? && r.value.ErrorRecord? <==> Raised(k, d).Some? && Catches(k, Raised(k, d).value.kind)
    ensures r.Failure? <==> Raised(k, d).Some? && !Catches(k, Raised(k, d).value.kind)
    ensures r.Failure? ==> r.error == Raised(k, d).value
  {
    var c := Call(k, d);
    if c.Success? then c
    else if Catches(k, c.error.kind) then Success(ErrorRecord(KindTag(k), CaughtMessage(k, c.error)))
    else c
  }

  /** The PDF, image, HTML and Excel handlers catch every exception, so they never raise. */
  lemma CatchAllHandlersNeverRaise(k: Kind, d: FileData)
    requires k in {PdfKind, ImageKind, HtmlKind, ExcelKind}
    ensures Extract(k, d).Success?
  {
  }

  /**
   * A TAR member name that `getmember` cannot find raises `KeyError`, which
   * the TAR handler does not catch: the exception leaves `extract_data`.
   */
  lemma TarLookupEscapes(d: FileData)
    requires d.tar.Success?
    requires Archives.TarSelection(d.tar.value, Archives.Names(d.tar.value, Archives.TarName)).Failure?
    ensures Extract(TarKind, d).Failure? && Extract(TarKind, d).error.kind == KeyError
  {
    assert TarCall(d.tar.value).Failure?;
  }

  /** A handler in the table: a built-in one, or one registered by the caller. */
  datatype Handler =
    | Builtin(kind: Kind)
    | Custom(run: (Path, FileData) -> Result<Record, Exc>)

  /** `handler.extract_data(file_path)`. */
  function Run(h: Handler, p: Path, d: FileData): Result<Record, Exc> {
    match h
    case Builtin(k) => Extract(k, d)
    case Custom(run) => run(p, d)
  }
}
