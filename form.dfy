/** `start_compression`, the handler of the "Compress PDF" button: it checks the form in a fixed order,
    stopping at the first problem, normalises the output name and then runs the compression with the
    default zoom and quality. The widgets are not modelled; their contents are parameters. */
module Form {
  import opened Wrappers
  import opened Naming
  import opened Assembler
  import opened Controller

  /** What the "Browse" button has left in the global `input_pdf_path`: no such variable at all before
      the dialog was first used, and afterwards the chosen path (empty when the dialog was cancelled). */
  datatype Selection = NeverSelected | Selected(path: string)

  /** The four error message boxes, one per check. */
  datatype FormError = NoInputFile | NoMaxSize | InvalidMaxSize | NoOutputName

  /** The position of each check in the order the handler makes them. */
  function Rank(e: FormError): nat {
    match e
    case NoInputFile => 0
    case NoMaxSize => 1
    case InvalidMaxSize => 2
    case NoOutputName => 3
  }

  predicate HasInput(sel: Selection) {
    sel.Selected? && sel.path != []
  }

  /** Whether one check, taken on its own, fails. `parse` stands for Python's `float` on the text of the
      size field (None where it raises ValueError). */
  predicate Fails(e: FormError, sel: Selection, maxSizeText: string, outputName: string, parse: string -> Option<real>) {
    match e
    case NoInputFile => !HasInput(sel)
    case NoMaxSize => maxSizeText == []
    case InvalidMaxSize => parse(maxSizeText).None?
    case NoOutputName => outputName == []
  }

  /** What a form that passes its checks hands to the compressor. */
  datatype Request = Request(inputPath: string, outputPath: string, maxSizeKb: real)

  /** The checks of `start_compression`, with "no file chosen yet" reported like an empty choice. */
  function CheckForm(sel: Selection, maxSizeText: string, outputName: string, parse: string -> Option<real>): (r: Result<Request, FormError>)
    ensures r.Success? <==> forall e :: !Fails(e, sel, maxSizeText, outputName, parse)
    ensures r.Failure? ==>
              Fails(r.error, sel, maxSizeText, outputName, parse) &&
              forall e :: Rank(e) < Rank(r.error) ==> !Fails(e, sel, maxSizeText, outputName, parse)
    ensures r.Success? ==>
              HasInput(sel) && parse(maxSizeText).Some? &&
              r.value == Request(sel.path, NormalizeOutputName(outputName), parse(maxSizeText).value)
  {
    if !HasInput(sel) then
      assert Fails(NoInputFile, sel, maxSizeText, outputName, parse);
      Failure(NoInputFile)
    else if maxSizeText == [] then
      assert Fails(NoMaxSize, sel, maxSizeText, outputName, parse);
      Failure(NoMaxSize)
    else if parse(maxSizeText).None? then
      assert Fails(InvalidMaxSize, sel, maxSizeText, outputName, parse);
      Failure(InvalidMaxSize)
    else if outputName == [] then
      assert Fails(NoOutputName, sel, maxSizeText, outputName, parse);
      Failure(NoOutputName)
    else Success(Request(sel.path, NormalizeOutputName(outputName), parse(maxSizeText).value))
  }

  /** A missing input is reported whatever else is wrong with the form, and an empty size field is
      reported rather than its failing to parse. */
  lemma InputCheckedFirst(sel: Selection, maxSizeText: string, outputName: string, parse: string -> Option<real>)
    ensures !HasInput(sel) ==> CheckForm(sel, maxSizeText, outputName, parse) == Failure(NoInputFile)
    ensures HasInput(sel) && maxSizeText == [] ==> CheckForm(sel, maxSizeText, outputName, parse) == Failure(NoMaxSize)
  {
  }

  /** How the handler as written ends: it goes on to compress, shows an error box, or stops with an
      uncaught NameError. */
  datatype Verdict = Proceed(request: Request) | Rejected(error: FormError) | NameError

  /** The checks as written: `not input_pdf_path` reads a global that only `select_input_file`
      creates, so before the first use of "Browse" the handler dies instead of showing its error box. */
  function CheckFormAsWritten(sel: Selection, maxSizeText: string, outputName: string, parse: string -> Option<real>): Verdict {
    if sel.NeverSelected? then NameError
    else
      match CheckForm(sel, maxSizeText, outputName, parse)
      case Success(req) => Proceed(req)
      case Failure(e) => Rejected(e)
  }

  /** The discrepancy: pressing "Compress PDF" before "Browse" raises NameError in the handler as
      written, where the corrected check reports the missing input file. */
  lemma CompressBeforeBrowse(maxSizeText: string, outputName: string, parse: string -> Option<real>)
    ensures CheckFormAsWritten(NeverSelected, maxSizeText, outputName, parse) == NameError
    ensures CheckForm(NeverSelected, maxSizeText, outputName, parse) == Failure(NoInputFile)
  {
  }

  /** Once a file has been chosen (or the dialog cancelled) the two agree. */
  lemma AsWrittenAgreesAfterBrowse(sel: Selection, maxSizeText: string, outputName: string, parse: string -> Option<real>)
    requires sel.Selected?
    ensures var v := CheckFormAsWritten(sel, maxSizeText, outputName, parse);
            var r := CheckForm(sel, maxSizeText, outputName, parse);
            (v.Proceed? <==> r.Success?) &&
            (v.Proceed? ==> v.request == r.value) &&
            (v.Rejected? ==> r == Failure(v.error))
  {
  }

  /** The handler passes the paths and the size, and leaves zoom and quality at their defaults. */
  function RequestParams(req: Request): Params {
    DefaultParams(req.inputPath, req.outputPath).(maxSizeKb := req.maxSizeKb)
  }

  /** The button handler: nothing is compressed, and no file written, unless every check passes; then
      one compression runs from quality 75, making at most eight attempts. */
  method StartCompression(disk: Disk, lib: Collaborators, sel: Selection, maxSizeText: string, outputName: string,
                          parse: string -> Option<real>) returns (r: Result<Outcome, FormError>)
    modifies disk
    ensures var checked := CheckForm(sel, maxSizeText, outputName, parse);
            checked.Failure? ==> r == Failure(checked.error) && disk.files == old(disk.files)
    ensures var checked := CheckForm(sel, maxSizeText, outputName, parse);
            checked.Success? ==>
              var p := RequestParams(checked.value);
              r == Success(Compress(lib, p)) &&
              disk.files == SavedFiles(lib, old(disk.files), p.outputPath, Calls(lib, p))
    ensures r.Success? ==> (r.value.Done? || r.value.Failed?) && 1 <= r.value.attempts <= 8
  {
    var checked := CheckForm(sel, maxSizeText, outputName, parse);
    if checked.Failure? {
      r := Failure(checked.error);
      return;
    }
    var p := RequestParams(checked.value);
    var outcome, calls := CompressPdf(disk, lib, p);
    CompressSound(lib, p);
    r := Success(outcome);
  }
}
