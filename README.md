# PDF size-targeting compressor, modelled in Dafny

The program shrinks a PDF by rasterising every page, re-encoding each raster as JPEG and placing the
images on the pages of a new PDF. If the saved file is still larger than the requested size in
kilobytes, it starts again from scratch with the JPEG quality lowered by ten. A small Tk form gathers
the input file, the maximum size and an output name. Before compressing, the form checks these fields
and adds a `.pdf` suffix to the name if it lacks one.

This project models four things:

- `naming.dfy` (module `Naming`): the `.pdf` suffix rule.
- `assembler.dfy` (module `Assembler`): one attempt's document. The page loop walks the source pages in
  index order. It appends one output page per source page, sized like that page's pixmap and showing
  its JPEG-encoded image.
- `controller.dfy` (module `Controller`): the retry logic of `compress_pdf`.
  - The recursive self-call becomes a `while` loop over the call's arguments (`Params`).
  - The function `Calls` is the sequence of calls one compression makes, with the quality floor.
  - The function `SourceCalls` gives the first n calls of the original, unbounded chain.
  - The output file system is a `Disk` class holding whole files by path. Each attempt saves over the
    output path.
- `form.dfy` (module `Form`): the button handler `start_compression`. It makes its checks in a fixed
  order, returns the first one that fails, and compresses only when every check passes.

The foreign libraries are the fields of the `Collaborators` record, as uninterpreted total functions:

- `open`: PyMuPDF opening the input and loading its pages.
- `render`: `get_pixmap` at a zoom.
- `encode`: the raster as JPEG, re-saved by PIL at a quality.
- `serialize`: `save`. The file size is the length of the saved bytes.

Sizes are whole bytes. The comparison with the target is made over exact reals: bytes / 1024 against
the target in kilobytes.

The source has no lower limit on quality. The model adds one: an attempt is made only at quality ≥ 1.
This changes the number of attempts and the handling of unreachable targets:

- With the floor, the attempts go q0, q0 − 10, … and stop at the first file that fits or at the
  last quality that is still ≥ 1. So there are at most ⌊(q0 − 1)/10⌋ + 1 attempts, and exactly that
  many when no quality fits: 8 from 75, and also 8 from 71 (71, 61, …, 1).
- The source accepts any target that `float` parses, including zero and negative numbers. A target
  of 0 or less is never met, so every attempt runs, down to the floor
  (`Controller.ZeroTargetIsUnreachable`).

## Model

| member | source | states |
|---|---|---|
| `Naming.NormalizeOutputName` | PDF_Compressor.py:60-61 | the result always ends with ".pdf" and starts with the input; an input already ending in ".pdf" is returned unchanged, any other grows by exactly four characters |
| `Naming.NormalizeIdempotent` | PDF_Compressor.py:60-61 | normalising an already normalised name changes nothing |
| `Naming.NormalizeAppendsSuffixOnlyWhenMissing` | PDF_Compressor.py:60-61 | the name is left unchanged exactly when it ends with ".pdf"; otherwise the result is the name followed by exactly ".pdf" |
| `Naming.NormalizeIsCaseSensitive` | PDF_Compressor.py:60 | the suffix test is case-sensitive: "scan.PDF" becomes "scan.PDF.pdf" |
| `Assembler.AssembleOnePagePerSourcePage` | PDF_Compressor.py:12-21 | the assembled document has exactly one page per source page, and its k-th page is built from the k-th source page (pages are appended in index order) |
| `Assembler.PageSizeIsPixmapSize` | PDF_Compressor.py:14-21 | each output page's width and height are those of the pixmap of its source page at the zoom factor, and it carries that page's image encoded at the attempt's quality |
| `Assembler.GeometryDoesNotDependOnQuality` | PDF_Compressor.py:12-21 | two attempts that differ only in quality build documents with the same page count and the same page sizes |
| `Assembler.BuildDocument` | PDF_Compressor.py:12-21 | the page loop returns the document of one page per source page, in order, sized like each pixmap and holding each encoded image |
| `Controller.CallsShape` | PDF_Compressor.py:26-29 | no call happens below quality 1; the k-th call has the first call's input path, output path, maximum size and zoom, and quality q0 − 10k; each retry follows a call whose file was strictly larger than the target; the last call fits or cannot be lowered; there are at most ⌊(q0 − 1)/10⌋ + 1 calls |
| `Controller.OneAttemptIffFirstFits` | PDF_Compressor.py:26-29 | exactly one attempt is made if and only if the first file fits or the first quality cannot be lowered |
| `Controller.ExactlyAtTargetIsAccepted` | PDF_Compressor.py:26-27 | a file of exactly the target size is accepted with no further attempt |
| `Controller.WorstCaseAttempts` | PDF_Compressor.py:27-29 | when no quality reaches the target, exactly ⌊(q0 − 1)/10⌋ + 1 attempts are made, the last at quality ((q0 − 1) mod 10) + 1 |
| `Controller.WorstCaseFromDefaultQuality` | PDF_Compressor.py:7-29 | from the default quality 75 an unreachable target costs eight attempts, the last at quality 5 |
| `Controller.CompressSound` | PDF_Compressor.py:7-31 | the outcome is rejected exactly when the initial quality is below 1; Done carries a size within the target; Failed carries a size still above it after all ⌊(q0 − 1)/10⌋ + 1 attempts, the last at a quality in 1..10; the reported quality and attempt count agree with the chain |
| `Controller.LastAttemptWins` | PDF_Compressor.py:23-29 | after any series of attempts saving to one path, that path holds the last attempt's file and every other file is as it was |
| `Controller.Disk.Save` | PDF_Compressor.py:23 | saving replaces the file at the path and leaves every other path unchanged |
| `Controller.Disk.GetSize` | PDF_Compressor.py:26 | the measured size is the length of the saved file |
| `Controller.RunAttempt` | PDF_Compressor.py:9-26 | one attempt writes the assembled document over the output path, changes nothing else, and measures that document's size |
| `Controller.CompressPdf` | PDF_Compressor.py:7-31 | the loop makes exactly the calls of the chain and returns the chain's outcome; the disk changes only at the output path, which holds the last attempt's file |
| `Controller.SourceNeverStopsOnUnreachableTarget` | PDF_Compressor.py:27-29 | as written, with an unreachable target, the first n calls are n calls at qualities q0 − 10k: the chain never ends and goes below quality 1 |
| `Controller.ZeroTargetIsUnreachable` | PDF_Compressor.py:26-27 | a target of zero kilobytes or less is never met, since a saved PDF is never empty |
| `Controller.SourceEncodesAtNegativeQuality` | PDF_Compressor.py:29 | as written, from quality 75 with an unreachable target, the ninth call encodes at quality −5 |
| `Controller.CallsArePrefixOfSource` | PDF_Compressor.py:27-29 | the floored chain makes exactly the first calls of the original chain |
| `Controller.SourceStopsWhereModelSucceeds` | PDF_Compressor.py:27-29 | when the floored chain ends with a file that fits, the original chain stops at the same call |
| `Form.CheckForm` | PDF_Compressor.py:40-61 | the form passes if and only if no check fails; otherwise the reported error is a failing check, and every check earlier in the order (input, empty size, unparsable size, empty name) passes; on success the request carries the chosen path, the parsed size and the normalised name |
| `Form.InputCheckedFirst` | PDF_Compressor.py:40-47 | a missing input is reported whatever else is wrong, and an empty size is reported in preference to an unparsable one |
| `Form.CompressBeforeBrowse` | PDF_Compressor.py:33-41 | pressing "Compress PDF" before "Browse" raises NameError as written, while the corrected check reports the missing input file |
| `Form.AsWrittenAgreesAfterBrowse` | PDF_Compressor.py:40-58 | once the dialog has been used, the checks as written and the corrected checks give the same verdict |
| `Form.StartCompression` | PDF_Compressor.py:39-64 | nothing is compressed and no file is written unless every check passes; then one compression runs with zoom 0.5 and quality 75, making between one and eight attempts, and its outcome is returned |
| `Naming.EndsWith` | PDF_Compressor.py:60 | definition of Python's `str.endswith`; characterised by `Naming.NormalizeAppendsSuffixOnlyWhenMissing` and `Naming.NormalizeIsCaseSensitive` |
| `Assembler.RenderPage` | PDF_Compressor.py:13-21 | definition of the page built from one source page; characterised by `Assembler.PageSizeIsPixmapSize` |
| `Assembler.Assemble` | PDF_Compressor.py:12-21 | definition of one attempt's document, its pages appended in index order; characterised by `Assembler.AssembleOnePagePerSourcePage` |
| `Controller.DefaultParams` | PDF_Compressor.py:7 | definition of the default arguments of `compress_pdf`: target 1000 KB, zoom 0.5, quality 75 |
| `Controller.Exceeds` | PDF_Compressor.py:26-27 | definition of the retry test, size in kilobytes strictly above the target; characterised by `Controller.ExactlyAtTargetIsAccepted` |
| `Controller.Lowered` | PDF_Compressor.py:29 | definition of the retry call's arguments, with only the quality lowered by 10; characterised by `Controller.CallsShape` |
| `Controller.Calls` | PDF_Compressor.py:26-29 | definition of the floored retry chain; characterised by `Controller.CallsShape`, `Controller.OneAttemptIffFirstFits` and `Controller.WorstCaseAttempts` |
| `Controller.Compress` | PDF_Compressor.py:7-31 | definition of the reported outcome of the chain; characterised by `Controller.CompressSound` |
| `Controller.SavedFiles` | PDF_Compressor.py:23 | definition of the files after a series of saves to one path; characterised by `Controller.LastAttemptWins` |
| `Controller.SourceCalls` | PDF_Compressor.py:26-29 | definition of the first n calls of the chain as written, with no floor; characterised by `Controller.SourceNeverStopsOnUnreachableTarget` and `Controller.CallsArePrefixOfSource` |
| `Form.CheckFormAsWritten` | PDF_Compressor.py:33-41 | definition of the checks as written, where an unbound `input_pdf_path` raises NameError; characterised by `Form.CompressBeforeBrowse` and `Form.AsWrittenAgreesAfterBrowse` |
| `Form.RequestParams` | PDF_Compressor.py:63 | definition of the call the handler makes: the paths and parsed size, with the default zoom and quality |
| `Controller.AttemptDocument` | PDF_Compressor.py:9-21 | definition of the document one attempt builds from the opened input; characterised by `Assembler.AssembleOnePagePerSourcePage` and `Controller.RunAttempt` |
| `Controller.AttemptSize` | PDF_Compressor.py:23-26 | definition of the size in bytes of the file one attempt saves; characterised by `Controller.CompressSound` and `Controller.RunAttempt` |
| `Controller.Retries` | PDF_Compressor.py:27 | definition of line 27's test for one call, the saved file strictly above the target; characterised by `Controller.CallsShape` and `Controller.CompressSound` |
| `Form.HasInput` | PDF_Compressor.py:40 | definition of `not input_pdf_path` failing: a path was chosen and it is not empty; characterised by `Form.CheckForm` |
| `Form.Fails` | PDF_Compressor.py:40-56 | definition of each of the four checks on its own (no input, empty size, unparsable size, empty name); characterised by `Form.CheckForm` |
| `Form.Rank` | PDF_Compressor.py:40-58 | definition of the order in which the handler makes the four checks; characterised by `Form.CheckForm` |

## Left out

- The Tk window, its widgets, the file dialog and the message boxes are not modelled. The form's field
  contents and the dialog's result are parameters of `Form.StartCompression`.
- The `print` progress messages are not modelled. These include the stale size that each outer frame
  of the recursion prints after its retry returns.
- Rendering, JPEG encoding, saving and opening belong to PyMuPDF and PIL. They are uninterpreted total
  functions, so their errors are not modelled: a corrupt input, an unsupported pixel format or an
  unwritable path.
- Encoded size is not assumed to fall as quality falls. No property proved here depends on that
  assumption.
- `float` parsing is a parameter. NaN and infinities are not represented. With NaN as the target, the
  source's comparison is always false, so it would stop after one attempt.
- `os.path.getsize(...) / 1024` is exact real division of whole bytes. Floating-point rounding is not
  modelled.
- The source reopens the input on every attempt and never closes it. The new document is closed after
  saving. Neither is modelled.
- The source pages come from `open(inputPath)`, which the model's saves do not affect. If the output
  path equals the input path, the source's later attempts would reopen the file that the previous
  attempt overwrote. That case is not modelled.
- Measuring the same file twice gives the same size because sizes are functions of the saved bytes.
  This is not stated as a separate lemma.
- Controller.CompressPdf: adds a quality floor that the source does not have. An attempt is made only
  at quality ≥ 1. A call whose file is too large and whose quality cannot be lowered without going
  below 1 ends in `Failed`. An initial quality below 1 is reported as `QualityOutOfRange`. The source
  is modelled as written by `Controller.SourceCalls`.
- Controller.CompressSound: `Failed` reports the size of the last attempt's file, which is the file
  left on disk. This is not necessarily the smallest size achieved.
- Form.CheckForm: treats "no file chosen yet" like a cancelled dialog. As written, the source raises
  NameError in that case (see Findings).
- Quality values above 100 are passed to the encoder unchecked, as the source does.

## Findings

| source | as written | input that shows it | evidently intended | confidence | as-written member | corrected member |
|---|---|---|---|---|---|---|
| PDF_Compressor.py:27-29 | a too-large file always triggers a retry at quality − 10, with no lower bound | a maximum size of 0 KB, which no saved PDF meets: the calls go 75, 65, …, 5, −5, −15, …, encoding at non-positive quality from the ninth call; that the chain then runs on until Python's recursion limit is an inference, since it assumes the JPEG encoder accepts such a quality without raising | some lower bound on quality; the model stops at 1 and reports Failed | high for the unbounded chain, inferred for what the encoder does; not executed | `Controller.SourceEncodesAtNegativeQuality` | `Controller.WorstCaseAttempts` |
| PDF_Compressor.py:34-40 | `not input_pdf_path` reads a global that only `select_input_file` creates | pressing "Compress PDF" before ever pressing "Browse": the handler raises NameError and shows no message | show "Please select an input PDF file." | high; not executed | `Form.CompressBeforeBrowse` | `Form.CheckForm` |
