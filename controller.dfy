/** The size-targeting retry of `compress_pdf`: one attempt builds and saves the whole document at the
    current JPEG quality; while the saved file is larger than the target, the whole attempt is repeated
    with the quality lowered by ten. The model adds a quality floor that the original lacks. */
module Controller {
  import opened Assembler

  // The retry's quality step is written as the literal 10: behind a named constant, the products
  // 10 * k in the contracts below would be nonlinear arithmetic for the solver.
  const DefaultMaxSizeKb: real := 1000.0
  const DefaultZoom: real := 0.5
  const DefaultQuality: int := 75

  /** The arguments of one call of `compress_pdf`. */
  datatype Params = Params(inputPath: string, outputPath: string, maxSizeKb: real, zoom: real, quality: int)

  /** A call of `compress_pdf` that passes only the two paths gets the default target, zoom and quality. */
  function DefaultParams(inputPath: string, outputPath: string): Params {
    Params(inputPath, outputPath, DefaultMaxSizeKb, DefaultZoom, DefaultQuality)
  }

  /** The document one attempt builds from the input file. */
  function AttemptDocument(lib: Collaborators, p: Params): Document {
    Assemble(lib, lib.open(p.inputPath), p.zoom, p.quality)
  }

  /** The size in bytes of the file one attempt saves. */
  function AttemptSize(lib: Collaborators, p: Params): nat {
    |lib.serialize(AttemptDocument(lib, p))|
  }

  /** The retry test: the size in kilobytes (bytes / 1024) is strictly above the target. */
  predicate Exceeds(sizeBytes: nat, maxSizeKb: real) {
    (sizeBytes as real) / 1024.0 > maxSizeKb
  }

  predicate Retries(lib: Collaborators, p: Params) {
    Exceeds(AttemptSize(lib, p), p.maxSizeKb)
  }

  /** The arguments of the retry call: everything is passed on, the quality is ten lower. */
  function Lowered(p: Params): Params {
    p.(quality := p.quality - 10)
  }

  /** The calls of `compress_pdf` one compression makes, in order, when no attempt is made below
      quality 1: a call fits and ends the chain, or it is too large and the lowered call follows. */
  function Calls(lib: Collaborators, p: Params): seq<Params>
    decreases if p.quality < 1 then 0 else p.quality
  {
    if p.quality < 1 then []
    else if !Retries(lib, p) then [p]
    else [p] + Calls(lib, Lowered(p))
  }

  /** The shape of the retry chain: the k-th call differs from the first only in its quality, which is
      lower by exactly 10 * k and never below 1; every call but the last was too large; the last one
      fits or could not be lowered without going below 1; and there are at most (q0 - 1) / 10 + 1. */
  lemma {:induction false} CallsShape(lib: Collaborators, p: Params)
    decreases if p.quality < 1 then 0 else p.quality
    ensures Calls(lib, p) == [] <==> p.quality < 1
    ensures |Calls(lib, p)| <= if p.quality < 1 then 0 else (p.quality - 1) / 10 + 1
    ensures forall k :: 0 <= k < |Calls(lib, p)| ==>
              Calls(lib, p)[k] == p.(quality := p.quality - 10 * k) && Calls(lib, p)[k].quality >= 1
    ensures forall k :: 0 <= k < |Calls(lib, p)| - 1 ==>
              Retries(lib, Calls(lib, p)[k]) && Calls(lib, p)[k + 1] == Lowered(Calls(lib, p)[k])
    ensures Calls(lib, p) != [] ==>
              var last := Calls(lib, p)[|Calls(lib, p)| - 1];
              !Retries(lib, last) || last.quality <= 10
  {
    if p.quality >= 1 && Retries(lib, p) {
      var rest := Lowered(p);
      CallsShape(lib, rest);
      var cs := Calls(lib, p);
      assert cs == [p] + Calls(lib, rest);
      forall k | 0 <= k < |cs|
        ensures cs[k] == p.(quality := p.quality - 10 * k) && cs[k].quality >= 1
      {
        if k > 0 {
          assert cs[k] == Calls(lib, rest)[k - 1];
        }
      }
    }
  }

  /** Exactly one attempt is made when the first file fits (or the first quality cannot be lowered);
      otherwise at least two. */
  lemma OneAttemptIffFirstFits(lib: Collaborators, p: Params)
    requires p.quality >= 1
    ensures |Calls(lib, p)| == 1 <==> !Retries(lib, p) || p.quality <= 10
  {
    if Retries(lib, p) && p.quality > 10 {
      CallsShape(lib, Lowered(p));
    }
  }

  /** The comparison is strict: a file of exactly the target size is accepted on the first attempt. */
  lemma ExactlyAtTargetIsAccepted(lib: Collaborators, p: Params)
    requires p.quality >= 1
    requires AttemptSize(lib, p) as real == 1024.0 * p.maxSizeKb
    ensures Calls(lib, p) == [p]
  {
  }

  /** When no quality reaches the target, the chain runs to the floor: (q0 - 1) / 10 + 1 attempts,
      the last at the only quality in 1..10 of the chain. */
  lemma {:induction false} WorstCaseAttempts(lib: Collaborators, p: Params)
    requires p.quality >= 1
    requires forall q :: 1 <= q <= p.quality ==> Retries(lib, p.(quality := q))
    decreases p.quality
    ensures |Calls(lib, p)| == (p.quality - 1) / 10 + 1
    ensures Calls(lib, p)[|Calls(lib, p)| - 1].quality == (p.quality - 1) % 10 + 1
  {
    assert Retries(lib, p.(quality := p.quality));
    assert p.(quality := p.quality) == p;
    var rest := Lowered(p);
    if rest.quality >= 1 {
      forall q | 1 <= q <= rest.quality
        ensures Retries(lib, rest.(quality := q))
      {
        assert rest.(quality := q) == p.(quality := q);
      }
      WorstCaseAttempts(lib, rest);
    }
  }

  /** From the default quality 75, an unreachable target costs eight attempts, the last at quality 5. */
  lemma WorstCaseFromDefaultQuality(lib: Collaborators, p: Params)
    requires p.quality == DefaultQuality
    requires forall q :: 1 <= q <= p.quality ==> Retries(lib, p.(quality := q))
    ensures |Calls(lib, p)| == 8
    ensures Calls(lib, p)[7].quality == 5
  {
    WorstCaseAttempts(lib, p);
  }

  /** How one compression ends, as reported: the last attempt's quality, the size of the file it left,
      and the number of attempts. */
  datatype Outcome =
    | Done(quality: int, sizeBytes: nat, attempts: nat)
    | Failed(quality: int, sizeBytes: nat, attempts: nat)
    | QualityOutOfRange(quality: int)

  /** The outcome of the retry chain `Calls(lib, p)`. */
  function Compress(lib: Collaborators, p: Params): Outcome {
    var cs := Calls(lib, p);
    if cs == [] then QualityOutOfRange(p.quality)
    else
      var last := cs[|cs| - 1];
      var size := AttemptSize(lib, last);
      if Exceeds(size, p.maxSizeKb) then Failed(last.quality, size, |cs|)
      else Done(last.quality, size, |cs|)
  }

  /** What a compression reports: it is rejected exactly when the initial quality is below 1; it is
      done only with a file within the target, after at most (q0 - 1) / 10 + 1 attempts; it fails only
      after every one of those (q0 - 1) / 10 + 1 attempts, the last at a quality in 1..10 whose
      file is still too large. The reported size is that of the last attempt's file. */
  lemma CompressSound(lib: Collaborators, p: Params)
    ensures Compress(lib, p).QualityOutOfRange? <==> p.quality < 1
    ensures var o := Compress(lib, p);
            o.Done? ==>
              !Exceeds(o.sizeBytes, p.maxSizeKb) &&
              1 <= o.attempts <= (p.quality - 1) / 10 + 1 &&
              o.quality == p.quality - 10 * (o.attempts - 1) && o.quality >= 1 &&
              o.sizeBytes == AttemptSize(lib, p.(quality := o.quality))
    ensures var o := Compress(lib, p);
            o.Failed? ==>
              Exceeds(o.sizeBytes, p.maxSizeKb) &&
              o.attempts == (p.quality - 1) / 10 + 1 &&
              o.quality == p.quality - 10 * (o.attempts - 1) && 1 <= o.quality <= 10 &&
              o.sizeBytes == AttemptSize(lib, p.(quality := o.quality))
  {
    CallsShape(lib, p);
  }

  /** One step of the chain: a call that fits is the last one; a call that is too large is followed
      by the lowered call. */
  lemma CallsStep(lib: Collaborators, p: Params)
    requires p.quality >= 1
    ensures !Retries(lib, p) ==> Calls(lib, p) == [p]
    ensures Retries(lib, p) ==> Calls(lib, p) == [p] + Calls(lib, Lowered(p))
  {
  }

  /** Compress reports the last call of the chain, with the size of the file that call saved. */
  lemma CompressReportsLastCall(lib: Collaborators, p: Params, current: Params)
    requires Calls(lib, p) != [] && Calls(lib, p)[|Calls(lib, p)| - 1] == current
    requires current.maxSizeKb == p.maxSizeKb
    ensures Compress(lib, p) ==
              if Exceeds(AttemptSize(lib, current), p.maxSizeKb)
              then Failed(current.quality, AttemptSize(lib, current), |Calls(lib, p)|)
              else Done(current.quality, AttemptSize(lib, current), |Calls(lib, p)|)
  {
  }

  /** The file system, as far as the compressor touches it: whole files by path. */
  class Disk {
    var files: map<string, seq<bv8>>

    /** Writes a file, replacing whatever was at that path. */
    method Save(path: string, bytes: seq<bv8>)
      modifies this
      ensures files == old(files)[path := bytes]
    {
      files := files[path := bytes];
    }

    /** The size in bytes of the file at a path. */
    method GetSize(path: string) returns (size: nat)
      requires path in files
      ensures size == |files[path]|
    {
      size := |files[path]|;
    }
  }

  /** The files after the attempts of `calls` have saved their documents, one after another, to `path`. */
  function SavedFiles(lib: Collaborators, files: map<string, seq<bv8>>, path: string, calls: seq<Params>): map<string, seq<bv8>>
  {
    if calls == [] then files
    else SavedFiles(lib, files, path, calls[..|calls| - 1])[path := lib.serialize(AttemptDocument(lib, calls[|calls| - 1]))]
  }

  /** Last writer wins: after any non-empty series of attempts, the output path holds the last
      attempt's file and every other path is as it was. */
  lemma {:induction false} LastAttemptWins(lib: Collaborators, files: map<string, seq<bv8>>, path: string, calls: seq<Params>)
    requires calls != []
    ensures SavedFiles(lib, files, path, calls) == files[path := lib.serialize(AttemptDocument(lib, calls[|calls| - 1]))]
  {
    var init := calls[..|calls| - 1];
    if init != [] {
      LastAttemptWins(lib, files, path, init);
    }
  }

  /** One attempt: builds the document from the input file at the call's zoom and quality, saves it
      over the output path, and measures the saved file. */
  method RunAttempt(disk: Disk, lib: Collaborators, p: Params) returns (size: nat)
    modifies disk
    ensures disk.files == old(disk.files)[p.outputPath := lib.serialize(AttemptDocument(lib, p))]
    ensures size == AttemptSize(lib, p)
  {
    var pages := lib.open(p.inputPath);
    var doc := BuildDocument(lib, pages, p.zoom, p.quality);
    disk.Save(p.outputPath, lib.serialize(doc));
    size := disk.GetSize(p.outputPath);
  }

  /** The loop's step: after the attempt at `current`, either it was the last call of the chain, or
      the chain goes on with the lowered call. */
  lemma ChainAdvances(lib: Collaborators, p: Params, done: seq<Params>, current: Params)
    requires current.quality >= 1
    requires done + Calls(lib, current) == Calls(lib, p)
    ensures !Retries(lib, current) || current.quality - 10 < 1 ==>
              done + [current] == Calls(lib, p) && Calls(lib, p)[|Calls(lib, p)| - 1] == current
    ensures Retries(lib, current) ==> (done + [current]) + Calls(lib, Lowered(current)) == Calls(lib, p)
  {
    CallsStep(lib, current);
    if Retries(lib, current) {
      assert done + Calls(lib, current) == (done + [current]) + Calls(lib, Lowered(current));
    }
  }

  /** Saving one more attempt's file updates the output path only. */
  lemma SavedFilesAppend(lib: Collaborators, files: map<string, seq<bv8>>, path: string, calls: seq<Params>, c: Params)
    ensures SavedFiles(lib, files, path, calls + [c]) ==
              SavedFiles(lib, files, path, calls)[path := lib.serialize(AttemptDocument(lib, c))]
  {
    assert (calls + [c])[..|calls|] == calls;
  }

  /** `compress_pdf` with its self-call turned into a loop over the current arguments. Every attempt
      overwrites the output path and touches nothing else, so the file left there is the last
      attempt's. */
  method CompressPdf(disk: Disk, lib: Collaborators, p: Params) returns (outcome: Outcome, ghost calls: seq<Params>)
    modifies disk
    ensures calls == Calls(lib, p)
    ensures outcome == Compress(lib, p)
    ensures disk.files == SavedFiles(lib, old(disk.files), p.outputPath, calls)
    ensures calls != [] ==>
              disk.files == old(disk.files)[p.outputPath := lib.serialize(AttemptDocument(lib, calls[|calls| - 1]))]
  {
    calls := [];
    var current := p;
    var attempts := 0;
    if current.quality < 1 {
      outcome := QualityOutOfRange(p.quality);
      return;
    }
    while true
      invariant current == p.(quality := current.quality)
      invariant current.quality >= 1
      invariant attempts == |calls|
      invariant calls + Calls(lib, current) == Calls(lib, p)
      invariant disk.files == SavedFiles(lib, old(disk.files), p.outputPath, calls)
      decreases current.quality
    {
      var size := RunAttempt(disk, lib, current);
      ChainAdvances(lib, p, calls, current);
      SavedFilesAppend(lib, old(disk.files), p.outputPath, calls, current);
      calls := calls + [current];
      attempts := attempts + 1;
      if !Exceeds(size, current.maxSizeKb) || current.quality - 10 < 1 {
        LastAttemptWins(lib, old(disk.files), p.outputPath, calls);
        CompressReportsLastCall(lib, p, current);
        outcome := if Exceeds(size, current.maxSizeKb) then Failed(current.quality, size, attempts)
                   else Done(current.quality, size, attempts);
        return;
      }
      current := Lowered(current);
    }
  }

  // ---------------------------------------------------------------------------------------------
  // The retry chain as the original writes it, with no floor.

  /** The first n calls of the unbounded self-call chain: the quality keeps falling by ten for as
      long as the file is too large. */
  function SourceCalls(lib: Collaborators, p: Params, n: nat): seq<Params>
    decreases n
  {
    if n == 0 then []
    else if !Retries(lib, p) then [p]
    else [p] + SourceCalls(lib, Lowered(p), n - 1)
  }

  /** When every quality is too large the original never stops: its first n calls are n calls, the
      k-th at quality q0 - 10 * k, which goes below 1 after (q0 - 1) / 10 + 1 calls. */
  lemma {:induction false} SourceNeverStopsOnUnreachableTarget(lib: Collaborators, p: Params, n: nat)
    requires forall q :: Retries(lib, p.(quality := q))
    decreases n
    ensures |SourceCalls(lib, p, n)| == n
    ensures forall k :: 0 <= k < n ==> SourceCalls(lib, p, n)[k].quality == p.quality - 10 * k
  {
    if n > 0 {
      assert Retries(lib, p.(quality := p.quality));
      assert p.(quality := p.quality) == p;
      var rest := Lowered(p);
      forall q ensures Retries(lib, rest.(quality := q)) {
        assert rest.(quality := q) == p.(quality := q);
      }
      SourceNeverStopsOnUnreachableTarget(lib, rest, n - 1);
      var cs := SourceCalls(lib, p, n);
      assert cs == [p] + SourceCalls(lib, rest, n - 1);
      forall k | 0 <= k < n ensures cs[k].quality == p.quality - 10 * k {
        if k > 0 {
          assert cs[k] == SourceCalls(lib, rest, n - 1)[k - 1];
        }
      }
    }
  }

  /** A target of zero (or less) kilobytes is never met, since a saved PDF is never empty. */
  lemma ZeroTargetIsUnreachable(lib: Collaborators, p: Params)
    requires p.maxSizeKb <= 0.0
    requires forall d :: |lib.serialize(d)| > 0
    ensures forall q :: Retries(lib, p.(quality := q))
  {
    forall q ensures Retries(lib, p.(quality := q)) {
      assert |lib.serialize(AttemptDocument(lib, p.(quality := q)))| > 0;
    }
  }

  /** The counterexample: from the default quality with an unreachable target, the original's ninth
      call encodes at quality -5. */
  lemma SourceEncodesAtNegativeQuality(lib: Collaborators, p: Params)
    requires p.quality == DefaultQuality
    requires forall q :: Retries(lib, p.(quality := q))
    ensures |SourceCalls(lib, p, 9)| == 9 && SourceCalls(lib, p, 9)[8].quality == -5
  {
    SourceNeverStopsOnUnreachableTarget(lib, p, 9);
  }

  /** The floored chain makes exactly the original's first calls: the two differ only in that the
      floored chain stops where the original would go on below quality 1. */
  lemma {:induction false} CallsArePrefixOfSource(lib: Collaborators, p: Params)
    decreases if p.quality < 1 then 0 else p.quality
    ensures Calls(lib, p) == SourceCalls(lib, p, |Calls(lib, p)|)
  {
    if p.quality >= 1 && Retries(lib, p) {
      CallsArePrefixOfSource(lib, Lowered(p));
    }
  }

  /** Where the floored chain ends with a file that fits, the original stops there too, however many
      of its calls one looks at. */
  lemma {:induction false} SourceStopsWhereModelSucceeds(lib: Collaborators, p: Params, n: nat)
    requires Calls(lib, p) != []
    requires !Retries(lib, Calls(lib, p)[|Calls(lib, p)| - 1])
    requires n >= |Calls(lib, p)|
    decreases n
    ensures SourceCalls(lib, p, n) == Calls(lib, p)
  {
    if Retries(lib, p) {
      assert Calls(lib, p) == [p] + Calls(lib, Lowered(p));
      SourceStopsWhereModelSucceeds(lib, Lowered(p), n - 1);
    }
  }
}
