/** The output-name rule of the form: the name typed by the user gets a ".pdf" suffix when it lacks one. */
module Naming {

  const PdfSuffix: string := ".pdf"

  /** Python's `str.endswith`: `suffix` is the tail of `s` (case-sensitive, character by character). */
  predicate EndsWith(s: string, suffix: string) {
    |suffix| <= |s| && s[|s| - |suffix|..] == suffix
  }

  /** The output path used for the compressed file. */
  function NormalizeOutputName(name: string): (r: string)
    ensures EndsWith(r, PdfSuffix)
    ensures |r| >= |name| && r[..|name|] == name
    ensures EndsWith(name, PdfSuffix) ==> r == name
    ensures !EndsWith(name, PdfSuffix) ==> |r| == |name| + |PdfSuffix|
  {
    if EndsWith(name, PdfSuffix) then name else name + PdfSuffix
  }

  /** Normalising twice is normalising once. */
  lemma NormalizeIdempotent(name: string)
    ensures NormalizeOutputName(NormalizeOutputName(name)) == NormalizeOutputName(name)
  {
  }

  /** The result is the input followed by exactly ".pdf" or by nothing, and "nothing" happens exactly
      when the input already ends with ".pdf". */
  lemma NormalizeAppendsSuffixOnlyWhenMissing(name: string)
    ensures NormalizeOutputName(name) == name <==> EndsWith(name, PdfSuffix)
    ensures NormalizeOutputName(name) != name ==> NormalizeOutputName(name) == name + PdfSuffix
  {
    var r := NormalizeOutputName(name);
    if !EndsWith(name, PdfSuffix) {
      assert |r| == |name| + |PdfSuffix|;
      assert r[|name|..] == PdfSuffix;
      assert r == r[..|name|] + r[|name|..];
    }
  }

  /** The comparison is case-sensitive: an upper-case extension gets a second, lower-case one. */
  lemma NormalizeIsCaseSensitive()
    ensures NormalizeOutputName("scan.PDF") == "scan.PDF.pdf"
  {
    assert !EndsWith("scan.PDF", PdfSuffix) by {
      assert "scan.PDF"[5] == 'P';
      assert "scan.PDF"[4..] != PdfSuffix by { assert "scan.PDF"[4..][1] == 'P'; }
    }
  }
}
