/** One attempt's document: every source page is rasterised at the zoom factor, re-encoded as JPEG at
    the attempt's quality, and placed on a new page of exactly the raster's size. The PDF and image
    libraries are not modelled; what the core needs of them is a record of functions. */
module Assembler {

  /** A page of the source PDF: its content, which only the renderer reads. */
  datatype Page = Page(content: seq<bv8>)

  /** The raster of a page: only its pixel dimensions matter to the core. */
  datatype Pixmap = Pixmap(width: nat, height: nat)

  /** A page of the new PDF: its size (one unit per pixel) and the JPEG stream drawn over all of it. */
  datatype OutputPage = OutputPage(width: nat, height: nat, image: seq<bv8>)

  type Document = seq<OutputPage>

  /** The foreign libraries, as deterministic functions:
      - `open`: the pages of the PDF at a path, in index order (PyMuPDF `fitz.open`, `load_page`);
      - `render`: the pixmap of a page at a uniform zoom (`get_pixmap` with a scaling matrix);
      - `encode`: that raster written as JPEG and re-saved by PIL at the given quality;
      - `serialize`: the bytes a document is saved as (`save`), whose length is the file size. */
  datatype Collaborators = Collaborators(
    open: string -> seq<Page>,
    render: (Page, real) -> Pixmap,
    encode: (Page, real, int) -> seq<bv8>,
    serialize: Document -> seq<bv8>)

  /** The output page made from one source page: sized like its raster, showing its encoded image. */
  function RenderPage(lib: Collaborators, page: Page, zoom: real, quality: int): OutputPage {
    var pix := lib.render(page, zoom);
    OutputPage(pix.width, pix.height, lib.encode(page, zoom, quality))
  }

  /** The document after the pages have been appended one by one, in index order. */
  function Assemble(lib: Collaborators, pages: seq<Page>, zoom: real, quality: int): Document
  {
    if pages == [] then []
    else Assemble(lib, pages[..|pages| - 1], zoom, quality) + [RenderPage(lib, pages[|pages| - 1], zoom, quality)]
  }

  /** One output page per source page, and the k-th output page comes from the k-th source page. */
  lemma {:induction false} AssembleOnePagePerSourcePage(lib: Collaborators, pages: seq<Page>, zoom: real, quality: int)
    ensures |Assemble(lib, pages, zoom, quality)| == |pages|
    ensures forall k :: 0 <= k < |pages| ==>
              Assemble(lib, pages, zoom, quality)[k] == RenderPage(lib, pages[k], zoom, quality)
  {
    if pages != [] {
      var init := pages[..|pages| - 1];
      AssembleOnePagePerSourcePage(lib, init, zoom, quality);
      assert forall k :: 0 <= k < |init| ==> init[k] == pages[k];
    }
  }

  /** Each output page has the width and height of the pixmap of its source page, and carries that
      page's image encoded at the given quality. */
  lemma PageSizeIsPixmapSize(lib: Collaborators, pages: seq<Page>, zoom: real, quality: int, k: nat)
    requires k < |pages|
    ensures k < |Assemble(lib, pages, zoom, quality)|
    ensures Assemble(lib, pages, zoom, quality)[k].width == lib.render(pages[k], zoom).width
    ensures Assemble(lib, pages, zoom, quality)[k].height == lib.render(pages[k], zoom).height
    ensures Assemble(lib, pages, zoom, quality)[k].image == lib.encode(pages[k], zoom, quality)
  {
    AssembleOnePagePerSourcePage(lib, pages, zoom, quality);
  }

  /** Two attempts that differ only in quality build documents of the same page count and the same
      page geometry: only the images differ. */
  lemma {:induction false} GeometryDoesNotDependOnQuality(lib: Collaborators, pages: seq<Page>, zoom: real, q1: int, q2: int)
    ensures |Assemble(lib, pages, zoom, q1)| == |pages| == |Assemble(lib, pages, zoom, q2)|
    ensures forall k :: 0 <= k < |pages| ==>
              Assemble(lib, pages, zoom, q1)[k].width == Assemble(lib, pages, zoom, q2)[k].width &&
              Assemble(lib, pages, zoom, q1)[k].height == Assemble(lib, pages, zoom, q2)[k].height
  {
    AssembleOnePagePerSourcePage(lib, pages, zoom, q1);
    AssembleOnePagePerSourcePage(lib, pages, zoom, q2);
  }

  /** The page loop of one attempt: walks the source pages in index order and appends one new page
      per source page to the document being built. */
  method BuildDocument(lib: Collaborators, pages: seq<Page>, zoom: real, quality: int) returns (doc: Document)
    ensures doc == Assemble(lib, pages, zoom, quality)
    ensures |doc| == |pages|
    ensures forall k :: 0 <= k < |pages| ==>
              doc[k].width == lib.render(pages[k], zoom).width &&
              doc[k].height == lib.render(pages[k], zoom).height &&
              doc[k].image == lib.encode(pages[k], zoom, quality)
  {
    doc := [];
    var pageNum := 0;
    while pageNum < |pages|
      invariant 0 <= pageNum <= |pages|
      invariant doc == Assemble(lib, pages[..pageNum], zoom, quality)
    {
      var page := pages[pageNum];
      var pix := lib.render(page, zoom);
      var image := lib.encode(page, zoom, quality);
      assert pages[..pageNum + 1][..pageNum] == pages[..pageNum];
      doc := doc + [OutputPage(pix.width, pix.height, image)];
      pageNum := pageNum + 1;
    }
    assert pages[..pageNum] == pages;
    AssembleOnePagePerSourcePage(lib, pages, zoom, quality);
  }
}
