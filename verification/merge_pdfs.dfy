/** Client-side PDF handling: per-file page counts and the merge of several
    PDFs into one. A PDF is seen abstractly as its sequence of pages, of any
    page type `P`; loading a file either yields that sequence or fails. */
module MergePdfs {
  import opened Js
  import opened Services
  import UploadMerged

  /** Limits the upload page enforces before checkout. */
  const MaxTotalPages: nat := 500
  /** 100 MiB (100 * 1024 * 1024 bytes). */
  const MaxTotalSize: nat := 100 * 1024 * 1024

  /** A selected file as the PDF library loads it: its pages, or a load
      failure (a rejected `PDFDocument.load`). */
  datatype Loaded<P> = Parsed(pages: seq<P>) | Unloadable

  /** The merged document as a typed blob. */
  datatype Blob<P> = Blob(pages: seq<P>, mimeType: string)

  predicate AllLoad<P>(files: seq<Loaded<P>>) {
    forall i :: 0 <= i < |files| ==> files[i].Parsed?
  }

  /** Every page of every file, file after file, each file's pages in order. */
  function AllPages<P>(files: seq<Loaded<P>>): seq<P>
    requires AllLoad(files)
  {
    if |files| == 0 then [] else AllPages(files[..|files| - 1]) + files[|files| - 1].pages
  }

  function Sum(xs: seq<nat>): nat {
    if |xs| == 0 then 0 else Sum(xs[..|xs| - 1]) + xs[|xs| - 1]
  }

  /** `countPagesPerFile`: one count per file, in the order of the files; the
      whole call fails if any file fails to load. */
  method CountPagesPerFile<P>(files: seq<Loaded<P>>) returns (counts: Option<seq<nat>>)
    ensures counts.Some? <==> AllLoad(files)
    ensures counts.Some? ==>
      |counts.value| == |files| && forall i :: 0 <= i < |files| ==> counts.value[i] == |files[i].pages|
  {
    var acc: seq<nat> := [];
    var i := 0;
    while i < |files|
      invariant 0 <= i <= |files|
      invariant forall j :: 0 <= j < i ==> files[j].Parsed?
      invariant |acc| == i && forall j :: 0 <= j < i ==> acc[j] == |files[j].pages|
    {
      if files[i].Unloadable? {
        return None;
      }
      acc := acc + [|files[i].pages|];
      i := i + 1;
    }
    return Some(acc);
  }

  /** `mergePdfs`: every page of each file is copied into a fresh document,
      file by file and page by page; the result is saved as a PDF blob. */
  method MergePdfs<P>(files: seq<Loaded<P>>) returns (r: Option<Blob<P>>)
    ensures r.Some? <==> AllLoad(files)
    ensures r.Some? ==> r.value.pages == AllPages(files) && r.value.mimeType == PdfMimeType
  {
    var merged: seq<P> := [];
    var i := 0;
    while i < |files|
      invariant 0 <= i <= |files|
      invariant AllLoad(files[..i])
      invariant merged == AllPages(files[..i])
    {
      if files[i].Unloadable? {
        return None;
      }
      var pages := files[i].pages;
      ghost var before := merged;
      var k := 0;
      while k < |pages|
        invariant 0 <= k <= |pages|
        invariant merged == before + pages[..k]
      {
        merged := merged + [pages[k]];
        k := k + 1;
      }
      assert pages[..|pages|] == pages;
      assert files[..i + 1][..i] == files[..i];
      i := i + 1;
    }
    assert files[..|files|] == files;
    return Some(Blob(merged, PdfMimeType));
  }

  /** The merged document has as many pages as the per-file counts add up
      to; no file at all gives an empty document. */
  lemma {:induction false} MergedPageCount<P>(files: seq<Loaded<P>>, counts: seq<nat>)
    requires AllLoad(files)
    requires |counts| == |files| && forall i :: 0 <= i < |files| ==> counts[i] == |files[i].pages|
    ensures |AllPages(files)| == Sum(counts)
    ensures files == [] ==> AllPages(files) == []
  {
    if |files| > 0 {
      var n := |files| - 1;
      MergedPageCount(files[..n], counts[..n]);
    }
  }

  /** The client's total-size limit is the server's upload limit. */
  lemma SizeLimitsAgree()
    ensures MaxTotalSize == UploadMerged.MaxUploadSize
  {
  }
}
