/** `process_document` (main.cpp): extract the metadata of the report and
    write the header for it. */
module Processing {
  import opened MetadataModel
  import opened Report
  import opened Numbers
  import opened Extraction
  import opened Header

  /** What `process_document` makes of an extraction: the header when it
      succeeded, nothing written otherwise. */
  function Render(o: Outcome<Metadata>, showFloat: FloatPrinter): Outcome<seq<string>> {
    match o
    case Done(md) => Done(HeaderLines(md, showFloat))
    case Fail => Fail
    case Abort => Abort
  }

  /** What `process_document(std::cout, doc)` writes, or how it fails. */
  function Process(doc: Document, stof: FloatParser, showFloat: FloatPrinter): Outcome<seq<string>> {
    Render(Extract(doc, stof), showFloat)
  }

  /** `process_document(std::cout, doc)`: the header is written only after
      the whole extraction succeeded. */
  method ProcessDocument(doc: Document, stof: FloatParser, showFloat: FloatPrinter) returns (r: Outcome<seq<string>>)
    ensures r == Process(doc, stof, showFloat)
  {
    var status, md := ExtractMetadata(doc, stof);
    if status == Aborted {
      assert Extract(doc, stof).Abort?;
      return Abort;
    }
    if status == Failed {
      assert Extract(doc, stof).Fail?;
      return Fail;
    }
    assert Extract(doc, stof) == Done(md);
    var out := DumpMetadata(md, showFloat);
    return Done(out);
  }

  /** A report whose input or output count does not read as an integer
      ends the processing with an exception. */
  lemma UnreadableCountsAbort(doc: Document, stof: FloatParser, showFloat: FloatPrinter)
    requires StoI(doc.inputs).None? || StoI(doc.outputs).None?
    ensures Process(doc, stof, showFloat) == Abort
  {
  }

  /** The empty document has no counts at all. */
  lemma EmptyDocumentAborts(stof: FloatParser, showFloat: FloatPrinter)
    ensures Process(EmptyDocument(), stof, showFloat) == Abort
  {
    StoIEmpty();
  }
}
