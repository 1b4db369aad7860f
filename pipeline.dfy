/**
 * The orchestrator of modules/processing_chain.py (the loop at the end of main.py
 * makes the same decisions, only logging instead of counting): list the PDFs, then
 * download, parse and extract each one, and hand every record whose `needs_review`
 * is falsy to the writer.
 *
 * The loop does not consult the processed-ID store, so running it again processes
 * and writes every listed file again.
 */
module Pipeline {
  import opened PyDict
  import opened Extraction
  import opened PdfText
  import opened Output

  /** One entry of the Drive listing. */
  datatype FileMeta = FileMeta(id: string, name: string, modifiedTime: string)

  /** The IDs of a listing, in order. */
  function Ids(files: seq<FileMeta>): seq<string> {
    seq(|files|, i requires 0 <= i < |files| => files[i].id)
  }

  /** The IDs of a longer prefix extend those of the shorter one. */
  lemma IdsStep(files: seq<FileMeta>, i: nat)
    requires i < |files|
    ensures Ids(files[..i + 1]) == Ids(files[..i]) + [files[i].id]
  {
    assert Ids(files[..i + 1])[..i] == Ids(files[..i]);
  }

  /** The watched Drive folder: what it lists and what each file ID downloads to. */
  class Watcher {
    const listing: seq<FileMeta>
    const contents: string -> Bytes
    /** Every download so far, in order. */
    ghost var Downloads: seq<string>

    constructor(listing: seq<FileMeta>, contents: string -> Bytes)
      ensures this.listing == listing && this.contents == contents && Downloads == []
    {
      this.listing := listing;
      this.contents := contents;
      Downloads := [];
    }

    /** `list_new_pdfs`: the whole listing, whether or not a file was seen before. */
    method ListNewPdfs() returns (files: seq<FileMeta>)
      ensures files == listing
    {
      files := listing;
    }

    /** `download_file`. */
    method DownloadFile(id: string) returns (pdf: Bytes)
      modifies this
      ensures pdf == contents(id) && Downloads == old(Downloads) + [id]
    {
      pdf := contents(id);
      Downloads := Downloads + [id];
    }
  }

  /** The extractor's configuration: lenders, the regex engine and the LLM pass. */
  datatype ExtractorConfig = ExtractorConfig(lenders: seq<Lender>, search: Search, llm: Llm)

  /** `record.get('needs_review')` is truthy. */
  predicate NeedsReview(record: Record) {
    Truthy(Field(record, "needs_review"))
  }

  /** The records, in order, whose `needs_review` is falsy. */
  function Unflagged(records: seq<Record>): seq<Record> {
    if records == [] then []
    else
      var last := records[|records| - 1];
      Unflagged(records[..|records| - 1]) + (if NeedsReview(last) then [] else [last])
  }

  /**
   * The writer receives exactly the records whose `needs_review` is falsy: a
   * flagged record is never written, an unflagged one always is.
   */
  lemma {:induction false} UnflaggedMembers(records: seq<Record>, r: Record)
    ensures r in Unflagged(records) <==> r in records && !NeedsReview(r)
  {
    if records != [] {
      var init := records[..|records| - 1];
      UnflaggedMembers(init, r);
      assert records == init + [records[|records| - 1]];
    }
  }

  /** A single record is written unless it is flagged. */
  lemma UnflaggedSingle(r: Record)
    ensures Unflagged([r]) == if NeedsReview(r) then [] else [r]
  {
    assert [r][..0] == [];
  }

  /** One more record is written unless it is flagged. */
  lemma UnflaggedStep(records: seq<Record>, i: nat)
    requires i < |records|
    ensures Unflagged(records[..i + 1]) == Unflagged(records[..i]) + (if NeedsReview(records[i]) then [] else [records[i]])
  {
    assert records[..i + 1][..i] == records[..i];
  }

  /** With the shipped LLM stub, only a lender pattern can set `needs_review`. */
  lemma StubNeverFlags(lenders: seq<Lender>, search: Search, text: string)
    requires "needs_review" !in Mandatory(lenders)
    ensures !NeedsReview(Extracted(lenders, search, ExtractWithLlm, text))
  {
    StubExtractIsRegexPass(lenders, search, text, "needs_review");
  }

  /** When no record is flagged, every record is written, in order. */
  lemma {:induction false} UnflaggedKeepsAllWhenNoneFlagged(records: seq<Record>)
    requires forall i :: 0 <= i < |records| ==> !NeedsReview(records[i])
    ensures Unflagged(records) == records
  {
    if records != [] {
      var init := records[..|records| - 1];
      UnflaggedKeepsAllWhenNoneFlagged(init);
      assert records == init + [records[|records| - 1]];
    }
  }

  /** A pass writes at most one record per listed file. */
  lemma {:induction false} UnflaggedLength(records: seq<Record>)
    ensures |Unflagged(records)| <= |records|
  {
    if records != [] {
      UnflaggedLength(records[..|records| - 1]);
    }
  }

  class ProcessingChain {
    const watcher: Watcher
    const parser: PdfBackend
    const extractor: ExtractorConfig
    const writer: Writer
    /** The record the chain builds for each listed file; `Wired` says how. */
    ghost const recordOf: FileMeta -> Record

    /** The record built for `f` is its downloaded bytes parsed, the text extracted. */
    ghost predicate Builds(f: FileMeta) {
      recordOf(f) == Extracted(extractor.lenders, extractor.search, extractor.llm, ParsedText(parser, watcher.contents(f.id)))
    }

    /** Every file's record is built from its bytes by the parser and the extractor. */
    ghost predicate Wired() {
      forall f :: Builds(f)
    }

    constructor(watcher: Watcher, parser: PdfBackend, extractor: ExtractorConfig, writer: Writer)
      ensures this.watcher == watcher && this.parser == parser
      ensures this.extractor == extractor && this.writer == writer
      ensures Wired()
    {
      this.watcher := watcher;
      this.parser := parser;
      this.extractor := extractor;
      this.writer := writer;
      recordOf := (f: FileMeta) =>
        Extracted(extractor.lenders, extractor.search, extractor.llm, ParsedText(parser, watcher.contents(f.id)));
    }

    /** The records built for `files`, in listing order. */
    ghost function RecordsOf(files: seq<FileMeta>): (records: seq<Record>)
      ensures |records| == |files|
      ensures forall i :: 0 <= i < |files| ==> records[i] == recordOf(files[i])
    {
      seq(|files|, i requires 0 <= i < |files| => recordOf(files[i]))
    }

    /** The records a pass over `files` hands to the writer, in listing order. */
    ghost function ToWrite(files: seq<FileMeta>): seq<Record> {
      Unflagged(RecordsOf(files))
    }

    /**
     * With the shipped LLM stub and no lender pattern named `needs_review`, no
     * record is flagged, whatever the document says.
     */
    lemma StubRecordNotFlagged(f: FileMeta)
      requires Wired()
      requires extractor.llm == ExtractWithLlm
      requires "needs_review" !in Mandatory(extractor.lenders)
      ensures !NeedsReview(recordOf(f))
    {
      assert Builds(f);
      StubNeverFlags(extractor.lenders, extractor.search, ParsedText(parser, watcher.contents(f.id)));
    }

    /**
     * Hence, with the shipped stub, every listed file is written, even one whose
     * mandatory fields are missing.
     */
    lemma StubPipelineWritesEveryFile(files: seq<FileMeta>)
      requires Wired()
      requires extractor.llm == ExtractWithLlm
      requires "needs_review" !in Mandatory(extractor.lenders)
      ensures ToWrite(files) == RecordsOf(files)
    {
      var records := RecordsOf(files);
      forall i | 0 <= i < |records| ensures !NeedsReview(records[i]) {
        StubRecordNotFlagged(files[i]);
      }
      UnflaggedKeepsAllWhenNoneFlagged(records);
    }

    /** The first half of `_call`'s loop body: download, parse and extract one file. */
    method BuildRecord(meta: FileMeta) returns (record: Record)
      requires Wired()
      modifies watcher
      ensures record == recordOf(meta) && record.Valid()
      ensures watcher.Downloads == old(watcher.Downloads) + [meta.id]
    {
      assert Builds(meta);
      var pdfBytes := watcher.DownloadFile(meta.id);
      var text := ExtractText(parser, pdfBytes);
      record := Extract(extractor.lenders, extractor.search, extractor.llm, text);
    }

    /** The whole loop body: the file's record is written unless it is flagged. */
    method ProcessFile(meta: FileMeta)
      requires Wired() && writer.Valid()
      modifies watcher, writer
      ensures writer.Valid()
      ensures watcher.Downloads == old(watcher.Downloads) + [meta.id]
      ensures writer.Appended == old(writer.Appended) + Unflagged([recordOf(meta)])
    {
      var record := BuildRecord(meta);
      UnflaggedSingle(record);
      if !Truthy(Field(record, "needs_review")) {
        writer.AppendRecord(record);
      }
    }

    /** `_call`: one pass over the listing; the count covers every listed file. */
    method Run() returns (processed: nat)
      requires Wired() && writer.Valid()
      modifies watcher, writer
      ensures writer.Valid()
      ensures processed == |watcher.listing|
      ensures watcher.Downloads == old(watcher.Downloads) + Ids(watcher.listing)
      ensures writer.Appended == old(writer.Appended) + ToWrite(watcher.listing)
    {
      var newFiles := watcher.ListNewPdfs();
      ghost var records := RecordsOf(newFiles);
      for i := 0 to |newFiles|
        invariant writer.Valid()
        invariant watcher.Downloads == old(watcher.Downloads) + Ids(newFiles[..i])
        invariant writer.Appended == old(writer.Appended) + Unflagged(records[..i])
      {
        IdsStep(newFiles, i);
        UnflaggedStep(records, i);
        ProcessFile(newFiles[i]);
      }
      assert newFiles[..|newFiles|] == newFiles;
      assert records[..|newFiles|] == records;
      return |newFiles|;
    }

    /** `Chain.__call__`: delegates to `_call`. */
    method Invoke() returns (processed: nat)
      requires Wired() && writer.Valid()
      modifies watcher, writer
      ensures writer.Valid()
      ensures processed == |watcher.listing|
      ensures watcher.Downloads == old(watcher.Downloads) + Ids(watcher.listing)
      ensures writer.Appended == old(writer.Appended) + ToWrite(watcher.listing)
    {
      processed := Run();
    }

    /** Nothing guards against reprocessing: a second pass writes every record again. */
    method RunTwice() returns (first: nat, second: nat)
      requires Wired() && writer.Valid()
      modifies watcher, writer
      ensures first == second == |watcher.listing|
      ensures watcher.Downloads == old(watcher.Downloads) + Ids(watcher.listing) + Ids(watcher.listing)
      ensures writer.Appended == old(writer.Appended) + ToWrite(watcher.listing) + ToWrite(watcher.listing)
    {
      first := Run();
      second := Run();
    }
  }
}
