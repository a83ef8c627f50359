/** `main` (main.cpp): read the command line, run the compiler, extract the
    metadata and write the header on standard output. Messages on standard
    error are not modelled. */
module Pipeline {
  import opened Text
  import opened MetadataModel
  import opened Report
  import opened Extraction
  import opened Header
  import opened Invocation
  import opened Cli
  import opened Processing

  /** How the program ends: an exit status with the lines written on
      standard output, or termination by an exception nothing catches. */
  datatype Exit = Exit(code: int, out: seq<string>) | Terminated

  function ProcessExit(p: Outcome<seq<string>>): Exit {
    match p
    case Done(out) => Exit(0, out)
    case Fail => Exit(1, [])
    case Abort => Terminated
  }

  /** What `main` does with the result of `call_faust`, as written: only
      -1 is taken for a failure of the compiler stage. */
  function AfterCompile(rc: int, doc: Document, stof: FloatParser, showFloat: FloatPrinter): (e: Exit)
    ensures rc == -1 ==> e == Exit(1, [])
  {
    if rc == -1 then Exit(1, []) else ProcessExit(Process(doc, stof, showFloat))
  }

  /** `call_faust` returns 1 when no workspace could be made, with the
      document untouched; as written, `main` goes on and processes that
      empty document, whose missing counts make `std::stoi` throw. */
  lemma WorkspaceFailureTerminates(stof: FloatParser, showFloat: FloatPrinter)
    ensures AfterCompile(1, EmptyDocument(), stof, showFloat) == Terminated
  {
    EmptyDocumentAborts(stof, showFloat);
  }

  /** The check `main` evidently intends: every non-zero result of
      `call_faust` is a failure. */
  function AfterCompileChecked(rc: int, doc: Document, stof: FloatParser, showFloat: FloatPrinter): (e: Exit)
    ensures rc != 0 ==> e == Exit(1, [])
  {
    if rc != 0 then Exit(1, []) else ProcessExit(Process(doc, stof, showFloat))
  }

  /** The corrected check ends a failed workspace with status 1, and
      agrees with the written one on the other results of `call_faust`. */
  lemma CheckedAgreesExceptOnWorkspaceFailure(rc: int, doc: Document, stof: FloatParser, showFloat: FloatPrinter)
    requires rc == 0 || rc == -1 || rc == 1
    ensures rc != 1 ==> AfterCompileChecked(rc, doc, stof, showFloat) == AfterCompile(rc, doc, stof, showFloat)
    ensures rc == 1 ==> AfterCompileChecked(rc, doc, stof, showFloat) == Exit(1, [])
    ensures rc == 1 && doc == EmptyDocument() ==> AfterCompile(rc, doc, stof, showFloat) == Terminated
  {
    if rc == 1 && doc == EmptyDocument() {
      WorkspaceFailureTerminates(stof, showFloat);
    }
  }

  /** The program ends with status 0 only after a successful compiler
      stage and extraction. */
  lemma SuccessNeedsExtraction(rc: int, doc: Document, stof: FloatParser, showFloat: FloatPrinter)
    requires AfterCompileChecked(rc, doc, stof, showFloat).Exit?
    requires AfterCompileChecked(rc, doc, stof, showFloat).code == 0
    ensures rc == 0 && Extract(doc, stof).Done?
  {
  }

  /** After a successful compiler stage and extraction, the program ends
      with status 0 and has written the header of the extracted record. */
  lemma SuccessWritesHeader(doc: Document, stof: FloatParser, showFloat: FloatPrinter, md: Metadata)
    requires Extract(doc, stof) == Done(md)
    ensures AfterCompileChecked(0, doc, stof, showFloat) == Exit(0, HeaderLines(md, showFloat))
  {
  }

  /** `main(argc, argv)`: status 1 with the usage for a bad command line,
      status 1 when the compiler stage fails, otherwise the outcome of
      processing the document. The result of `call_faust` is checked as
      `AfterCompileChecked` does. */
  method Run(argv: seq<string>, faustEnv: Option<string>, tc: Toolchain, stof: FloatParser, showFloat: FloatPrinter,
             draws: seq<Uint32>, fs: FileSystem)
    returns (e: Exit, ghost compiled: int, ghost workdir: string, ghost doc: Document)
    modifies fs
    ensures Cmdline(argv).None? ==> e == Exit(1, []) && fs.dirs == old(fs.dirs)
    ensures Cmdline(argv).Some? ==> e == AfterCompileChecked(compiled, doc, stof, showFloat)
    ensures Cmdline(argv).Some? && compiled == 1 ==> fs.dirs == old(fs.dirs)
    ensures Cmdline(argv).Some? && compiled != 1 ==>
      var cmd := Cmdline(argv).value;
      (compiled, doc) == Compile(workdir, cmd.dspfile, cmd.faustargs, faustEnv, tc)
  {
    var rc, cmd := DoCmdline(argv);
    compiled, doc, workdir := 0, EmptyDocument(), "";
    if rc == -1 {
      return Exit(1, []), compiled, workdir, doc;
    }
    var c, d;
    c, d, workdir := CallFaust(cmd.dspfile, cmd.faustargs, faustEnv, tc, draws, fs);
    compiled, doc := c, d;
    if c != 0 {
      return Exit(1, []), compiled, workdir, doc;
    }
    var p := ProcessDocument(d, stof, showFloat);
    match p
    case Done(out) => e := Exit(0, out);
    case Fail => e := Exit(1, []);
    case Abort => e := Terminated;
  }
}
