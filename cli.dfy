/** `do_cmdline` (main.cpp): the options `-I path` (repeatable), `-cn name`
    and `-pn name`, the end of options `--`, and exactly one positional
    argument, the DSP file. */
module Cli {
  import opened Text
  import opened Invocation

  datatype CmdArgs = CmdArgs(dspfile: string, faustargs: FaustArgs)

  function EmptyCmd(): CmdArgs {
    CmdArgs("", FaustArgs("", "", [], []))
  }

  /** The state of the scan: whether options are still recognised, how many
      positional arguments were seen, and what was collected. */
  datatype ScanState = ScanState(moreflags: bool, extraindex: nat, cmd: CmdArgs)

  /** The flags that take the next argument as their value. */
  predicate IsValuedFlag(arg: string) {
    arg == "-I" || arg == "-cn" || arg == "-pn"
  }

  /** An argument read as an unknown flag while options are recognised. */
  predicate IsUnknownFlag(arg: string) {
    arg != "" && arg[0] == '-' && arg != "--" && !IsValuedFlag(arg)
  }

  /** A flag with its value stored. */
  function SetOption(cmd: CmdArgs, flag: string, value: string): (c: CmdArgs)
    requires IsValuedFlag(flag)
    ensures c.dspfile == cmd.dspfile && c.faustargs.miscargs == cmd.faustargs.miscargs
    ensures flag == "-I" ==> c.faustargs == cmd.faustargs.(incdirs := cmd.faustargs.incdirs + [value])
    ensures flag == "-cn" ==> c.faustargs == cmd.faustargs.(classname := value)
    ensures flag == "-pn" ==> c.faustargs == cmd.faustargs.(processname := value)
  {
    var fa := cmd.faustargs;
    if flag == "-I" then cmd.(faustargs := fa.(incdirs := fa.incdirs + [value]))
    else if flag == "-cn" then cmd.(faustargs := fa.(classname := value))
    else cmd.(faustargs := fa.(processname := value))
  }

  /** The scan of the remaining arguments, `None` for the first error. */
  function Scan(rest: seq<string>, st: ScanState): Option<ScanState>
    decreases |rest|
  {
    if rest == [] then Some(st)
    else
      var arg := rest[0];
      if st.moreflags && arg == "--" then Scan(rest[1..], st.(moreflags := false))
      else if st.moreflags && IsValuedFlag(arg) then
        if |rest| == 1 then None
        else Scan(rest[2..], st.(cmd := SetOption(st.cmd, arg, rest[1])))
      else if st.moreflags && arg != "" && arg[0] == '-' then None
      else if st.extraindex == 0 then Scan(rest[1..], st.(extraindex := 1, cmd := st.cmd.(dspfile := arg)))
      else None
  }

  /** The outcome of `do_cmdline` on the whole vector, `argv[0]` being the
      program name. */
  function Cmdline(argv: seq<string>): Option<CmdArgs> {
    var args := if |argv| > 0 then argv[1..] else [];
    match Scan(args, ScanState(true, 0, EmptyCmd()))
    case None => None
    case Some(st) => if st.extraindex == 1 then Some(st.cmd) else None
  }

  /** `do_cmdline(cmd, argc, argv)`: 0 with the collected arguments, or -1
      (after which `main` shows the usage). */
  method DoCmdline(argv: seq<string>) returns (rc: int, cmd: CmdArgs)
    ensures rc == 0 || rc == -1
    ensures rc == 0 <==> Cmdline(argv).Some?
    ensures rc == 0 ==> cmd == Cmdline(argv).value
  {
    var moreflags := true;
    var extraindex: nat := 0;
    cmd := EmptyCmd();
    ghost var result := Scan(if |argv| > 0 then argv[1..] else [], ScanState(true, 0, EmptyCmd()));
    var i := 1;
    if |argv| == 0 {
      assert result == Some(ScanState(true, 0, EmptyCmd()));
      return -1, cmd;
    }
    while i < |argv|
      invariant 1 <= i <= |argv|
      invariant extraindex <= 1
      invariant Scan(argv[i..], ScanState(moreflags, extraindex, cmd)) == result
      decreases |argv| - i
    {
      var arg := argv[i];
      assert argv[i..][0] == arg;
      if moreflags && arg == "--" {
        moreflags := false;
      } else if moreflags && arg == "-I" {
        i := i + 1;
        if i == |argv| {
          return -1, cmd;
        }
        assert argv[i - 1..][1] == argv[i];
        cmd := cmd.(faustargs := cmd.faustargs.(incdirs := cmd.faustargs.incdirs + [argv[i]]));
      } else if moreflags && arg == "-cn" {
        i := i + 1;
        if i == |argv| {
          return -1, cmd;
        }
        assert argv[i - 1..][1] == argv[i];
        cmd := cmd.(faustargs := cmd.faustargs.(classname := argv[i]));
      } else if moreflags && arg == "-pn" {
        i := i + 1;
        if i == |argv| {
          return -1, cmd;
        }
        assert argv[i - 1..][1] == argv[i];
        cmd := cmd.(faustargs := cmd.faustargs.(processname := argv[i]));
      } else if moreflags && arg != "" && arg[0] == '-' {
        return -1, cmd;
      } else {
        if extraindex != 0 {
          return -1, cmd;
        }
        cmd := cmd.(dspfile := arg);
        extraindex := extraindex + 1;
      }
      assert argv[i..][1..] == argv[i + 1..];
      i := i + 1;
    }
    if extraindex != 1 {
      return -1, cmd;
    }
    return 0, cmd;
  }

  // ---------------------------------------------------------------------
  // What the scan accepts

  /** The state `do_cmdline` starts with. */
  function Start(): ScanState {
    ScanState(true, 0, EmptyCmd())
  }

  /** An option as written on the command line. */
  datatype Opt = Include(dir: string) | ClassName(name: string) | ProcessName(name: string)

  function OptFlag(o: Opt): (f: string)
    ensures IsValuedFlag(f)
  {
    match o
    case Include(_) => "-I"
    case ClassName(_) => "-cn"
    case ProcessName(_) => "-pn"
  }

  function OptValue(o: Opt): string {
    match o
    case Include(d) => d
    case ClassName(n) => n
    case ProcessName(n) => n
  }

  /** One unit of a command line as the scan reads it: an option with its
      value, the end of options `--`, or a positional argument. */
  datatype Item = Flagged(opt: Opt) | EndOfOptions | Positional(arg: string)

  function ItemWords(it: Item): seq<string> {
    match it
    case Flagged(o) => [OptFlag(o), OptValue(o)]
    case EndOfOptions => ["--"]
    case Positional(a) => [a]
  }

  /** The words of a list of items, in order. */
  function WordsOf(items: seq<Item>): seq<string> {
    if items == [] then [] else ItemWords(items[0]) + WordsOf(items[1..])
  }

  /** What reading one item does to the state of the scan. */
  function Step(st: ScanState, it: Item): ScanState {
    match it
    case Flagged(o) => st.(cmd := SetOption(st.cmd, OptFlag(o), OptValue(o)))
    case EndOfOptions => st.(moreflags := false)
    case Positional(a) => st.(extraindex := st.extraindex + 1, cmd := st.cmd.(dspfile := a))
  }

  /** Whether the scan, in state `st`, reads the words of `it` as that item
      without an error: options and `--` only while flags are recognised,
      a positional argument only as the first one, and then only when it
      cannot be taken for a flag. */
  predicate ReadAs(st: ScanState, it: Item) {
    match it
    case Flagged(_) => st.moreflags
    case EndOfOptions => st.moreflags
    case Positional(a) => st.extraindex == 0 && (!st.moreflags || a == "" || a[0] != '-')
  }

  /** Every item of the list is read as itself, one after the other. */
  predicate Readable(items: seq<Item>, st: ScanState)
    decreases |items|
  {
    items == [] || (ReadAs(st, items[0]) && Readable(items[1..], Step(st, items[0])))
  }

  /** The state after reading the items. */
  function Walk(items: seq<Item>, st: ScanState): ScanState
    decreases |items|
  {
    if items == [] then st else Walk(items[1..], Step(st, items[0]))
  }

  /** The positional arguments among the items. */
  function Positionals(items: seq<Item>): seq<string> {
    if items == [] then []
    else (if items[0].Positional? then [items[0].arg] else []) + Positionals(items[1..])
  }

  /** The include directories, in the order given. */
  function IncludesOf(items: seq<Item>): seq<string> {
    if items == [] then []
    else (if items[0].Flagged? && items[0].opt.Include? then [items[0].opt.dir] else []) + IncludesOf(items[1..])
  }

  /** The value of the last option of a kind, or the current one. */
  function LastClassName(items: seq<Item>, current: string): string {
    if items == [] then current
    else LastClassName(items[1..], if items[0].Flagged? && items[0].opt.ClassName? then items[0].opt.name else current)
  }

  function LastProcessName(items: seq<Item>, current: string): string {
    if items == [] then current
    else LastProcessName(items[1..], if items[0].Flagged? && items[0].opt.ProcessName? then items[0].opt.name else current)
  }

  /** Readable items are scanned item by item: the scan of their words and
      what follows goes on from the state they lead to. */
  lemma {:induction false} ScanItems(items: seq<Item>, rest: seq<string>, st: ScanState)
    requires Readable(items, st)
    ensures Scan(WordsOf(items) + rest, st) == Scan(rest, Walk(items, st))
    decreases |items|
  {
    if items != [] {
      var it := items[0];
      var w := WordsOf(items) + rest;
      var tail := WordsOf(items[1..]) + rest;
      assert w == ItemWords(it) + tail;
      ScanItems(items[1..], rest, Step(st, it));
      match it
      case Flagged(o) =>
        assert w[0] == OptFlag(o) && w[1] == OptValue(o) && w[2..] == tail;
      case EndOfOptions =>
        assert w[0] == "--" && w[1..] == tail;
      case Positional(a) =>
        assert w[0] == a && w[1..] == tail;
    } else {
      assert WordsOf(items) + rest == rest;
    }
  }

  /** Options are recognised until `--`, and every positional argument
      counts. */
  lemma {:induction false} WalkCounts(items: seq<Item>, st: ScanState)
    ensures Walk(items, st).moreflags == (st.moreflags && EndOfOptions !in items)
    ensures Walk(items, st).extraindex == st.extraindex + |Positionals(items)|
    decreases |items|
  {
    if items != [] {
      WalkCounts(items[1..], Step(st, items[0]));
      assert EndOfOptions in items <==> items[0] == EndOfOptions || EndOfOptions in items[1..] by {
        assert items == [items[0]] + items[1..];
      }
    }
  }

  /** The DSP file is the last positional argument read. */
  lemma {:induction false} WalkDspFile(items: seq<Item>, st: ScanState)
    ensures var ps := Positionals(items);
      Walk(items, st).cmd.dspfile == if ps == [] then st.cmd.dspfile else ps[|ps| - 1]
    decreases |items|
  {
    if items != [] {
      WalkDspFile(items[1..], Step(st, items[0]));
    }
  }

  /** One item's effect on the compiler arguments. */
  lemma StepFaustArgs(st: ScanState, it: Item)
    ensures var fa, fa' := st.cmd.faustargs, Step(st, it).cmd.faustargs;
      && fa'.incdirs == fa.incdirs + (if it.Flagged? && it.opt.Include? then [it.opt.dir] else [])
      && fa'.classname == (if it.Flagged? && it.opt.ClassName? then it.opt.name else fa.classname)
      && fa'.processname == (if it.Flagged? && it.opt.ProcessName? then it.opt.name else fa.processname)
      && fa'.miscargs == fa.miscargs
  {
    match it
    case Flagged(o) =>
      match o {
        case Include(_) =>
        case ClassName(_) =>
        case ProcessName(_) =>
      }
    case EndOfOptions =>
      assert st.cmd.faustargs.incdirs + [] == st.cmd.faustargs.incdirs;
    case Positional(_) =>
      assert st.cmd.faustargs.incdirs + [] == st.cmd.faustargs.incdirs;
  }

  /** `-I` values accumulate in order. */
  lemma {:induction false} WalkIncludes(items: seq<Item>, st: ScanState)
    ensures Walk(items, st).cmd.faustargs.incdirs == st.cmd.faustargs.incdirs + IncludesOf(items)
    decreases |items|
  {
    if items != [] {
      var st' := Step(st, items[0]);
      StepFaustArgs(st, items[0]);
      WalkIncludes(items[1..], st');
      var inc := if items[0].Flagged? && items[0].opt.Include? then [items[0].opt.dir] else [];
      assert IncludesOf(items) == inc + IncludesOf(items[1..]);
      assert st.cmd.faustargs.incdirs + IncludesOf(items) == st'.cmd.faustargs.incdirs + IncludesOf(items[1..]);
    }
  }

  /** `-cn` and `-pn` keep the last value given; the other arguments stay. */
  lemma {:induction false} WalkNames(items: seq<Item>, st: ScanState)
    ensures var fa, fa' := st.cmd.faustargs, Walk(items, st).cmd.faustargs;
      && fa'.classname == LastClassName(items, fa.classname)
      && fa'.processname == LastProcessName(items, fa.processname)
      && fa'.miscargs == fa.miscargs
    decreases |items|
  {
    if items != [] {
      StepFaustArgs(st, items[0]);
      WalkNames(items[1..], Step(st, items[0]));
    }
  }

  /** Options: `-I` values accumulate in order, `-cn` and `-pn` keep the
      last value given, nothing else changes. */
  lemma WalkFaustArgs(items: seq<Item>, st: ScanState)
    ensures var fa := st.cmd.faustargs;
      Walk(items, st).cmd.faustargs ==
        FaustArgs(LastClassName(items, fa.classname), LastProcessName(items, fa.processname),
                  fa.incdirs + IncludesOf(items), fa.miscargs)
  {
    WalkIncludes(items, st);
    WalkNames(items, st);
  }

  /** Storing options and the DSP file together. */
  lemma WalkCmd(items: seq<Item>, st: ScanState)
    ensures var fa := st.cmd.faustargs;
      var ps := Positionals(items);
      Walk(items, st).cmd == CmdArgs(
        if ps == [] then st.cmd.dspfile else ps[|ps| - 1],
        FaustArgs(LastClassName(items, fa.classname), LastProcessName(items, fa.processname),
                  fa.incdirs + IncludesOf(items), fa.miscargs))
  {
    WalkDspFile(items, st);
    WalkFaustArgs(items, st);
  }

  /** After `--`, every argument is positional: the scan succeeds exactly
      when at most one positional argument is seen in all, and the DSP file
      is then the last one. */
  lemma {:induction false} AfterEndOfOptions(rest: seq<string>, st: ScanState)
    requires !st.moreflags && st.extraindex <= 1
    ensures Scan(rest, st).Some? <==> st.extraindex + |rest| <= 1
    ensures |rest| == 1 && st.extraindex == 0 ==> Scan(rest, st) == Some(st.(extraindex := 1, cmd := st.cmd.(dspfile := rest[0])))
  {
    if rest != [] && st.extraindex == 0 {
      AfterEndOfOptions(rest[1..], st.(extraindex := 1, cmd := st.cmd.(dspfile := rest[0])));
    }
  }

  /** The command lines that succeed: readable items, in any order, with
      exactly one positional argument, which becomes the DSP file. */
  lemma Accepted(prog: string, items: seq<Item>)
    requires Readable(items, Start()) && |Positionals(items)| == 1
    ensures Cmdline([prog] + WordsOf(items)) ==
      Some(CmdArgs(Positionals(items)[0], FaustArgs(LastClassName(items, ""), LastProcessName(items, ""), IncludesOf(items), [])))
  {
    var argv := [prog] + WordsOf(items);
    assert argv[1..] == WordsOf(items) + [];
    ScanItems(items, [], Start());
    WalkCounts(items, Start());
    WalkCmd(items, Start());
    assert [] + IncludesOf(items) == IncludesOf(items);
  }

  /** The item the scan reads first from a non-empty remainder that it
      accepts. */
  function FirstItem(rest: seq<string>, st: ScanState): (it: Item)
    requires rest != []
    ensures it.Flagged? ==> |rest| > 1
  {
    var arg := rest[0];
    if st.moreflags && arg == "--" then EndOfOptions
    else if st.moreflags && IsValuedFlag(arg) && |rest| > 1 then
      Flagged(if arg == "-I" then Include(rest[1]) else if arg == "-cn" then ClassName(rest[1]) else ProcessName(rest[1]))
    else Positional(arg)
  }

  /** The first item is read as itself, and the scan goes on after its words. */
  lemma FirstItemRead(rest: seq<string>, st: ScanState)
    requires rest != [] && Scan(rest, st).Some?
    ensures var it := FirstItem(rest, st);
      var n := |ItemWords(it)|;
      && n <= |rest| && rest[..n] == ItemWords(it) && ReadAs(st, it)
      && Scan(rest, st) == Scan(rest[n..], Step(st, it))
  {
  }

  /** The items a successful scan reads, in order. */
  function ParseItems(rest: seq<string>, st: ScanState): seq<Item>
    requires Scan(rest, st).Some?
    decreases |rest|
  {
    if rest == [] then []
    else
      var it := FirstItem(rest, st);
      FirstItemRead(rest, st);
      [it] + ParseItems(rest[|ItemWords(it)|..], Step(st, it))
  }

  /** The parsed items are read as themselves. */
  lemma {:induction false} ParsedReadable(rest: seq<string>, st: ScanState)
    requires Scan(rest, st).Some?
    ensures Readable(ParseItems(rest, st), st)
    decreases |rest|
  {
    if rest != [] {
      var it := FirstItem(rest, st);
      FirstItemRead(rest, st);
      ParsedReadable(rest[|ItemWords(it)|..], Step(st, it));
      ConsItem(it, ParseItems(rest[|ItemWords(it)|..], Step(st, it)), st);
    }
  }

  /** The parsed items are exactly the words scanned. */
  lemma {:induction false} ParsedWords(rest: seq<string>, st: ScanState)
    requires Scan(rest, st).Some?
    ensures WordsOf(ParseItems(rest, st)) == rest
    decreases |rest|
  {
    if rest != [] {
      var it := FirstItem(rest, st);
      var n := |ItemWords(it)|;
      FirstItemRead(rest, st);
      var tail := ParseItems(rest[n..], Step(st, it));
      assert ParseItems(rest, st) == [it] + tail;
      ParsedWords(rest[n..], Step(st, it));
      ConsItem(it, tail, st);
      SplitAt(rest, n);
    }
  }

  /** A sequence is its prefix followed by the rest. */
  lemma SplitAt<T>(s: seq<T>, n: nat)
    requires n <= |s|
    ensures s[..n] + s[n..] == s
  {
  }

  /** The scan ends in the state the parsed items lead to. */
  lemma {:induction false} ParsedWalk(rest: seq<string>, st: ScanState)
    requires Scan(rest, st).Some?
    ensures Scan(rest, st) == Some(Walk(ParseItems(rest, st), st))
    decreases |rest|
  {
    if rest != [] {
      var it := FirstItem(rest, st);
      FirstItemRead(rest, st);
      ParsedWalk(rest[|ItemWords(it)|..], Step(st, it));
      ConsItem(it, ParseItems(rest[|ItemWords(it)|..], Step(st, it)), st);
    }
  }

  /** A successful scan reads its words as readable items. */
  lemma ScanParses(rest: seq<string>, st: ScanState)
    requires Scan(rest, st).Some?
    ensures var items := ParseItems(rest, st);
      Readable(items, st) && rest == WordsOf(items) && Scan(rest, st) == Some(Walk(items, st))
  {
    ParsedReadable(rest, st);
    ParsedWords(rest, st);
    ParsedWalk(rest, st);
  }

  /** Putting one item in front of others. */
  lemma ConsItem(it: Item, items: seq<Item>, st: ScanState)
    ensures var all := [it] + items;
      && (ReadAs(st, it) && Readable(items, Step(st, it)) ==> Readable(all, st))
      && WordsOf(all) == ItemWords(it) + WordsOf(items)
      && Walk(all, st) == Walk(items, Step(st, it))
  {
    var all := [it] + items;
    assert all[0] == it && all[1..] == items;
  }

  /** The converse: an accepted command line is readable items with exactly
      one positional argument, and the result is what those items store. */
  lemma AcceptedOnlyIf(argv: seq<string>)
    requires Cmdline(argv).Some?
    ensures |argv| > 0
    ensures exists items ::
      && Readable(items, Start()) && argv[1..] == WordsOf(items) && |Positionals(items)| == 1
      && Cmdline(argv).value == CmdArgs(Positionals(items)[0],
           FaustArgs(LastClassName(items, ""), LastProcessName(items, ""), IncludesOf(items), []))
  {
    ScanParses(argv[1..], Start());
    var items := ParseItems(argv[1..], Start());
    WalkCounts(items, Start());
    WalkCmd(items, Start());
    assert [] + IncludesOf(items) == IncludesOf(items);
  }

  /** A command line without a positional argument is refused, `--` or not. */
  lemma NoFileRefused(prog: string, items: seq<Item>)
    requires Readable(items, Start()) && Positionals(items) == []
    ensures Cmdline([prog] + WordsOf(items)) == None
  {
    var argv := [prog] + WordsOf(items);
    assert argv[1..] == WordsOf(items) + [];
    ScanItems(items, [], Start());
    WalkCounts(items, Start());
  }

  /** A valued flag at the very end lacks its value, whatever came before
      it while flags were recognised. */
  lemma MissingValueRefused(prog: string, items: seq<Item>, flag: string)
    requires Readable(items, Start()) && EndOfOptions !in items && IsValuedFlag(flag)
    ensures Cmdline([prog] + WordsOf(items) + [flag]) == None
  {
    var argv := [prog] + WordsOf(items) + [flag];
    assert argv[1..] == WordsOf(items) + [flag];
    ScanItems(items, [flag], Start());
    WalkCounts(items, Start());
  }

  /** An unknown flag, `-` alone included, is refused wherever it appears
      before `--`: after options, after the DSP file, or between them. */
  lemma UnknownFlagRefused(prog: string, items: seq<Item>, flag: string, rest: seq<string>)
    requires Readable(items, Start()) && EndOfOptions !in items && IsUnknownFlag(flag)
    ensures Cmdline([prog] + WordsOf(items) + [flag] + rest) == None
  {
    var argv := [prog] + WordsOf(items) + [flag] + rest;
    assert argv[1..] == WordsOf(items) + ([flag] + rest);
    ScanItems(items, [flag] + rest, Start());
    WalkCounts(items, Start());
  }

  /** A second positional argument is refused, before `--` or after it,
      whatever options come between the two. */
  lemma SecondFileRefused(prog: string, items: seq<Item>, other: string, rest: seq<string>)
    requires Readable(items, Start()) && |Positionals(items)| == 1
    requires EndOfOptions in items || other == "" || other[0] != '-'
    ensures Cmdline([prog] + WordsOf(items) + [other] + rest) == None
  {
    var argv := [prog] + WordsOf(items) + [other] + rest;
    assert argv[1..] == WordsOf(items) + ([other] + rest);
    ScanItems(items, [other] + rest, Start());
    WalkCounts(items, Start());
  }
}
