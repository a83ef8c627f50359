/** `call_faust` and `mktempdir` (call_faust.cpp): the workspace directory,
    the file paths and the command line of the compiler run, and the
    sequence of steps that yields the report. The compiler run, the report
    loader and the reading of the generated source are parameters of the
    model; `mkdir` works on a modelled set of existing directories. */
module Invocation {
  import opened Text
  import opened Report
  import opened Scrape

  // ---------------------------------------------------------------------
  // mktempdir

  type Uint32 = x: int | 0 <= x < 0x1_0000_0000

  /** The 32 characters of the suffix alphabet. */
  const Alphabet: string := "0123456789abcdefghijklmnopqrstuv"

  function Pow32(k: nat): (r: nat)
    ensures r >= 1
  {
    if k == 0 then 1 else 32 * Pow32(k - 1)
  }

  /** `(number >> (5 * i)) & 31`, for an unsigned number. */
  function Digit(n: nat, i: nat): (d: nat)
    ensures d < 32
  {
    (n / Pow32(i)) % 32
  }

  /** The last `k` characters written: the digit of rank `k - 1` first. */
  function SuffixOf(n: nat, k: nat): (s: string)
    ensures |s| == k && forall j :: 0 <= j < k ==> s[j] == Alphabet[Digit(n, k - 1 - j)]
  {
    if k == 0 then [] else [Alphabet[Digit(n, k - 1)]] + SuffixOf(n, k - 1)
  }

  /** The six characters `mktempdir` writes over the end of the template. */
  function Suffix(n: Uint32): (s: string)
    ensures |s| == 6
  {
    SuffixOf(n, 6)
  }

  /** The position of a suffix character in the alphabet. */
  function AlphabetIndex(c: char): nat {
    if '0' <= c <= '9' then (c as int) - ('0' as int)
    else if 'a' <= c <= 'v' then (c as int) - ('a' as int) + 10
    else 0
  }

  lemma AlphabetIndexOf(d: nat)
    requires d < 32
    ensures AlphabetIndex(Alphabet[d]) == d
  {
  }

  /** The number a suffix spells, most significant character first. */
  function SuffixValue(s: string): nat {
    if s == [] then 0 else AlphabetIndex(s[0]) * Pow32(|s| - 1) + SuffixValue(s[1..])
  }

  lemma MulAtLeast(k: int, m: int)
    requires k >= 1 && m > 0
    ensures k * m >= m
  {
  }

  lemma ModUnique(n: int, m: int, q: int, r: int)
    requires m > 0 && 0 <= r < m && n == q * m + r
    ensures n % m == r
  {
    var q', r' := n / m, n % m;
    assert (q - q') * m == r' - r;
    if q - q' >= 1 {
      MulAtLeast(q - q', m);
    } else if q - q' <= -1 {
      MulAtLeast(q' - q, m);
    }
  }

  lemma Regroup(q2: int, d: int, a: int)
    ensures (q2 * 32 + d) * a == q2 * (32 * a) + d * a
  {
  }

  lemma DigitBound(d: int, a: int)
    requires 0 <= d < 32 && a >= 1
    ensures 0 <= d * a <= 31 * a
  {
  }

  /** One more base-32 digit: `n mod 32a` is the digit above `a` and
      `n mod a`. */
  lemma ModNextDigit(n: nat, a: nat)
    requires a >= 1
    ensures n % (32 * a) == ((n / a) % 32) * a + n % a
  {
    var q, r := n / a, n % a;
    var q2, d := q / 32, q % 32;
    Regroup(q2, d, a);
    DigitBound(d, a);
    assert n == q2 * (32 * a) + (d * a + r);
    ModUnique(n, 32 * a, q2, d * a + r);
  }

  lemma {:induction false} SuffixOfValue(n: nat, k: nat)
    ensures SuffixValue(SuffixOf(n, k)) == n % Pow32(k)
  {
    if k > 0 {
      var s := SuffixOf(n, k);
      assert s[1..] == SuffixOf(n, k - 1);
      SuffixOfValue(n, k - 1);
      AlphabetIndexOf(Digit(n, k - 1));
      ModNextDigit(n, Pow32(k - 1));
    } else {
      assert n % 1 == 0;
    }
  }

  /** The suffix spells the low 30 bits of the drawn number. */
  lemma SuffixRoundTrip(n: Uint32)
    ensures SuffixValue(Suffix(n)) == n % 0x4000_0000
  {
    SuffixOfValue(n, 6);
    assert Pow32(6) == 0x4000_0000;
  }

  /** Draws that differ in their low 30 bits give different names. */
  lemma DistinctDrawsDistinctSuffixes(a: Uint32, b: Uint32)
    requires a % 0x4000_0000 != b % 0x4000_0000
    ensures Suffix(a) != Suffix(b)
  {
    SuffixRoundTrip(a);
    SuffixRoundTrip(b);
  }

  const EEXIST: int := 17
  const EACCES: int := 13

  /** The directories `mkdir` sees: those that exist, and those it refuses
      to create for another reason than existence. */
  class FileSystem {
    var dirs: set<string>
    const refused: set<string>

    constructor(dirs0: set<string>, refused0: set<string>)
      ensures dirs == dirs0 && refused == refused0
    {
      dirs := dirs0;
      refused := refused0;
    }

    /** `mkdir(path, 0700)`, returning its result and `errno`. */
    method MkDir(path: string) returns (ret: int, errno: int)
      modifies this
      ensures path in old(dirs) ==> ret == -1 && errno == EEXIST && dirs == old(dirs)
      ensures path !in old(dirs) && path in refused ==> ret == -1 && errno == EACCES && dirs == old(dirs)
      ensures path !in old(dirs) && path !in refused ==> ret == 0 && dirs == old(dirs) + {path}
    {
      if path in dirs {
        return -1, EEXIST;
      }
      if path in refused {
        return -1, EACCES;
      }
      dirs := dirs + {path};
      return 0, 0;
    }
  }

  /** One try's overwrite of the last six characters of the template. */
  method WriteSuffix(tmp: array<char>, number: Uint32)
    requires tmp.Length >= 6
    modifies tmp
    ensures tmp[..] == old(tmp[..tmp.Length - 6]) + Suffix(number)
  {
    var len := tmp.Length;
    ghost var prefix := tmp[..len - 6];
    for i := 0 to 6
      invariant tmp[..len - 6] == prefix
      invariant forall k :: 0 <= k < i ==> tmp[len - 1 - k] == Alphabet[Digit(number, k)]
    {
      tmp[len - 1 - i] := Alphabet[(number / Pow32(i)) % 32];
    }
    assert tmp[len - 6..] == Suffix(number);
    assert tmp[..] == tmp[..len - 6] + tmp[len - 6..];
  }

  /** `mktempdir(tmp)`: each try overwrites the last six characters of the
      template in place with the suffix of the next drawn number and calls
      `mkdir`; it tries again only when the name exists. The numbers of
      `std::minstd_rand` are the parameter `draws`; the source retries for
      as long as names exist, the model until the draws run out (-1). */
  method MkTempDir(tmp: array<char>, draws: seq<Uint32>, fs: FileSystem) returns (ret: int, tries: nat)
    requires tmp.Length >= 6
    modifies tmp, fs
    ensures ret == 0 || ret == -1
    ensures tries <= |draws|
    ensures tmp[..tmp.Length - 6] == old(tmp[..tmp.Length - 6])
    ensures tries > 0 ==> tmp[tmp.Length - 6..] == Suffix(draws[tries - 1])
    ensures forall j :: 0 <= j < tries - 1 ==> old(tmp[..tmp.Length - 6]) + Suffix(draws[j]) in old(fs.dirs)
    ensures ret == 0 ==> tries > 0 && tmp[..] !in old(fs.dirs) && fs.dirs == old(fs.dirs) + {tmp[..]}
    ensures ret == -1 ==> fs.dirs == old(fs.dirs)
    ensures ret == -1 && tries > 0 && tmp[..] !in old(fs.dirs) ==> tmp[..] in fs.refused
    ensures ret == -1 && (tries == 0 || tmp[..] in old(fs.dirs)) ==> tries == |draws|
  {
    var len := tmp.Length;
    ghost var prefix := tmp[..len - 6];
    ghost var dirs0 := fs.dirs;
    ret := -1;
    tries := 0;
    while ret == -1 && tries < |draws|
      invariant tries <= |draws|
      invariant ret == 0 || ret == -1
      invariant tries == 0 ==> tmp[..len - 6] == prefix
      invariant tries > 0 ==> tmp[..] == prefix + Suffix(draws[tries - 1])
      invariant forall j :: 0 <= j < tries - 1 ==> prefix + Suffix(draws[j]) in dirs0
      invariant ret == -1 ==> fs.dirs == dirs0 && (tries > 0 ==> tmp[..] in dirs0)
      invariant ret == 0 ==> tries > 0 && tmp[..] !in dirs0 && fs.dirs == dirs0 + {tmp[..]}
      decreases |draws| - tries, ret + 1
    {
      var errno;
      ret, errno := Attempt(tmp, draws[tries], fs);
      tries := tries + 1;
      if ret == -1 && errno != EEXIST {
        SplitName(prefix, Suffix(draws[tries - 1]));
        return -1, tries;
      }
    }
    if tries > 0 {
      SplitName(prefix, Suffix(draws[tries - 1]));
    }
  }

  /** One try: write the suffix, then `mkdir` the name. */
  method Attempt(tmp: array<char>, number: Uint32, fs: FileSystem) returns (ret: int, errno: int)
    requires tmp.Length >= 6
    modifies tmp, fs
    ensures tmp[..] == old(tmp[..tmp.Length - 6]) + Suffix(number)
    ensures ret == 0 || ret == -1
    ensures ret == -1 && errno == EEXIST ==> tmp[..] in old(fs.dirs) && fs.dirs == old(fs.dirs)
    ensures ret == -1 && errno != EEXIST ==> tmp[..] !in old(fs.dirs) && tmp[..] in fs.refused && fs.dirs == old(fs.dirs)
    ensures ret == 0 ==> tmp[..] !in old(fs.dirs) && fs.dirs == old(fs.dirs) + {tmp[..]}
  {
    WriteSuffix(tmp, number);
    ret, errno := fs.MkDir(tmp[..]);
  }

  lemma SplitName(prefix: string, suffix: string)
    requires |suffix| == 6
    ensures (prefix + suffix)[..|prefix|] == prefix && (prefix + suffix)[|prefix|..] == suffix
  {
  }

  // ---------------------------------------------------------------------
  // Paths and the command line

  /** The template `P_tmpdir "/faustXXXXXX"`, with `P_tmpdir` taken as "/tmp". */
  const WorkdirTemplate: string := "/tmp/faustXXXXXX"

  /** The position of the last '/', as `rfind('/')` finds it. */
  function LastSlash(path: string): (r: Option<nat>)
    ensures r.Some? ==> r.value < |path| && path[r.value] == '/'
    ensures r.Some? ==> forall j :: r.value < j < |path| ==> path[j] != '/'
    ensures r.None? ==> forall j :: 0 <= j < |path| ==> path[j] != '/'
  {
    if path == [] then None
    else if path[|path| - 1] == '/' then Some(|path| - 1)
    else LastSlash(path[..|path| - 1])
  }

  /** The part of the path after its last '/', the whole path without one. */
  function BaseName(path: string): (b: string)
    ensures '/' !in b
    ensures |b| <= |path| && path[|path| - |b|..] == b
    ensures |b| == |path| || path[|path| - |b| - 1] == '/'
  {
    match LastSlash(path)
    case None => path
    case Some(i) => path[i + 1..]
  }

  function CppBase(dspfile: string): string {
    BaseName(dspfile) + ".cpp"
  }

  function XmlFile(workdir: string, dspfile: string): string {
    workdir + "/" + BaseName(dspfile) + ".xml"
  }

  function CppFile(workdir: string, dspfile: string): string {
    workdir + "/" + CppBase(dspfile)
  }

  /** The options `main` collects for the compiler. `miscargs` is read by
      `call_faust` but never filled from the command line. */
  datatype FaustArgs = FaustArgs(classname: string, processname: string, incdirs: seq<string>, miscargs: seq<string>)

  /** An entry of the `char *` vector: a string, or the terminating null. */
  datatype Arg = Str(s: string) | Null

  function IncludeArgs(dirs: seq<string>): (r: seq<Arg>)
    ensures |r| == 2 * |dirs|
    ensures forall k :: 0 <= k < |dirs| ==> r[2 * k] == Str("-I") && r[2 * k + 1] == Str(dirs[k])
  {
    if dirs == [] then []
    else
      var r := IncludeArgs(dirs[..|dirs| - 1]) + [Str("-I"), Str(dirs[|dirs| - 1])];
      assert forall k :: 0 <= k < |dirs| - 1 ==> dirs[..|dirs| - 1][k] == dirs[k];
      r
  }

  function StrArgs(args: seq<string>): (r: seq<Arg>)
    ensures |r| == |args| && forall k :: 0 <= k < |args| ==> r[k] == Str(args[k])
  {
    seq(|args|, k requires 0 <= k < |args| => Str(args[k]))
  }

  /** `-cn name`/`-pn name`, present only when the name is not empty. */
  function NamedArg(flag: string, name: string): seq<Arg> {
    if name != "" then [Str(flag), Str(name)] else []
  }

  /** The fixed head of the compiler command line; `FAUST`, when it is set,
      replaces the program name. */
  function ArgvHead(workdir: string, dspfile: string, faustEnv: Option<string>): seq<Arg> {
    [Str(faustEnv.GetOr("faust")), Str("-double"), Str("-xml"), Str("-O"), Str(workdir),
     Str("-o"), Str(CppBase(dspfile)), Str(dspfile)]
  }

  /** What follows the include directories: the names, the other arguments
      and the terminating null. */
  function OptionArgs(args: FaustArgs): seq<Arg> {
    NamedArg("-cn", args.classname) + (NamedArg("-pn", args.processname) + (StrArgs(args.miscargs) + [Null]))
  }

  /** `fargv` as `call_faust` hands it to `execute`. */
  function Argv(workdir: string, dspfile: string, args: FaustArgs, faustEnv: Option<string>): seq<Arg> {
    ArgvHead(workdir, dspfile, faustEnv) + (IncludeArgs(args.incdirs) + OptionArgs(args))
  }

  /** The program name is "faust" unless `FAUST` names another one, and
      the input file comes last in the fixed head. */
  lemma ProgramName(workdir: string, dspfile: string, args: FaustArgs, faustEnv: Option<string>)
    ensures var a := Argv(workdir, dspfile, args, faustEnv);
      && a[0] == Str(if faustEnv.Some? then faustEnv.value else "faust")
      && a[4] == Str(workdir) && a[6] == Str(CppBase(dspfile)) && a[7] == Str(dspfile)
  {
  }

  /** The command line starts with the fixed head, then one `-I dir` pair
      per include directory, in order. */
  lemma ArgvIncludes(workdir: string, dspfile: string, args: FaustArgs, faustEnv: Option<string>)
    ensures var a := Argv(workdir, dspfile, args, faustEnv);
      && |a| == 8 + 2 * |args.incdirs| + |OptionArgs(args)|
      && a[..8] == ArgvHead(workdir, dspfile, faustEnv)
      && (forall k :: 0 <= k < |args.incdirs| ==> a[8 + 2 * k] == Str("-I") && a[9 + 2 * k] == Str(args.incdirs[k]))
      && a[8 + 2 * |args.incdirs|..] == OptionArgs(args)
  {
    var head := ArgvHead(workdir, dspfile, faustEnv);
    Concat3(head, IncludeArgs(args.incdirs), OptionArgs(args));
    IncludesAfterHead(head, args.incdirs, OptionArgs(args));
  }

  /** The `-I` pairs sit right after an eight-argument head. */
  lemma IncludesAfterHead(head: seq<Arg>, dirs: seq<string>, t: seq<Arg>)
    requires |head| == 8
    ensures var a := head + (IncludeArgs(dirs) + t);
      forall k :: 0 <= k < |dirs| ==> a[8 + 2 * k] == Str("-I") && a[9 + 2 * k] == Str(dirs[k])
  {
    var inc := IncludeArgs(dirs);
    var a := head + (inc + t);
    Concat3(head, inc, t);
    forall k | 0 <= k < |dirs|
      ensures a[8 + 2 * k] == Str("-I") && a[9 + 2 * k] == Str(dirs[k])
    {
      var j := 2 * k;
      assert inc[j] == Str("-I") && inc[j + 1] == Str(dirs[k]);
      assert a[|head| + j] == inc[j] && a[|head| + (j + 1)] == inc[j + 1];
    }
  }

  lemma Concat3<T>(h: seq<T>, m: seq<T>, t: seq<T>)
    ensures var a := h + (m + t);
      && |a| == |h| + |m| + |t| && a[..|h|] == h && a[|h| + |m|..] == t
      && forall k :: 0 <= k < |m| ==> a[|h| + k] == m[k]
  {
    var a := h + (m + t);
    assert a[|h|..] == m + t;
  }

  /** After the include directories: `-cn`/`-pn` with their names only when
      those are given, the other arguments in order, and a single null,
      which ends the vector. */
  lemma OptionArgsLayout(args: FaustArgs)
    ensures var o := OptionArgs(args);
      var m := (if args.classname != "" then 2 else 0) + (if args.processname != "" then 2 else 0);
      && |o| == m + |args.miscargs| + 1
      && (args.classname != "" ==> o[0] == Str("-cn") && o[1] == Str(args.classname))
      && (args.processname != "" ==> o[m - 2] == Str("-pn") && o[m - 1] == Str(args.processname))
      && (forall k :: 0 <= k < |args.miscargs| ==> o[m + k] == Str(args.miscargs[k]))
      && o[|o| - 1] == Null
      && (forall k :: 0 <= k < |o| - 1 ==> o[k].Str?)
  {
  }

  /** The fixed head with `FAUST` applied, then the `push_back` calls. */
  method BuildArgv(workdir: string, dspfile: string, args: FaustArgs, faustEnv: Option<string>) returns (fargv: seq<Arg>)
    ensures fargv == Argv(workdir, dspfile, args, faustEnv)
  {
    var cppfilebase := BaseName(dspfile) + ".cpp";
    var head := [Str("faust"), Str("-double"), Str("-xml"), Str("-O"), Str(workdir), Str("-o"), Str(cppfilebase), Str(dspfile)];
    if faustEnv.Some? {
      head := head[0 := Str(faustEnv.value)];
    }
    assert head == ArgvHead(workdir, dspfile, faustEnv);
    var incs := IncludePairs(args.incdirs);
    var rest := MiscArgs(args.miscargs);
    var pn := if args.processname != "" then [Str("-pn"), Str(args.processname)] else [];
    var cn := if args.classname != "" then [Str("-cn"), Str(args.classname)] else [];
    var opts := cn + (pn + rest);
    assert opts == OptionArgs(args);
    fargv := head + (incs + opts);
  }

  method IncludePairs(dirs: seq<string>) returns (r: seq<Arg>)
    ensures r == IncludeArgs(dirs)
  {
    r := [];
    for k := 0 to |dirs|
      invariant r == IncludeArgs(dirs[..k])
    {
      assert dirs[..k + 1][..k] == dirs[..k];
      r := r + [Str("-I"), Str(dirs[k])];
    }
    assert dirs[..|dirs|] == dirs;
  }

  method MiscArgs(misc: seq<string>) returns (r: seq<Arg>)
    ensures r == StrArgs(misc) + [Null]
  {
    r := [];
    for k := 0 to |misc|
      invariant r == StrArgs(misc[..k])
    {
      r := r + [Str(misc[k])];
    }
    assert misc[..|misc|] == misc;
    r := r + [Null];
  }

  // ---------------------------------------------------------------------
  // call_faust

  /** What the model takes from outside: whether `execute(argv)` succeeds
      (spawned, exited, status 0), what `load_file` reads from a path, and
      the lines and final `bad()` state of reading a source file. */
  datatype Toolchain = Toolchain(
    execute: seq<Arg> -> bool,
    load: string -> Option<Document>,
    source: string -> (seq<string>, bool))

  /** `apply_workarounds` as a value. */
  function Workaround(doc: Document, source: (seq<string>, bool)): (r: (int, Document))
    ensures HasMeta(doc) ==> r == (0, doc)
    ensures !HasMeta(doc) ==> r.1 == ApplyLines(doc, VarMap(doc), source.0)
    ensures r.0 == -1 <==> !HasMeta(doc) && source.1
  {
    if HasMeta(doc) then (0, doc)
    else (if source.1 then -1 else 0, ApplyLines(doc, VarMap(doc), source.0))
  }

  /** What `call_faust` does once the workspace exists: the result and the
      document. A failed load leaves no document. */
  function Compile(workdir: string, dspfile: string, args: FaustArgs, faustEnv: Option<string>, tc: Toolchain): (int, Document) {
    if !tc.execute(Argv(workdir, dspfile, args, faustEnv)) then (-1, EmptyDocument())
    else
      match tc.load(XmlFile(workdir, dspfile))
      case None => (-1, EmptyDocument())
      case Some(d) => Workaround(d, tc.source(CppFile(workdir, dspfile)))
  }

  /** `call_faust(dspfile, docmd, faustargs)`: 1 when no workspace could be
      made, otherwise the result of compiling in the new workspace. */
  method CallFaust(dspfile: string, args: FaustArgs, faustEnv: Option<string>, tc: Toolchain,
                   draws: seq<Uint32>, fs: FileSystem)
    returns (rc: int, doc: Document, ghost workdir: string)
    modifies fs
    ensures rc == 1 ==> doc == EmptyDocument() && fs.dirs == old(fs.dirs)
    ensures rc != 1 ==> (rc, doc) == Compile(workdir, dspfile, args, faustEnv, tc)
    ensures rc != 1 ==> exists j :: 0 <= j < |draws| && workdir == "/tmp/faust" + Suffix(draws[j])
    ensures rc != 1 ==> workdir !in old(fs.dirs) && fs.dirs == old(fs.dirs) + {workdir}
    ensures rc == 1 || rc == 0 || rc == -1
  {
    var tmp := NewWorkdirBuffer();
    var made, tries := MkTempDir(tmp, draws, fs);
    var dir := tmp[..];
    workdir := dir;
    doc := EmptyDocument();
    if made == -1 {
      return 1, doc, workdir;
    }
    WorkdirName(dir, Suffix(draws[tries - 1]));
    assert 0 <= tries - 1 < |draws| && dir == "/tmp/faust" + Suffix(draws[tries - 1]);
    rc, doc := CompileIn(dir, dspfile, args, faustEnv, tc);
  }

  /** The buffer `mktempdir` works on, holding the template. */
  method NewWorkdirBuffer() returns (tmp: array<char>)
    ensures fresh(tmp) && tmp[..] == WorkdirTemplate
    ensures tmp.Length == 16 && tmp[..10] == "/tmp/faust"
  {
    tmp := new char[|WorkdirTemplate|](i requires 0 <= i < |WorkdirTemplate| => WorkdirTemplate[i]);
  }

  /** A workspace name is the fixed prefix and the suffix written after it. */
  lemma WorkdirName(dir: string, suffix: string)
    requires |dir| == 16 && dir[..10] == "/tmp/faust" && dir[10..] == suffix
    ensures dir == "/tmp/faust" + suffix
  {
    assert dir == dir[..10] + dir[10..];
  }

  /** The steps after `mktempdir`: run the compiler, load its report and
      apply the workarounds. */
  method CompileIn(workdir: string, dspfile: string, args: FaustArgs, faustEnv: Option<string>, tc: Toolchain)
    returns (rc: int, doc: Document)
    ensures (rc, doc) == Compile(workdir, dspfile, args, faustEnv, tc)
  {
    var xmlfile := XmlFile(workdir, dspfile);
    var cppfile := CppFile(workdir, dspfile);
    var fargv := BuildArgv(workdir, dspfile, args, faustEnv);
    doc := EmptyDocument();
    if !tc.execute(fargv) {
      return -1, doc;
    }
    var loaded := tc.load(xmlfile);
    if loaded.None? {
      return -1, doc;
    }
    var src := tc.source(cppfile);
    var ret;
    ret, doc := ApplyWorkarounds(loaded.value, src.0, src.1);
    assert (ret, doc) == Workaround(loaded.value, src);
    rc := if ret == -1 then -1 else 0;
  }
}
