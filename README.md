# faustmd, modelled in Dafny

faustmd compiles a Faust DSP file. It runs the `faust` compiler with `-xml` in a fresh temporary directory and loads the XML report the compiler writes. When that report has no `meta` element, it scrapes the declarations from the generated C++ source instead. It then extracts a `Metadata` record and writes a C++ header on standard output. The header holds:

- the record's fields;
- the global metadata;
- one array per widget property, for active controls and for passive displays;
- accessor functions.

This project models that core and proves what it does. It covers:

- the literal escaping of `cstrlit` and its inverse `parse_cstrlit`;
- the identifier mangling and the name tables;
- the extraction of the record from the report tree;
- the source-scrape workaround;
- the compiler command line and the temporary-directory naming;
- the command-line parser;
- the structure of the header;
- the stage sequencing of `main`.

Modules, in dependency order:

| module | file | models |
|---|---|---|
| `Text` | text.dfy | `Option`, character classes |
| `MetadataModel` | metadata_model.dfy | `Metadata`, `Widget` and the two enumerations (metadata.h) |
| `Report` | report.dfy | the pugixml tree, reduced to the elements the program reads |
| `Names` | names.dfy | `is_decint_string`, `mangle`, the `type_from_name`/`scale_from_name` tables and their `operator<<` |
| `Numbers` | numbers.dfy | `std::stoi` in base 10, and the decimal printing of integers |
| `Literals` | literals.dfy | `cstrlit` and `parse_cstrlit` |
| `Extraction` | extraction.dfy | `extract_metadata` and `extract_widget` |
| `Header` | header.dfy | `dump_metadata` and `dump_widgets` |
| `Scrape` | scrape.dfy | `apply_workarounds`, with hand-written recognisers for its two line patterns |
| `Invocation` | invocation.dfy | `mktempdir`, paths, the compiler's argument vector, `call_faust` |
| `Cli` | cli.dfy | `do_cmdline` |
| `Processing` | processing.dfy | `process_document` |
| `Pipeline` | pipeline.dfy | `main` |

How the model represents a few things:

- **Outcomes.** Extraction ends in one of three ways. `Done` carries a value. `Fail` is the `-1` return. `Abort` is an exception from `std::stoi` or `std::stof` that nothing catches.
- **Imperative code.** Code that builds values with loops becomes a method. The method is proved equal to a specification function, and the properties are lemmas about that function.
- **`mktempdir`.** It keeps its in-place `char` buffer as an `array<char>`. `mkdir` is a method of a `FileSystem` class whose field `dirs` is the modelled set of existing directories.
- **Bytes.** A Dafny `char` stands for one byte (`char`) of a `std::string`. The model does no encoding or decoding.
- **Tools outside the model.** The compiler run, the XML loader, reading the generated source, `std::stof` and float printing are parameters of the model.

## Model

| member | source | states |
|---|---|---|
| MetadataModel.NewWidget | metadata.h:28-42 | a fresh widget has id 0, all four numeric fields 0, empty strings and metadata, and scale Linear |
| MetadataModel.EmptyMetadata | metadata.h:13-23 | a fresh record has inputs and outputs 0 and no metadata or widgets |
| Names.IsDecIntString | metadata.cpp:15-29 | true exactly for one optional leading '-' followed by one or more ASCII digits (so "" and "-" are false) |
| Names.InterpretedKeysAreNotDecInt | metadata.cpp:102-116 | the keys unit, scale and tooltip are never dropped as decimal-integer keys |
| Names.Mangled | metadata.cpp:357-372 | same length; only `[A-Za-z0-9_]`; never a digit first; letters kept everywhere, digits kept except at index 0, every other character `_` |
| Names.Mangle | metadata.cpp:357-372 | the push_back loop yields exactly `Mangled(name)` |
| Names.MangledIdempotent | metadata.cpp:363-369 | mangle(mangle(s)) == mangle(s) |
| Names.MangledAccessorName | metadata.cpp:320-326 | `mangle("set_"+label)` keeps the prefix and mangles every label character as a non-leading one |
| Names.AccessorNamesCanCollide | metadata.cpp:318-329 | two different labels ("a b", "a_b") produce the same getter name |
| Names.TypeFromName | metadata.cpp:374-394 | recognised names are exactly the seven printed names, each giving the type that prints it; every other name gives the invalid value |
| Names.TypeNameRoundTrip | metadata.cpp:408-422 | reading back the printed name of any type gives that type |
| Names.ScaleFromName | metadata.cpp:396-406 | only "log" and "exp" are recognised, as Log and Exp; "linear" is not |
| Names.InterpretScale | metadata.cpp:108-113 | the stored scale is Linear exactly when the value is neither "log" nor "exp" |
| Names.ScaleNameRoundTrip | metadata.cpp:424-434 | every printed scale name is read back as that scale, "linear" through the fallback |
| Numbers.StoI | metadata.cpp:43-44 | std::stoi: a successful result fits a 32-bit int; no digit or an out-of-range value is the exception |
| Numbers.StoIDecimal | metadata.cpp:215-219 | an int printed in decimal reads back through std::stoi as itself |
| Numbers.StoIEmpty | metadata.cpp:43 | std::stoi of the empty string throws |
| Literals.CStrLit | metadata.cpp:332-355 | the loop builds `u8"` + each character through the escape table + `"`, i.e. `Literal(text)` |
| Literals.EscapeBodyAppend | metadata.cpp:339-351 | escaping works character by character: the escape of a concatenation is the concatenation of escapes |
| Literals.ParseCStrLit | call_faust.cpp:89-118 | true exactly when `ParseLit` accepts; on success dst gains the decoded text; on a bad quote dst is unchanged; after a dangling backslash dst keeps what was decoded before it |
| Literals.UnescapePlain | call_faust.cpp:95-98 | a body without backslashes is copied unchanged |
| Literals.UnescapeCompleteIff | call_faust.cpp:95-101 | decoding fails inside the body exactly when the body ends in an odd number of backslashes |
| Literals.ParseLitRejects | call_faust.cpp:91-101 | rejected exactly when shorter than 2, not quoted at both ends, or when an escaping backslash precedes the closing quote |
| Literals.EscapeLetterRoundTrip | call_faust.cpp:103-113 | every escape letter cstrlit writes decodes to the character it escaped |
| Literals.UnescapeEscape | call_faust.cpp:95-117 | decoding the escaped body of any text gives the text back, NUL included |
| Literals.LiteralRoundTrip | call_faust.cpp:89-118 | parse_cstrlit of cstrlit(s) without its `u8` prefix succeeds with exactly s |
| Literals.NulEscapes | call_faust.cpp:104 | cstrlit leaves NUL raw, while parse_cstrlit accepts `\0` as NUL |
| Extraction.InterpretMetaEffect | metadata.cpp:99-117 | one meta pair: an ignorable one changes nothing; any other is appended and sets unit, scale or tooltip by its key; no other field changes |
| Extraction.InterpretAllEffect | metadata.cpp:99-117 | the loop appends exactly the kept pairs, in order; the last unit/scale/tooltip wins; fixed fields unchanged |
| Extraction.KeptPairsContents | metadata.cpp:102-104 | a pair survives iff it is not (decimal-integer key, empty value); order kept; with nothing ignorable all pairs are kept |
| Extraction.Groups | metadata.cpp:76-97 | each kind falls in exactly one branch: active kinds are continuous or discrete, passive kinds are bar graphs |
| Extraction.WidgetOfFails | metadata.cpp:65-97 | -1 exactly for an unknown kind, or (once the id is read) a kind outside its group |
| Extraction.WidgetOfDone | metadata.cpp:65-119 | an extracted widget: kind and id as read, label/varname copied, empty symbol, buttons/checkboxes 0/0/1/1, sliders/entries the four parsed floats, bar graphs min/max parsed with init=step=0, meta as the loop interprets it |
| Extraction.ExtractWidget | metadata.cpp:65-121 | success appends the widget to its group; -1 leaves the record unchanged; a parse exception aborts |
| Extraction.ReadWidget | metadata.cpp:67-97 | the type check, std::stoi of the id and the group branches give exactly `BaseWidget` (the statement form of `Extraction.BaseWidget`, whose properties are the lemmas in the other rows) |
| Extraction.InterpretMetaLoop | metadata.cpp:99-117 | the meta loop computes `InterpretAll` |
| Extraction.CollectDone | metadata.cpp:52-60 | a widget loop succeeds iff every step does, giving the values in order |
| Extraction.CollectFirstFailure | metadata.cpp:52-60 | a widget loop fails as its first failing step does |
| Extraction.WidgetsDone | metadata.cpp:52-60 | a group extracts iff each of its widgets does, one widget per element, same order |
| Extraction.WidgetsFirstFailure | metadata.cpp:52-60 | a group stops at its first failing widget and fails the way that widget fails |
| Extraction.WidgetsSnoc | metadata.cpp:52-60 | one more element extends the group's outcome by that widget's outcome |
| Extraction.FirstFailureOfGroup | metadata.cpp:52-60 | after a successful prefix, the failing widget decides the group's outcome |
| Extraction.MetaPairs | metadata.cpp:46-50 | one pair per root meta element, in document order, none dropped |
| Extraction.ToUnsigned | metadata.cpp:43-44 | the int of std::stoi stored in an `unsigned`: kept when non-negative, 2^32 added when negative |
| Extraction.ExtractParts | metadata.cpp:33-63 | a successful extraction read both counts and both groups, and holds the global pairs and the two extracted groups |
| Extraction.ExtractShape | metadata.cpp:46-60 | global pairs as written, and one widget per element of each group at the same position |
| Extraction.GroupKinds | metadata.cpp:52-60 | every widget of an extracted group has that group's kind and an empty symbol |
| Extraction.ExtractKinds | metadata.cpp:33-63 | in an extracted record active widgets are active kinds, passive ones bar graphs, and no symbol is set |
| Extraction.UnknownKindFails | metadata.cpp:52-70 | an unknown active kind after successful earlier widgets makes the whole extraction return -1 |
| Extraction.UnknownPassiveKindFails | metadata.cpp:52-70 | an unknown passive kind, after every active widget and the earlier passive ones succeed, makes the whole extraction return -1 |
| Extraction.ExtractMetadata | metadata.cpp:33-63 | the method's status and record agree with `Extract`: Ok with its record, -1, or an exception |
| Extraction.ExtractGroup | metadata.cpp:52-60 | the loop over one group appends exactly the extracted widgets, or stops as the first failing widget does |
| Extraction.CopyMeta | metadata.cpp:46-50 | the global meta loop yields `MetaPairs` |
| Header.JoinShape | metadata.cpp:210-213 | a joined array body is as long as its entries plus two characters per separator, starts with the first entry and ends with the last |
| Header.JoinSplit | metadata.cpp:210-213 | at every boundary between two adjacent entries the joined body splits into the joined parts with exactly one ", " between them |
| Header.JoinEntries | metadata.cpp:209-213 | the separator loop yields the entries joined by ", " |
| Header.PairEntries | metadata.cpp:179-182 | one `{key, value}` entry per pair, in order |
| Header.EmitPairs | metadata.cpp:177-183 | the global metadata loop writes the joined pair entries |
| Header.Cells | metadata.cpp:211-212 | an array has one entry per widget, in record order |
| Header.EmitCell | metadata.cpp:211-302 | each loop body computes the widget's entry for that array (the statement form of `Header.Cell`, whose properties are the lemmas in the other rows) |
| Header.EmitColumn | metadata.cpp:209-213 | one array: declaration, then exactly `Join(Cells(...))`, then `};` |
| Header.EmitArrays | metadata.cpp:209-303 | the fourteen arrays, in source order, with the blank lines between them |
| Header.LiteralCellsReadBack | metadata.cpp:221-281 | the label, symbol, unit and tooltip entries parse back to the widget's label, mangled label, unit and tooltip |
| Header.IntegerCellsReadBack | metadata.cpp:215-302 | the id and metadata-size entries read back through std::stoi as the id and the pair count |
| Header.NameCellsReadBack | metadata.cpp:271-275 | the type and scale entries name the widget's type and scale |
| Header.MetadataSizeMatches | metadata.cpp:285-303 | `_metadata_size[i]` is the number of pairs in the widget's `_metadata` entry |
| Header.Setters | metadata.cpp:318-324 | one setter per widget, in order |
| Header.Getters | metadata.cpp:325-329 | one getter per widget, in order |
| Header.AccessorsShape | metadata.cpp:318-329 | setters only for the active group, getters for both, one per widget, in order, no deduplication |
| Header.AccessorNames | metadata.cpp:320-326 | accessor names start with set_/get_ and are C identifiers |
| Header.EmitSetters | metadata.cpp:318-324 | the setter loop writes `Setters` |
| Header.EmitGetters | metadata.cpp:325-329 | the getter loop writes `Getters` |
| Header.GroupLinesLength | metadata.cpp:204-330 | a group writes 17 array lines, 2 or 3 indexed-accessor lines, one getter per widget and one setter per active widget |
| Header.DumpWidgets | metadata.cpp:204-330 | dump_widgets writes the arrays, then the indexed accessors, then the named accessors |
| Header.DumpMetadata | metadata.cpp:162-191 | dump_metadata writes the field lines, the global metadata, then the active group and the passive group |
| Header.HeaderLength | metadata.cpp:162-191 | the modelled part of the header has 53 fixed lines plus two per active widget and one per passive widget |
| Header.HeaderCounts | metadata.cpp:170-171 | the actives and passives lines state the two group sizes |
| Scrape.ScanLitComplete | call_faust.cpp:144 | a literal the string pattern accepts has one extent, whatever follows it |
| Scrape.StrLitParses | call_faust.cpp:161-174 | every literal the pattern captures is accepted by parse_cstrlit |
| Scrape.QuotedAccepted | call_faust.cpp:144 | what cstrlit writes (prefix aside) matches the string pattern and decodes back to the text |
| Scrape.MatchGlobal | call_faust.cpp:147-148 | whatever is recognised has the global shape, with its two literals |
| Scrape.MatchGlobalComplete | call_faust.cpp:147-148 | every line of the global shape is recognised, with its own literals |
| Scrape.MatchControl | call_faust.cpp:149-151 | whatever is recognised has the per-widget shape, with its identifier and literals |
| Scrape.MatchControlComplete | call_faust.cpp:149-151 | every line of the per-widget shape is recognised, with its own parts |
| Scrape.ShapesAreExclusive | call_faust.cpp:158-169 | no line has both shapes, so the order of the two tests does not matter |
| Scrape.VarMapLookup | call_faust.cpp:132-136 | a name is mapped iff some widget has it; a passive widget wins over an active one, a later widget of a group over earlier ones |
| Scrape.VarMapValid | call_faust.cpp:132-136 | every map entry points to a widget carrying that varname |
| Scrape.BuildVarMap | call_faust.cpp:132-136 | the two loops build `VarMap` |
| Scrape.CStr | call_faust.cpp:165-166 | a `c_str()` copy keeps a prefix of the text, with no NUL, and stops exactly at the first NUL |
| Scrape.AddMeta | call_faust.cpp:164-166 | the root gains the pair, each cut at its first NUL, at the end of its meta; nothing else changes |
| Scrape.AddWidgetMeta | call_faust.cpp:178-180 | the mapped widget gains the pair, each cut at its first NUL, at the end of its meta; nothing else changes |
| Scrape.CStrWithoutNul | call_faust.cpp:165-166 | text without a NUL is stored whole |
| Scrape.NulEndsScrapedValue | call_faust.cpp:159-166 | a declared value whose quoted text starts with a raw NUL byte (as `cstrlit` writes it) is stored as the empty text |
| Scrape.EscapedNulScrapedEmpty | call_faust.cpp:159-166 | a declared value written as the escape `"\0"` decodes to one NUL and is stored as the empty text |
| Scrape.ApplyLine | call_faust.cpp:156-183 | one line only appends (never replaces or removes, no scalar changes) |
| Scrape.GlobalLineClassified | call_faust.cpp:158-163 | a global line written with cstrlit quoting is classified with exactly its key and value |
| Scrape.GlobalLineScraped | call_faust.cpp:158-168 | such a line appends exactly that pair, each cut at its first NUL, to the root |
| Scrape.ControlLineClassified | call_faust.cpp:169-175 | a per-widget line is classified with its varname, key and value |
| Scrape.ControlLineScraped | call_faust.cpp:169-183 | such a line appends the pair, each cut at its first NUL, to the mapped widget, or is dropped when the varname is unknown |
| Scrape.ApplyLinesExtends | call_faust.cpp:140-184 | the whole scrape only appends entries |
| Scrape.ApplyWorkarounds | call_faust.cpp:120-191 | a document with any meta is unchanged with 0; otherwise every line is applied, and -1 exactly when the stream went bad |
| Scrape.ScrapeLine | call_faust.cpp:156-183 | one loop iteration computes `ApplyLine` |
| Scrape.DecodePair | call_faust.cpp:161-162 | both decodes succeed iff both literals parse, giving their texts |
| Scrape.DecodeGlobal | call_faust.cpp:159-163 | a matched global line is kept exactly when both literals decode (the statement form of `Scrape.GlobalDeclOf`, whose properties are the lemmas in the other rows) |
| Scrape.DecodeControl | call_faust.cpp:170-175 | a matched per-widget line is kept exactly when both literals decode (the statement form of `Scrape.ControlDeclOf`, whose properties are the lemmas in the other rows) |
| Scrape.ClassifyLine | call_faust.cpp:156-175 | the two tests and decodes compute `Classify` (the statement form of `Scrape.Classify`, whose properties are the lemmas in the other rows) |
| Scrape.EmptyLineIgnored | call_faust.cpp:140-142 | the empty line left by the final failing read adds nothing |
| Invocation.SuffixOf | call_faust.cpp:229-230 | the character written at `len-1-i` is `alphabet[(number >> 5i) & 31]` |
| Invocation.Suffix | call_faust.cpp:229-230 | exactly six characters are written |
| Invocation.SuffixRoundTrip | call_faust.cpp:227-230 | the suffix spells the low 30 bits of the drawn number in base 32 |
| Invocation.DistinctDrawsDistinctSuffixes | call_faust.cpp:227-230 | draws differing in their low 30 bits give different names |
| Invocation.FileSystem.MkDir | call_faust.cpp:231 | an existing name fails with EEXIST, a refused one with another errno, otherwise the name is created; nothing else changes |
| Invocation.WriteSuffix | call_faust.cpp:229-230 | only the last six characters of the buffer are overwritten, with the suffix |
| Invocation.Attempt | call_faust.cpp:228-233 | one try writes the suffix and calls mkdir, with its three results |
| Invocation.MkTempDir | call_faust.cpp:220-237 | only the last six characters change; retried only on EEXIST; another error gives -1; on success the name did not exist and now does |
| Invocation.LastSlash | call_faust.cpp:31 | the position of the last '/', or none |
| Invocation.BaseName | call_faust.cpp:29-34 | the part after the last '/', the whole path without one |
| Invocation.IncludeArgs | call_faust.cpp:55-58 | one `-I dir` pair per include directory, in order |
| Invocation.ProgramName | call_faust.cpp:41-53 | argv[0] is `FAUST` when set, "faust" otherwise; workdir, cpp base and dsp file in their slots |
| Invocation.ArgvIncludes | call_faust.cpp:41-58 | the fixed head, then the `-I` pairs, then the options |
| Invocation.OptionArgsLayout | call_faust.cpp:60-72 | `-cn`/`-pn` only for non-empty names, the other arguments in order, a single final null |
| Invocation.BuildArgv | call_faust.cpp:41-72 | the push_back sequence yields `Argv` |
| Invocation.IncludePairs | call_faust.cpp:55-58 | the include loop yields `IncludeArgs` |
| Invocation.MiscArgs | call_faust.cpp:69-72 | the remaining arguments, then the null |
| Invocation.Workaround | call_faust.cpp:120-191 | a document with meta is untouched with 0; otherwise scraped; -1 iff no meta and the stream went bad |
| Invocation.CallFaust | call_faust.cpp:22-87 | 1 with nothing done when no workspace can be made; otherwise one new directory `/tmp/faust` + suffix, and the result of compiling there (0 or -1) |
| Invocation.CompileIn | call_faust.cpp:36-86 | a failed run or load gives -1, otherwise the workaround's result (the statement form of `Invocation.Compile`, whose properties are the lemmas in the other rows) |
| Cli.SetOption | main.cpp:61-81 | `-I` appends its value, `-cn`/`-pn` replace theirs, nothing else changes |
| Cli.DoCmdline | main.cpp:51-105 | 0 exactly when the command line is accepted, with the collected arguments, -1 otherwise |
| Cli.ScanItems | main.cpp:59-98 | readable items are scanned one at a time: the scan of their words goes on from the state they lead to |
| Cli.WalkCounts | main.cpp:61-94 | options stay recognised until `--`; every positional argument counts |
| Cli.WalkCmd | main.cpp:61-94 | `-I` values accumulate in order, `-cn`/`-pn` keep the last value given, the DSP file is the last positional argument |
| Cli.AfterEndOfOptions | main.cpp:59-102 | after `--` every argument is positional; accepted iff at most one positional in all |
| Cli.Accepted | main.cpp:51-105 | any readable options, `--` and exactly one file, in any order, are accepted with exactly the values they set |
| Cli.ScanParses | main.cpp:59-98 | a successful scan reads its words as readable items (`ParseItems`), and ends in the state they lead to |
| Cli.AcceptedOnlyIf | main.cpp:51-105 | an accepted command line is readable items with exactly one positional argument, which is the DSP file, and the collected values are the ones those items set |
| Cli.NoFileRefused | main.cpp:99-102 | readable items with no positional argument, `--` or not, are refused |
| Cli.MissingValueRefused | main.cpp:61-80 | a valued flag as the last word before `--` lacks its value and is refused, whatever came before it, the DSP file included |
| Cli.UnknownFlagRefused | main.cpp:82-85 | any other argument starting with '-' before `--`, "-" included, is refused after any readable prefix, the DSP file included |
| Cli.SecondFileRefused | main.cpp:86-94 | a second positional argument is refused, whatever options and `--` come before it or between the two |
| Processing.ProcessDocument | main.cpp:107-120 | the header is written only after the whole extraction succeeded, otherwise -1 or the exception |
| Processing.UnreadableCountsAbort | metadata.cpp:43-44 | unreadable inputs or outputs end processing with an exception |
| Processing.EmptyDocumentAborts | metadata.cpp:35-44 | the empty document has no counts, so processing it throws |
| Pipeline.AfterCompile | main.cpp:32-41 | as written: only -1 from call_faust ends with status 1 |
| Pipeline.WorkspaceFailureTerminates | main.cpp:32-38 | as written, the workspace failure (1) goes on to process the empty document and terminates abnormally |
| Pipeline.AfterCompileChecked | main.cpp:33-36 | corrected: every non-zero result of call_faust ends with status 1 |
| Pipeline.CheckedAgreesExceptOnWorkspaceFailure | main.cpp:33-36 | the correction agrees with the written test on 0 and -1 and differs only for 1 |
| Pipeline.SuccessNeedsExtraction | main.cpp:33-43 | status 0 only after a successful compiler stage and extraction |
| Pipeline.SuccessWritesHeader | main.cpp:38-43 | after a successful extraction the program ends with 0, having written the record's header |
| Pipeline.Run | main.cpp:24-44 | a bad command line gives 1 with no directory made; otherwise the compiler stage, then the corrected check, then processing |

## Left out

- Process execution (`execute`, call_faust.cpp:194-218) is the parameter `Toolchain.execute`, which reports success or failure. `posix_spawnp`'s error-number return (it never returns -1) is not modelled.
- XML loading (`load_file`) is the parameter `Toolchain.load`. pugixml itself is replaced by the `Report` datatype. A missing element reads as "".
- Reading the generated source (`std::ifstream`, `getline`, `bad()`) is the parameter `Toolchain.source`. It has the lines read and the final bad state.
- Invocation.CallFaust, Pipeline.Run: the `unlink`/`rmdir` cleanup (call_faust.cpp:27, 76-77) is not modelled. The program removes the new workspace directory on every return after `mktempdir` succeeds. In the model, `fs.dirs` still holds it.
- Report.HasMeta: `root.find_node` (call_faust.cpp:124-125) finds a `meta` element anywhere under `<faust>`. The model looks only at the root's and the widgets' `meta` children, which are the only ones the report tree models. A `meta` element elsewhere would make the program skip the scrape, while the model would still scrape.
- The seeding of `std::minstd_rand` is not modelled. MkTempDir takes the drawn numbers as a sequence.
- Invocation.MkTempDir: the source retries for as long as names exist. The model retries until the given draws run out, and then returns -1.
- Invocation.FileSystem.MkDir: every `mkdir` error other than EEXIST is one modelled refusal, reported as EACCES.
- `P_tmpdir` is taken as "/tmp".
- The `std::regex` engine is replaced by hand-written recognisers. Inside an escape pair, `.` is taken to exclude only `\n` and `\r`.
- `std::stof` is the parameter `FloatParser`, and floats are modelled as reals. Printing a float is the parameter `FloatPrinter`.
- `getenv("FAUST")` is an optional parameter.
- Header.DumpMetadata: the preamble and closing lines of the header (metadata.cpp:127-160, 193-201) are not modelled. The model covers metadata.cpp:162-191. The preamble and closing lines also hold `md.classname`, as `<classname>_meta` in the include guard, in `FAUSTMETA` and in the namespace name (metadata.cpp:130-131, 140, 153, 201). The model does not state those occurrences.
- Messages on standard error (`errs()`, `warns()`, `display_usage`) are not modelled.
- The `doc.save` under `if (false)` (main.cpp:109-110) is not modelled.
- `miscargs`: call_faust.cpp:69 reads `faustargs.miscargs`, but `Faust_Args` in call_faust.h:11-15 does not declare it. The model has it as a field of `FaustArgs`, which the command line leaves empty.
- Pipeline.Run: it uses the corrected test of `call_faust`'s result (see Findings). The written test is `Pipeline.AfterCompile`.

## Findings

| source | as written | input that shows it | evidently intended | confidence | as-written member | corrected member |
|---|---|---|---|---|---|---|
| main.cpp:33 with call_faust.cpp:25-26 | `call_faust` returns 1 when no workspace can be made, but `main` takes only -1 for failure | `mktempdir` fails (for example, `/tmp` is not writable): `main` processes the untouched empty document, `std::stoi("")` throws, and the program terminates abnormally | end with status 1, like the other compiler-stage failures | not executed | Pipeline.WorkspaceFailureTerminates | Pipeline.AfterCompileChecked |
