/** `apply_workarounds` (call_faust.cpp): when the report carries no `meta`
    element at all, the declarations are scraped from the generated C++
    source. The two line shapes the source matches with `std::regex` are
    recognised here by hand:

      global:   \s* m->declare( STR , STR );
      control:  \s* ui_interface->declare(& IDENT , STR , STR );

    with `, ` between the parts, STR the pattern `"(?:\\.|[^"\\])*"` and
    IDENT the pattern `[a-zA-Z_][0-9a-zA-Z_]*`; `regex_match` demands that
    the whole line matches. */
module Scrape {
  import opened Text
  import opened Names
  import opened Numbers
  import opened Literals
  import opened Report

  // ---------------------------------------------------------------------
  // String literals

  /** The body of a literal the STR pattern accepts: escape pairs whose
      second character is not a line terminator (what `.` excludes), and
      single characters other than '"' and '\'. */
  predicate LitBodyOk(b: string)
    decreases |b|
  {
    b == [] ||
    (b[0] != '"' && b[0] != '\\' && LitBodyOk(b[1..])) ||
    (|b| >= 2 && b[0] == '\\' && b[1] != '\n' && b[1] != '\r' && LitBodyOk(b[2..]))
  }

  /** A whole string literal the STR pattern accepts. */
  predicate IsStrLit(t: string) {
    |t| >= 2 && t[0] == '"' && t[|t| - 1] == '"' && LitBodyOk(t[1..|t| - 1])
  }

  /** The length of the literal body at the front of `b`, up to the first
      quote that is not escaped; `None` when there is none. */
  function ScanBody(b: string): (r: Option<nat>)
    ensures r.Some? ==> r.value < |b| && b[r.value] == '"' && LitBodyOk(b[..r.value])
  {
    if b == [] then None
    else if b[0] == '"' then Some(0)
    else if b[0] == '\\' then
      if |b| >= 2 && b[1] != '\n' && b[1] != '\r' then
        match ScanBody(b[2..])
        case None => None
        case Some(n) =>
          assert b[..n + 2][2..] == b[2..][..n];
          Some(n + 2)
      else None
    else
      match ScanBody(b[1..])
      case None => None
      case Some(n) =>
        assert b[..n + 1][1..] == b[1..][..n];
        Some(n + 1)
  }

  /** The length of the string literal at the front of `s`, if one is there. */
  function ScanLit(s: string): (r: Option<nat>)
    ensures r.Some? ==> r.value <= |s| && IsStrLit(s[..r.value])
  {
    if |s| > 0 && s[0] == '"' then
      match ScanBody(s[1..])
      case None => None
      case Some(n) =>
        assert s[..n + 2][1..n + 1] == s[1..][..n];
        Some(n + 2)
    else None
  }

  /** A body the pattern accepts is scanned to its own end, whatever
      follows the closing quote: a literal has only one possible extent. */
  lemma {:induction false} ScanBodyComplete(body: string, rest: string)
    requires LitBodyOk(body)
    ensures ScanBody(body + ['"'] + rest) == Some(|body|)
    decreases |body|
  {
    var s := body + ['"'] + rest;
    if body != [] {
      if body[0] != '"' && body[0] != '\\' && LitBodyOk(body[1..]) {
        assert s[1..] == body[1..] + ['"'] + rest;
        ScanBodyComplete(body[1..], rest);
      } else {
        assert s[2..] == body[2..] + ['"'] + rest;
        ScanBodyComplete(body[2..], rest);
      }
    }
  }

  lemma ScanLitComplete(lit: string, rest: string)
    requires IsStrLit(lit)
    ensures ScanLit(lit + rest) == Some(|lit|)
  {
    var body := lit[1..|lit| - 1];
    assert (lit + rest)[1..] == body + ['"'] + rest;
    ScanBodyComplete(body, rest);
  }

  /** Every accepted literal is accepted by `parse_cstrlit` too, so its
      failure branch never fires on a matched line. */
  lemma {:induction false} AcceptedBodyDecodes(b: string)
    requires LitBodyOk(b)
    ensures UnescapeBody(b).complete
    decreases |b|
  {
    if b != [] {
      if b[0] != '"' && b[0] != '\\' && LitBodyOk(b[1..]) {
        AcceptedBodyDecodes(b[1..]);
      } else {
        AcceptedBodyDecodes(b[2..]);
      }
    }
  }

  lemma StrLitParses(t: string)
    requires IsStrLit(t)
    ensures ParseLit(t).Some?
  {
    AcceptedBodyDecodes(t[1..|t| - 1]);
  }

  /** The literal `cstrlit` writes, without its `u8` prefix. */
  function Quoted(s: string): (q: string)
    ensures q == Literal(s)[2..]
  {
    "\"" + EscapeBody(s) + "\""
  }

  lemma {:induction false} EscapedBodyAccepted(s: string)
    ensures LitBodyOk(EscapeBody(s))
  {
    if s != [] {
      var e := EscapeBody(s);
      EscapedBodyAccepted(s[1..]);
      match EscapeLetter(s[0])
      case Some(l) =>
        assert e[2..] == EscapeBody(s[1..]);
      case None =>
        assert e[1..] == EscapeBody(s[1..]);
    }
  }

  /** What `cstrlit` writes (its `u8` prefix aside) is a literal of the
      scraped shape, and it decodes back to the text. */
  lemma QuotedAccepted(s: string)
    ensures IsStrLit(Quoted(s))
    ensures ParseLit(Quoted(s)) == Some(s)
  {
    var q := Quoted(s);
    assert q[1..|q| - 1] == EscapeBody(s);
    EscapedBodyAccepted(s);
    LiteralRoundTrip(s);
  }

  // ---------------------------------------------------------------------
  // Identifiers

  /** A whole identifier the IDENT pattern accepts. */
  predicate IsIdent(x: string) {
    |x| > 0 && (IsLetter(x[0]) || x[0] == '_') && forall i :: 0 <= i < |x| ==> IsIdentChar(x[i])
  }

  /** The longest run of identifier characters at the front of `s`. */
  function IdentRun(s: string): (r: string)
    ensures |r| <= |s| && r == s[..|r|]
    ensures forall i :: 0 <= i < |r| ==> IsIdentChar(r[i])
    ensures |r| == |s| || !IsIdentChar(s[|r|])
  {
    if |s| > 0 && IsIdentChar(s[0]) then
      var r := IdentRun(s[1..]);
      assert s[..|r| + 1] == [s[0]] + s[1..][..|r|];
      [s[0]] + r
    else []
  }

  lemma {:induction false} IdentRunComplete(x: string, rest: string)
    requires forall i :: 0 <= i < |x| ==> IsIdentChar(x[i])
    requires rest == [] || !IsIdentChar(rest[0])
    ensures IdentRun(x + rest) == x
  {
    if x != [] {
      assert (x + rest)[1..] == x[1..] + rest;
      IdentRunComplete(x[1..], rest);
      assert [x[0]] + x[1..] == x;
    } else {
      assert x + rest == rest;
    }
  }

  // ---------------------------------------------------------------------
  // The two line shapes

  const GlobalHead: string := "m->declare("
  const ControlHead: string := "ui_interface->declare(&"
  const Comma: string := ", "
  const Close: string := ");"

  /** The line `ws m->declare(key, value);`. */
  function GlobalLine(ws: string, key: string, value: string): string {
    ws + (GlobalHead + (key + (Comma + (value + Close))))
  }

  /** The line `ws ui_interface->declare(&var, key, value);`. */
  function ControlLine(ws: string, varname: string, key: string, value: string): string {
    ws + (ControlHead + (varname + (Comma + (key + (Comma + (value + Close))))))
  }

  /** The white space `\s*` consumes at the start of a line. */
  function Indent(line: string): (ws: string)
    ensures AllSpaces(ws) && line == ws + SkipSpaces(line)
  {
    var t := SkipSpaces(line);
    var ws := line[..|line| - |t|];
    assert t == line[|line| - |t|..];
    assert line == ws + t;
    ws
  }

  lemma {:induction false} SkipSpacesComplete(ws: string, t: string)
    requires AllSpaces(ws) && t != [] && !IsSpace(t[0])
    ensures SkipSpaces(ws + t) == t
  {
    if ws == [] {
      assert ws + t == t;
    } else {
      assert (ws + t)[1..] == ws[1..] + t;
      SkipSpacesComplete(ws[1..], t);
    }
  }

  /** What follows the fixed text `p` at the front of `s`. */
  function StripPrefix(p: string, s: string): (r: Option<string>)
    ensures r.Some? ==> s == p + r.value
  {
    if |p| <= |s| && s[..|p|] == p then
      assert s == s[..|p|] + s[|p|..];
      Some(s[|p|..])
    else None
  }

  lemma StripPrefixComplete(p: string, rest: string)
    ensures StripPrefix(p, p + rest) == Some(rest)
  {
    assert (p + rest)[..|p|] == p;
    assert (p + rest)[|p|..] == rest;
  }

  /** The string literal at the front of `s`, and what follows it. */
  function TakeLit(s: string): (r: Option<(string, string)>)
    ensures r.Some? ==> IsStrLit(r.value.0) && s == r.value.0 + r.value.1
  {
    match ScanLit(s)
    case None => None
    case Some(n) =>
      assert s == s[..n] + s[n..];
      Some((s[..n], s[n..]))
  }

  lemma TakeLitComplete(lit: string, rest: string)
    requires IsStrLit(lit)
    ensures TakeLit(lit + rest) == Some((lit, rest))
  {
    ScanLitComplete(lit, rest);
    assert (lit + rest)[..|lit|] == lit;
    assert (lit + rest)[|lit|..] == rest;
  }

  /** `literal, literal);` making up the whole of `s`: the two literals. */
  function TwoLiterals(s: string): (r: Option<(string, string)>)
    ensures r.Some? ==> IsStrLit(r.value.0) && IsStrLit(r.value.1)
    ensures r.Some? ==> s == r.value.0 + (Comma + (r.value.1 + Close))
  {
    match TakeLit(s)
    case None => None
    case Some((k, after)) =>
      match StripPrefix(Comma, after)
      case None => None
      case Some(u) =>
        match TakeLit(u)
        case None => None
        case Some((v, rest)) => if rest == Close then Some((k, v)) else None
  }

  lemma TwoLiteralsComplete(k: string, v: string)
    requires IsStrLit(k) && IsStrLit(v)
    ensures TwoLiterals(k + (Comma + (v + Close))) == Some((k, v))
  {
    TakeLitComplete(k, Comma + (v + Close));
    StripPrefixComplete(Comma, v + Close);
    TakeLitComplete(v, Close);
  }

  /** The recogniser of the global declaration: the two literals as
      written, quotes included. Whatever it accepts has the global shape. */
  function MatchGlobal(line: string): (r: Option<(string, string)>)
    ensures r.Some? ==> IsStrLit(r.value.0) && IsStrLit(r.value.1)
    ensures r.Some? ==> line == GlobalLine(Indent(line), r.value.0, r.value.1)
  {
    match StripPrefix(GlobalHead, SkipSpaces(line))
    case None => None
    case Some(u) => TwoLiterals(u)
  }

  /** The identifier at the front of `s`, and what follows it. */
  function TakeIdent(s: string): (r: Option<(string, string)>)
    ensures r.Some? ==> IsIdent(r.value.0) && s == r.value.0 + r.value.1
    ensures r.Some? ==> r.value.1 == [] || !IsIdentChar(r.value.1[0])
  {
    var x := IdentRun(s);
    if IsIdent(x) then
      assert s == x + s[|x|..];
      Some((x, s[|x|..]))
    else None
  }

  lemma TakeIdentComplete(x: string, rest: string)
    requires IsIdent(x) && (rest == [] || !IsIdentChar(rest[0]))
    ensures TakeIdent(x + rest) == Some((x, rest))
  {
    IdentRunComplete(x, rest);
    assert (x + rest)[|x|..] == rest;
  }

  /** The recogniser of the per-widget declaration: the variable name and
      the two literals. Whatever it accepts has the per-widget shape. */
  function MatchControl(line: string): (r: Option<(string, string, string)>)
    ensures r.Some? ==> IsIdent(r.value.0) && IsStrLit(r.value.1) && IsStrLit(r.value.2)
    ensures r.Some? ==> line == ControlLine(Indent(line), r.value.0, r.value.1, r.value.2)
  {
    match StripPrefix(ControlHead, SkipSpaces(line))
    case None => None
    case Some(u) =>
      match TakeIdent(u)
      case None => None
      case Some((x, after)) =>
        match StripPrefix(Comma, after)
        case None => None
        case Some(w) =>
          match TwoLiterals(w)
          case None => None
          case Some((k, v)) => Some((x, k, v))
  }

  /** Every line of the global shape is recognised, with its own literals. */
  lemma MatchGlobalComplete(ws: string, k: string, v: string)
    requires AllSpaces(ws) && IsStrLit(k) && IsStrLit(v)
    ensures MatchGlobal(GlobalLine(ws, k, v)) == Some((k, v))
  {
    var tail := k + (Comma + (v + Close));
    assert (GlobalHead + tail)[0] == 'm';
    SkipSpacesComplete(ws, GlobalHead + tail);
    StripPrefixComplete(GlobalHead, tail);
    TwoLiteralsComplete(k, v);
  }

  /** Every line of the per-widget shape is recognised, with its own parts. */
  lemma MatchControlComplete(ws: string, x: string, k: string, v: string)
    requires AllSpaces(ws) && IsIdent(x) && IsStrLit(k) && IsStrLit(v)
    ensures MatchControl(ControlLine(ws, x, k, v)) == Some((x, k, v))
  {
    var tail := k + (Comma + (v + Close));
    var u := x + (Comma + tail);
    assert (ControlHead + u)[0] == 'u';
    SkipSpacesComplete(ws, ControlHead + u);
    StripPrefixComplete(ControlHead, u);
    assert (Comma + tail)[0] == ',';
    TakeIdentComplete(x, Comma + tail);
    StripPrefixComplete(Comma, tail);
    TwoLiteralsComplete(k, v);
  }

  /** No line has both shapes. */
  lemma ShapesAreExclusive(line: string)
    ensures !(MatchGlobal(line).Some? && MatchControl(line).Some?)
  {
  }

  // ---------------------------------------------------------------------
  // The varname map

  /** Where `widget_nodes` points: a widget of one group, by position. */
  datatype Slot = Slot(isActive: bool, index: nat)

  /** `widget_nodes[varname] = node` for each node of a group, in order. */
  function AddSlots(m: map<string, Slot>, nodes: seq<WidgetNode>, isActive: bool): map<string, Slot> {
    if nodes == [] then m
    else AddSlots(m, nodes[..|nodes| - 1], isActive)[nodes[|nodes| - 1].varname := Slot(isActive, |nodes| - 1)]
  }

  /** The map as `apply_workarounds` builds it: actives first, then passives. */
  function VarMap(doc: Document): map<string, Slot> {
    AddSlots(AddSlots(map[], doc.active, true), doc.passive, false)
  }

  /** The last position of a widget with the variable name `v`. */
  function LastIndex(nodes: seq<WidgetNode>, v: string): (r: Option<nat>)
    ensures r.Some? ==> r.value < |nodes| && nodes[r.value].varname == v
    ensures r.Some? ==> forall j :: r.value < j < |nodes| ==> nodes[j].varname != v
    ensures r.None? ==> forall j :: 0 <= j < |nodes| ==> nodes[j].varname != v
  {
    if nodes == [] then None
    else if nodes[|nodes| - 1].varname == v then Some(|nodes| - 1)
    else LastIndex(nodes[..|nodes| - 1], v)
  }

  lemma {:induction false} AddSlotsLookup(m: map<string, Slot>, nodes: seq<WidgetNode>, isActive: bool, v: string)
    ensures var r := AddSlots(m, nodes, isActive);
      && (v in r <==> v in m || LastIndex(nodes, v).Some?)
      && (LastIndex(nodes, v).Some? ==> r[v] == Slot(isActive, LastIndex(nodes, v).value))
      && (LastIndex(nodes, v).None? && v in m ==> r[v] == m[v])
  {
    if nodes != [] {
      AddSlotsLookup(m, nodes[..|nodes| - 1], isActive, v);
    }
  }

  /** A name is in the map exactly when some widget has it; a passive widget
      wins over an active one, and the last widget of a group over earlier
      ones. */
  lemma VarMapLookup(doc: Document, v: string)
    ensures v in VarMap(doc) <==> LastIndex(doc.active, v).Some? || LastIndex(doc.passive, v).Some?
    ensures LastIndex(doc.passive, v).Some? ==> VarMap(doc)[v] == Slot(false, LastIndex(doc.passive, v).value)
    ensures LastIndex(doc.passive, v).None? && LastIndex(doc.active, v).Some? ==>
      VarMap(doc)[v] == Slot(true, LastIndex(doc.active, v).value)
  {
    AddSlotsLookup(map[], doc.active, true, v);
    AddSlotsLookup(AddSlots(map[], doc.active, true), doc.passive, false, v);
  }

  /** Every slot of the map names a widget of the document with that name. */
  predicate SlotsValid(doc: Document, vm: map<string, Slot>) {
    forall v :: v in vm ==>
      if vm[v].isActive then vm[v].index < |doc.active| && doc.active[vm[v].index].varname == v
      else vm[v].index < |doc.passive| && doc.passive[vm[v].index].varname == v
  }

  lemma VarMapValid(doc: Document)
    ensures SlotsValid(doc, VarMap(doc))
  {
    forall v | v in VarMap(doc)
      ensures if VarMap(doc)[v].isActive then VarMap(doc)[v].index < |doc.active| && doc.active[VarMap(doc)[v].index].varname == v
              else VarMap(doc)[v].index < |doc.passive| && doc.passive[VarMap(doc)[v].index].varname == v
    {
      VarMapLookup(doc, v);
    }
  }

  /** `widget_nodes` filled by the two loops of `apply_workarounds`. */
  method BuildVarMap(doc: Document) returns (vm: map<string, Slot>)
    ensures vm == VarMap(doc)
  {
    vm := map[];
    for i := 0 to |doc.active|
      invariant vm == AddSlots(map[], doc.active[..i], true)
    {
      assert doc.active[..i + 1][..i] == doc.active[..i];
      vm := vm[doc.active[i].varname := Slot(true, i)];
    }
    assert doc.active[..|doc.active|] == doc.active;
    ghost var actives := vm;
    for i := 0 to |doc.passive|
      invariant vm == AddSlots(actives, doc.passive[..i], false)
    {
      assert doc.passive[..i + 1][..i] == doc.passive[..i];
      vm := vm[doc.passive[i].varname := Slot(false, i)];
    }
    assert doc.passive[..|doc.passive|] == doc.passive;
  }

  // ---------------------------------------------------------------------
  // Applying the lines

  /** `d'` is `d` with entries appended and nothing replaced or removed. */
  predicate Extends(d: Document, d': Document) {
    && d'.(meta := d.meta, active := d.active, passive := d.passive) == d
    && d.meta <= d'.meta
    && |d'.active| == |d.active| && |d'.passive| == |d.passive|
    && (forall i :: 0 <= i < |d.active| ==>
          d'.active[i].(meta := d.active[i].meta) == d.active[i] && d.active[i].meta <= d'.active[i].meta)
    && (forall i :: 0 <= i < |d.passive| ==>
          d'.passive[i].(meta := d.passive[i].meta) == d.passive[i] && d.passive[i].meta <= d'.passive[i].meta)
  }

  /** The text a `c_str()` copy keeps: everything before the first NUL. */
  function CStr(s: string): (r: string)
    ensures r <= s && NUL !in r
    ensures |r| < |s| ==> s[|r|] == NUL
  {
    if s == [] || s[0] == NUL then [] else [s[0]] + CStr(s[1..])
  }

  /** The node `append_child("meta")` adds: the key attribute and the text
      are set from `c_str()`, so both end at the first NUL. */
  function ScrapedMeta(key: string, value: string): MetaNode {
    MetaNode(CStr(key), CStr(value))
  }

  /** `root.append_child("meta")` with the key and the value. */
  function AddMeta(doc: Document, key: string, value: string): (d: Document)
    ensures d.meta == doc.meta + [MetaNode(CStr(key), CStr(value))] && d.(meta := doc.meta) == doc
    ensures Extends(doc, d)
  {
    doc.(meta := doc.meta + [ScrapedMeta(key, value)])
  }

  /** `it->second.append_child("meta")` on the widget the slot names: that
      widget gains the pair, cut at the first NUL, at the end of its `meta`;
      nothing else changes. */
  function AddWidgetMeta(doc: Document, slot: Slot, key: string, value: string): (d: Document)
    ensures slot.isActive && slot.index < |doc.active| ==>
      d == doc.(active := doc.active[slot.index := doc.active[slot.index].(meta := doc.active[slot.index].meta + [MetaNode(CStr(key), CStr(value))])])
    ensures !slot.isActive && slot.index < |doc.passive| ==>
      d == doc.(passive := doc.passive[slot.index := doc.passive[slot.index].(meta := doc.passive[slot.index].meta + [MetaNode(CStr(key), CStr(value))])])
    ensures Extends(doc, d)
  {
    var m := ScrapedMeta(key, value);
    if slot.isActive && slot.index < |doc.active| then
      doc.(active := doc.active[slot.index := doc.active[slot.index].(meta := doc.active[slot.index].meta + [m])])
    else if !slot.isActive && slot.index < |doc.passive| then
      doc.(passive := doc.passive[slot.index := doc.passive[slot.index].(meta := doc.passive[slot.index].meta + [m])])
    else doc
  }

  /** A source line as the loop classifies it: a global or a per-widget
      declaration whose two literals both decode, or anything else. */
  datatype Decl = GlobalDecl(key: string, value: string) | ControlDecl(varname: string, key: string, value: string) | NoDecl

  function Classify(line: string): Decl {
    match MatchGlobal(line)
    case Some((k, v)) => GlobalDeclOf(k, v)
    case None =>
      match MatchControl(line)
      case Some((x, k, v)) => ControlDeclOf(x, k, v)
      case None => NoDecl
  }

  /** A matched global declaration, kept when both literals decode. */
  function GlobalDeclOf(k: string, v: string): Decl {
    match (ParseLit(k), ParseLit(v))
    case (Some(key), Some(value)) => GlobalDecl(key, value)
    case _ => NoDecl
  }

  /** A matched per-widget declaration, kept when both literals decode. */
  function ControlDeclOf(x: string, k: string, v: string): Decl {
    match (ParseLit(k), ParseLit(v))
    case (Some(key), Some(value)) => ControlDecl(x, key, value)
    case _ => NoDecl
  }

  /** What one line of the source adds to the document: a global pair to
      the root, a per-widget pair to the widget of that variable name, and
      nothing when the name is unknown. */
  function ApplyLine(doc: Document, vm: map<string, Slot>, line: string): (d: Document)
    ensures Extends(doc, d)
  {
    match Classify(line)
    case GlobalDecl(key, value) => AddMeta(doc, key, value)
    case ControlDecl(x, key, value) => if x in vm then AddWidgetMeta(doc, vm[x], key, value) else doc
    case NoDecl => doc
  }

  /** The lines in the order `getline` reads them. */
  function ApplyLines(doc: Document, vm: map<string, Slot>, lines: seq<string>): Document {
    if lines == [] then doc else ApplyLine(ApplyLines(doc, vm, lines[..|lines| - 1]), vm, lines[|lines| - 1])
  }

  /** A global declaration written with `cstrlit`'s quoting is classified
      with exactly its key and value. */
  lemma GlobalLineClassified(ws: string, key: string, value: string)
    requires AllSpaces(ws)
    ensures Classify(GlobalLine(ws, Quoted(key), Quoted(value))) == GlobalDecl(key, value)
  {
    QuotedAccepted(key);
    QuotedAccepted(value);
    MatchGlobalComplete(ws, Quoted(key), Quoted(value));
  }

  /** A global declaration written with `cstrlit`'s quoting is scraped into
      exactly its key and value. */
  lemma GlobalLineScraped(doc: Document, vm: map<string, Slot>, ws: string, key: string, value: string)
    requires AllSpaces(ws)
    ensures ApplyLine(doc, vm, GlobalLine(ws, Quoted(key), Quoted(value))) == AddMeta(doc, key, value)
  {
    GlobalLineClassified(ws, key, value);
  }

  /** A per-widget declaration written with `cstrlit`'s quoting is
      classified with its variable name, key and value. */
  lemma ControlLineClassified(ws: string, x: string, key: string, value: string)
    requires AllSpaces(ws) && IsIdent(x)
    ensures Classify(ControlLine(ws, x, Quoted(key), Quoted(value))) == ControlDecl(x, key, value)
  {
    var line := ControlLine(ws, x, Quoted(key), Quoted(value));
    QuotedAccepted(key);
    QuotedAccepted(value);
    MatchControlComplete(ws, x, Quoted(key), Quoted(value));
    ShapesAreExclusive(line);
    assert MatchGlobal(line).None?;
  }

  /** A per-widget declaration is scraped into the widget with that variable
      name, and dropped when there is none. */
  lemma ControlLineScraped(doc: Document, vm: map<string, Slot>, ws: string, x: string, key: string, value: string)
    requires AllSpaces(ws) && IsIdent(x)
    ensures ApplyLine(doc, vm, ControlLine(ws, x, Quoted(key), Quoted(value))) ==
      if x in vm then AddWidgetMeta(doc, vm[x], key, value) else doc
  {
    ControlLineClassified(ws, x, key, value);
  }

  lemma ExtendsTrans(a: Document, b: Document, c: Document)
    requires Extends(a, b) && Extends(b, c)
    ensures Extends(a, c)
  {
    forall i | 0 <= i < |a.active|
      ensures c.active[i].(meta := a.active[i].meta) == a.active[i] && a.active[i].meta <= c.active[i].meta
    {
      assert b.active[i].(meta := a.active[i].meta) == a.active[i];
    }
    forall i | 0 <= i < |a.passive|
      ensures c.passive[i].(meta := a.passive[i].meta) == a.passive[i] && a.passive[i].meta <= c.passive[i].meta
    {
      assert b.passive[i].(meta := a.passive[i].meta) == a.passive[i];
    }
  }

  /** The scrape only appends: existing entries are never replaced, no widget
      is added or removed, and no scalar field changes. */
  lemma {:induction false} ApplyLinesExtends(doc: Document, vm: map<string, Slot>, lines: seq<string>)
    ensures Extends(doc, ApplyLines(doc, vm, lines))
  {
    if lines != [] {
      var before := ApplyLines(doc, vm, lines[..|lines| - 1]);
      ApplyLinesExtends(doc, vm, lines[..|lines| - 1]);
      ExtendsTrans(doc, before, ApplyLines(doc, vm, lines));
    }
  }

  /** `apply_workarounds(docmd, cppfile)`. The source file is given as the
      lines `getline` returns, the last one being what the failing read
      leaves (an empty line); `bad` is the final `in.bad()`. The lines read
      before a bad stream are applied all the same, and -1 is returned. */
  method ApplyWorkarounds(doc: Document, lines: seq<string>, bad: bool) returns (rc: int, doc': Document)
    ensures HasMeta(doc) ==> rc == 0 && doc' == doc
    ensures !HasMeta(doc) ==> doc' == ApplyLines(doc, VarMap(doc), lines) && rc == (if bad then -1 else 0)
  {
    if HasMeta(doc) {
      return 0, doc;
    }
    var vm := BuildVarMap(doc);
    doc' := doc;
    for i := 0 to |lines|
      invariant doc' == ApplyLines(doc, vm, lines[..i])
    {
      assert lines[..i + 1][..i] == lines[..i];
      doc' := ScrapeLine(doc', vm, lines[i]);
    }
    assert lines[..|lines|] == lines;
    rc := if bad then -1 else 0;
  }

  /** The body of the `do … while (in)` loop for one line. */
  method ScrapeLine(doc: Document, vm: map<string, Slot>, line: string) returns (doc': Document)
    ensures doc' == ApplyLine(doc, vm, line)
  {
    var decl := ClassifyLine(line);
    match decl
    case GlobalDecl(key, value) =>
      doc' := AddMeta(doc, key, value);
    case ControlDecl(x, key, value) =>
      doc' := if x in vm then AddWidgetMeta(doc, vm[x], key, value) else doc;
    case NoDecl =>
      doc' := doc;
  }

  /** The two `parse_cstrlit` calls on the captured literals, each into a
      fresh string. */
  method DecodePair(k: string, v: string) returns (ok: bool, key: string, value: string)
    ensures ok <==> ParseLit(k).Some? && ParseLit(v).Some?
    ensures ok ==> key == ParseLit(k).value && value == ParseLit(v).value
  {
    var okKey, okValue;
    okKey, key := ParseCStrLit([], k);
    okValue, value := ParseCStrLit([], v);
    ok := okKey && okValue;
    if ok {
      assert key == [] + ParseLit(k).value;
      assert value == [] + ParseLit(v).value;
    }
  }

  /** A line the global pattern matched, with its literals decoded. */
  method DecodeGlobal(k: string, v: string) returns (decl: Decl)
    ensures decl == GlobalDeclOf(k, v)
  {
    var ok, key, value := DecodePair(k, v);
    decl := if ok then GlobalDecl(key, value) else NoDecl;
  }

  /** A line the per-widget pattern matched, with its literals decoded. */
  method DecodeControl(x: string, k: string, v: string) returns (decl: Decl)
    ensures decl == ControlDeclOf(x, k, v)
  {
    var ok, key, value := DecodePair(k, v);
    decl := if ok then ControlDecl(x, key, value) else NoDecl;
  }

  /** The two `regex_match` tests of the loop, then the decoding of the
      captured literals. */
  method ClassifyLine(line: string) returns (decl: Decl)
    ensures decl == Classify(line)
  {
    var global := MatchGlobal(line);
    if global.Some? {
      decl := DecodeGlobal(global.value.0, global.value.1);
    } else {
      var control := MatchControl(line);
      if control.Some? {
        decl := DecodeControl(control.value.0, control.value.1, control.value.2);
      } else {
        decl := NoDecl;
      }
    }
  }

  /** The final, empty line of the read loop adds nothing. */
  lemma EmptyLineIgnored(doc: Document, vm: map<string, Slot>)
    ensures ApplyLine(doc, vm, "") == doc
  {
  }

  /** Text without NUL is stored whole. */
  lemma {:induction false} CStrWithoutNul(s: string)
    requires NUL !in s
    ensures CStr(s) == s
  {
    if s != [] {
      assert s[0] in s;
      assert forall c :: c in s[1..] ==> c in s;
      CStrWithoutNul(s[1..]);
    }
  }

  /** A declared value whose quoted text starts with a raw NUL byte (which
      `cstrlit` writes unescaped) is stored as the empty text. */
  lemma NulEndsScrapedValue(doc: Document, vm: map<string, Slot>, ws: string, key: string, value: string)
    requires AllSpaces(ws) && NUL !in key && |value| > 0 && value[0] == NUL
    ensures ApplyLine(doc, vm, GlobalLine(ws, Quoted(key), Quoted(value))).meta == doc.meta + [MetaNode(key, "")]
  {
    GlobalLineScraped(doc, vm, ws, key, value);
    CStrWithoutNul(key);
  }

  /** A declared value written as the escape `"\0"` decodes to one NUL, so
      it is stored as the empty text too: the copy stops at the NUL. */
  lemma EscapedNulScrapedEmpty(doc: Document, vm: map<string, Slot>, ws: string, key: string)
    requires AllSpaces(ws) && NUL !in key
    ensures ApplyLine(doc, vm, GlobalLine(ws, Quoted(key), "\"\\0\"")).meta == doc.meta + [MetaNode(key, "")]
  {
    QuotedAccepted(key);
    NulEscapes();
    MatchGlobalComplete(ws, Quoted(key), "\"\\0\"");
    CStrWithoutNul(key);
  }
}
