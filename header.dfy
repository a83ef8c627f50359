/** `dump_metadata` and `dump_widgets` (metadata.cpp): the header written for
    an extracted `Metadata` record. The output stream is modelled as the
    sequence of lines written to it. Every array holds one entry per widget,
    in the order of the record, with ", " between entries; the accessors
    follow, one per widget. */
module Header {
  import opened Text
  import opened MetadataModel
  import opened Names
  import opened Numbers
  import opened Literals

  // ---------------------------------------------------------------------
  // Joining entries

  /** The entries separated by ", ", with no separator before the first or
      after the last: what the loops with a `separator` variable write. */
  function Join(items: seq<string>): string {
    if items == [] then ""
    else if |items| == 1 then items[0]
    else Join(items[..|items| - 1]) + ", " + items[|items| - 1]
  }

  lemma JoinSnoc(items: seq<string>, x: string)
    ensures Join(items + [x]) == Join(items) + (if items == [] then "" else ", ") + x
  {
    assert (items + [x])[..|items|] == items;
  }

  /** One more entry of a list, joined. */
  lemma JoinPrefix(items: seq<string>, i: nat)
    requires i < |items|
    ensures Join(items[..i + 1]) == Join(items[..i]) + (if i == 0 then "" else ", ") + items[i]
  {
    assert items[..i + 1] == items[..i] + [items[i]];
    JoinSnoc(items[..i], items[i]);
  }

  /** The total length of the entries. */
  function TotalLength(items: seq<string>): nat {
    if items == [] then 0 else TotalLength(items[..|items| - 1]) + |items[|items| - 1]|
  }

  /** The length of a joined list: its entries and one separator between
      each two; it starts with the first entry and ends with the last one. */
  lemma {:induction false} JoinShape(items: seq<string>)
    requires items != []
    ensures |Join(items)| == TotalLength(items) + 2 * (|items| - 1)
    ensures items[0] <= Join(items)
    ensures Join(items)[|Join(items)| - |items[|items| - 1]|..] == items[|items| - 1]
  {
    if |items| > 1 {
      var init := items[..|items| - 1];
      var last := items[|items| - 1];
      JoinShape(init);
      assert init[0] == items[0];
      var j := Join(init) + ", " + last;
      assert j == Join(init) + (", " + last);
      assert j[|j| - |last|..] == last;
    }
  }

  /** A joined list splits at any inner boundary into the two joined parts
      with one ", " between them: every two adjacent entries are separated
      by exactly one separator. */
  lemma {:induction false} JoinSplit(items: seq<string>, k: nat)
    requires 0 < k < |items|
    ensures Join(items) == Join(items[..k]) + ", " + Join(items[k..])
    decreases |items|
  {
    var n := |items|;
    var init, last := items[..n - 1], items[n - 1];
    assert Join(items) == Join(init) + ", " + last;
    if k == n - 1 {
      assert items[..k] == init;
      assert items[k..] == [last];
    } else {
      JoinSplit(init, k);
      assert init[..k] == items[..k];
      assert init[k..] + [last] == items[k..];
      JoinSnoc(init[k..], last);
    }
  }

  /** The separator loop over entries: `o << separator << entry;
      separator = ", ";`. */
  method JoinEntries(items: seq<string>) returns (text: string)
    ensures text == Join(items)
  {
    text := "";
    var separator := "";
    for i := 0 to |items|
      invariant text == Join(items[..i])
      invariant separator == if i == 0 then "" else ", "
    {
      JoinPrefix(items, i);
      text := text + separator + items[i];
      separator := ", ";
    }
    assert items[..|items|] == items;
  }

  /** `{key, value}` of a metadata pair, both through `cstrlit`. */
  function PairEntry(p: Pair): string {
    "{" + Literal(p.0) + ", " + Literal(p.1) + "}"
  }

  function PairEntries(ps: seq<Pair>): (es: seq<string>)
    ensures |es| == |ps| && forall i :: 0 <= i < |ps| ==> es[i] == PairEntry(ps[i])
  {
    seq(|ps|, i requires 0 <= i < |ps| => PairEntry(ps[i]))
  }

  /** The loop over a metadata list, writing each pair with `cstrlit`. */
  method EmitPairs(ps: seq<Pair>) returns (text: string)
    ensures text == Join(PairEntries(ps))
  {
    ghost var entries := PairEntries(ps);
    text := "";
    var separator := "";
    for i := 0 to |ps|
      invariant text == Join(entries[..i])
      invariant separator == if i == 0 then "" else ", "
    {
      var key := CStrLit(ps[i].0);
      var value := CStrLit(ps[i].1);
      var entry := "{" + key + ", " + value + "}";
      assert entry == entries[i];
      JoinPrefix(entries, i);
      text := text + separator + entry;
      separator := ", ";
    }
    assert entries[..|ps|] == entries;
  }

  /** `\tFMSTATIC <decl>[] = {<entries>};` */
  function ArrayLine(decl: string, entries: seq<string>): string {
    Static + decl + ArrayOpen + Join(entries) + ArrayClose
  }

  const Static: string := "\tFMSTATIC "
  const ArrayOpen: string := "[] = {"
  const ArrayClose: string := "};\n"

  // ---------------------------------------------------------------------
  // The per-widget arrays

  /** The arrays `dump_widgets` writes, in the order it writes them. */
  datatype Column =
    | TypeCol | IdCol | LabelCol | SymbolCol | OffsetCol
    | InitCol | MinCol | MaxCol | StepCol
    | UnitCol | ScaleCol | TooltipCol
    | MetadataCol | MetadataSizeCol

  /** `active` or `passive`, the prefix of every name of a group. */
  function Prefix(isActive: bool): string {
    if isActive then "active" else "passive"
  }

  /** The C++ types of the arrays. */
  const StringArray: string := "const char *const "
  const FloatArray: string := "constexpr FAUSTFLOAT "
  const SizeArray: string := "constexpr std::size_t "

  /** The declaration of an array, before its `[]`. */
  function Decl(c: Column, p: string): string {
    match c
    case TypeCol => "constexpr " + p + "_type_t " + p + "_type"
    case IdCol => "constexpr int " + p + "_id"
    case LabelCol => StringArray + p + "_label"
    case SymbolCol => StringArray + p + "_symbol"
    case OffsetCol => "const std::size_t " + p + "_offsets"
    case InitCol => FloatArray + p + "_init"
    case MinCol => FloatArray + p + "_min"
    case MaxCol => FloatArray + p + "_max"
    case StepCol => FloatArray + p + "_step"
    case UnitCol => StringArray + p + "_unit"
    case ScaleCol => "constexpr scale_t " + p + "_scale"
    case TooltipCol => StringArray + p + "_tooltip"
    case MetadataCol => "const metadata_t *const " + p + "_metadata"
    case MetadataSizeCol => SizeArray + p + "_metadata_size"
  }

  /** How `ostream <<` prints a `float`. Float formatting is not modelled; it
      is a parameter of the model. */
  type FloatPrinter = real -> string

  /** The fixed text of the offset and metadata entries. */
  const OffsetOf: string := "(size_t)&((FAUSTCLASS *)0)->"
  const MetadataList: string := "(metadata_t[]){"

  /** The entry of widget `w` in array `c`. */
  function Cell(c: Column, p: string, w: Widget, showFloat: FloatPrinter): string {
    match c
    case TypeCol => p + "_type_t::" + TypeName(w.kind)
    case IdCol => Decimal(w.id)
    case LabelCol => Literal(w.labelText)
    case SymbolCol => Literal(Mangled(w.labelText))
    case OffsetCol => OffsetOf + w.varname
    case InitCol => showFloat(w.init)
    case MinCol => showFloat(w.min)
    case MaxCol => showFloat(w.max)
    case StepCol => showFloat(w.step)
    case UnitCol => Literal(w.unit)
    case ScaleCol => "scale_t::" + ScaleName(w.scale)
    case TooltipCol => Literal(w.tooltip)
    case MetadataCol => MetadataList + Join(PairEntries(w.metadata)) + "}"
    case MetadataSizeCol => Decimal(|w.metadata|)
  }

  /** The entries of array `c`: one per widget, in order. */
  function Cells(c: Column, p: string, ws: seq<Widget>, showFloat: FloatPrinter): (cs: seq<string>)
    ensures |cs| == |ws| && forall i :: 0 <= i < |ws| ==> cs[i] == Cell(c, p, ws[i], showFloat)
  {
    seq(|ws|, i requires 0 <= i < |ws| => Cell(c, p, ws[i], showFloat))
  }

  function ColumnLine(c: Column, p: string, ws: seq<Widget>, showFloat: FloatPrinter): string {
    ArrayLine(Decl(c, p), Cells(c, p, ws, showFloat))
  }

  lemma DropPrefix(a: string, b: string)
    ensures (a + b)[|a|..] == b
  {
  }

  /** A string entry read back: its `u8` prefix dropped, then the literal
      through `parse_cstrlit`. */
  function ReadLiteral(cell: string): Option<string> {
    if |cell| >= 2 && cell[..2] == "u8" then ParseLit(cell[2..]) else None
  }

  lemma ReadLiteralOf(s: string)
    ensures ReadLiteral(Literal(s)) == Some(s)
  {
    assert Literal(s)[..2] == "u8";
    LiteralRoundTrip(s);
  }

  /** Each string entry reads back as the field it was written from. */
  lemma LiteralCellsReadBack(p: string, w: Widget, showFloat: FloatPrinter)
    ensures ReadLiteral(Cell(LabelCol, p, w, showFloat)) == Some(w.labelText)
    ensures ReadLiteral(Cell(SymbolCol, p, w, showFloat)) == Some(Mangled(w.labelText))
    ensures ReadLiteral(Cell(UnitCol, p, w, showFloat)) == Some(w.unit)
    ensures ReadLiteral(Cell(TooltipCol, p, w, showFloat)) == Some(w.tooltip)
  {
    ReadLiteralOf(w.labelText);
    ReadLiteralOf(Mangled(w.labelText));
    ReadLiteralOf(w.unit);
    ReadLiteralOf(w.tooltip);
  }

  /** The id and the metadata size read back through `std::stoi`. */
  lemma IntegerCellsReadBack(p: string, w: Widget, showFloat: FloatPrinter)
    ensures InIntRange(w.id) ==> StoI(Cell(IdCol, p, w, showFloat)) == Some(w.id)
    ensures |w.metadata| <= IntMax ==> StoI(Cell(MetadataSizeCol, p, w, showFloat)) == Some(|w.metadata|)
  {
    assert Cell(IdCol, p, w, showFloat) == Decimal(w.id);
    assert Cell(MetadataSizeCol, p, w, showFloat) == Decimal(|w.metadata|);
    if InIntRange(w.id) {
      StoIDecimal(w.id);
    }
    if |w.metadata| <= IntMax {
      StoIDecimal(|w.metadata|);
    }
  }

  /** The type and scale entries name the widget's type and scale. */
  lemma NameCellsReadBack(p: string, w: Widget, showFloat: FloatPrinter)
    ensures TypeFromName(Cell(TypeCol, p, w, showFloat)[|p| + 9..]) == Some(w.kind)
    ensures InterpretScale(Cell(ScaleCol, p, w, showFloat)[9..]) == w.scale
  {
    DropPrefix(p + "_type_t::", TypeName(w.kind));
    TypeNameRoundTrip(w.kind);
    DropPrefix("scale_t::", ScaleName(w.scale));
    ScaleNameRoundTrip(w.scale);
  }

  /** The size entry of a widget counts the pairs of its metadata entry. */
  lemma MetadataSizeMatches(p: string, w: Widget, showFloat: FloatPrinter)
    ensures DecValue(Cell(MetadataSizeCol, p, w, showFloat)) == |PairEntries(w.metadata)|
  {
    DecValueNatDigits(|w.metadata|);
  }

  // ---------------------------------------------------------------------
  // The accessors

  /** `mangle("set_" + label)` and `mangle("get_" + label)`. */
  function SetterName(w: Widget): string {
    Mangled("set_" + w.labelText)
  }

  function GetterName(w: Widget): string {
    Mangled("get_" + w.labelText)
  }

  /** The fixed text of the accessors. */
  const SetHead: string := "\tFMSTATIC inline void "
  const GetHead: string := "\tFMSTATIC inline FAUSTFLOAT "
  const SetParams: string := "(FAUSTCLASS &x, FAUSTFLOAT v) { x."
  const SetTail: string := " = v; }\n"
  const GetParams: string := "(const FAUSTCLASS &x) { return x."
  const GetTail: string := "; }\n"
  const IndexedSetParams: string := "_set(FAUSTCLASS &x, unsigned idx, FAUSTFLOAT v) { *(FAUSTFLOAT *)((char *)&x + "
  const IndexedSetTail: string := "_offsets[idx]) = v; }\n"
  const IndexedGetParams: string := "_get(const FAUSTCLASS &x, unsigned idx) { return *(const FAUSTFLOAT *)((const char *)&x + "
  const IndexedGetTail: string := "_offsets[idx]); }\n"

  function Setter(w: Widget): string {
    SetHead + SetterName(w) + SetParams + w.varname + SetTail
  }

  function Getter(w: Widget): string {
    GetHead + GetterName(w) + GetParams + w.varname + GetTail
  }

  /** The accessors by index, written for every group. */
  function IndexedSetter(p: string): string {
    SetHead + p + IndexedSetParams + p + IndexedSetTail
  }

  function IndexedGetter(p: string): string {
    GetHead + p + IndexedGetParams + p + IndexedGetTail
  }

  function Setters(ws: seq<Widget>): (r: seq<string>)
    ensures |r| == |ws| && forall i :: 0 <= i < |ws| ==> r[i] == Setter(ws[i])
  {
    seq(|ws|, i requires 0 <= i < |ws| => Setter(ws[i]))
  }

  function Getters(ws: seq<Widget>): (r: seq<string>)
    ensures |r| == |ws| && forall i :: 0 <= i < |ws| ==> r[i] == Getter(ws[i])
  {
    seq(|ws|, i requires 0 <= i < |ws| => Getter(ws[i]))
  }

  /** One setter per widget of the active group, then one getter per widget. */
  function Accessors(ws: seq<Widget>, isActive: bool): seq<string> {
    (if isActive then Setters(ws) else []) + Getters(ws)
  }

  /** Setters exist only for active widgets, getters for every widget, in
      order and with no deduplication: two widgets whose labels mangle alike
      still get an accessor each. */
  lemma AccessorsShape(ws: seq<Widget>, isActive: bool)
    ensures var a := Accessors(ws, isActive);
      var n := if isActive then |ws| else 0;
      && |a| == n + |ws|
      && (forall i :: 0 <= i < n ==> a[i] == Setter(ws[i]))
      && (forall i :: 0 <= i < |ws| ==> a[n + i] == Getter(ws[i]))
  {
    var setters := if isActive then Setters(ws) else [];
    IndexAppend(setters, Getters(ws));
  }

  /** Indexing into a concatenation. */
  lemma IndexAppend<T>(xs: seq<T>, ys: seq<T>)
    ensures |xs + ys| == |xs| + |ys|
    ensures forall i :: 0 <= i < |xs| ==> (xs + ys)[i] == xs[i]
    ensures forall i :: 0 <= i < |ys| ==> (xs + ys)[|xs| + i] == ys[i]
  {
  }

  /** Accessor names keep their `set_`/`get_` prefix and are C identifiers. */
  lemma AccessorNames(w: Widget)
    ensures SetterName(w)[..4] == "set_" && GetterName(w)[..4] == "get_"
    ensures forall i :: 0 <= i < |SetterName(w)| ==> IsIdentChar(SetterName(w)[i])
    ensures forall i :: 0 <= i < |GetterName(w)| ==> IsIdentChar(GetterName(w)[i])
  {
    MangledAccessorName("set_", w.labelText);
    MangledAccessorName("get_", w.labelText);
  }

  // ---------------------------------------------------------------------
  // dump_widgets and dump_metadata

  /** The arrays of a group, with the blank lines between them. */
  function ArrayLines(ws: seq<Widget>, p: string, showFloat: FloatPrinter): seq<string> {
    [ColumnLine(TypeCol, p, ws, showFloat), ColumnLine(IdCol, p, ws, showFloat),
     ColumnLine(LabelCol, p, ws, showFloat), ColumnLine(SymbolCol, p, ws, showFloat),
     ColumnLine(OffsetCol, p, ws, showFloat), ColumnLine(InitCol, p, ws, showFloat),
     ColumnLine(MinCol, p, ws, showFloat), ColumnLine(MaxCol, p, ws, showFloat),
     ColumnLine(StepCol, p, ws, showFloat), "\n",
     ColumnLine(UnitCol, p, ws, showFloat), ColumnLine(ScaleCol, p, ws, showFloat),
     ColumnLine(TooltipCol, p, ws, showFloat), "\n",
     ColumnLine(MetadataCol, p, ws, showFloat), ColumnLine(MetadataSizeCol, p, ws, showFloat), "\n"]
  }

  /** The accessors by index: a setter for the active group only. */
  function IndexedAccessors(isActive: bool, p: string): seq<string> {
    (if isActive then [IndexedSetter(p)] else []) + [IndexedGetter(p), "\n"]
  }

  /** The lines `dump_widgets` writes for a group. */
  function GroupLines(ws: seq<Widget>, isActive: bool, showFloat: FloatPrinter): seq<string> {
    ArrayLines(ws, Prefix(isActive), showFloat) + IndexedAccessors(isActive, Prefix(isActive)) + Accessors(ws, isActive)
  }

  /** A group has its seventeen array lines, two or three indexed accessor
      lines, and one getter per widget with a setter per active widget. */
  lemma GroupLinesLength(ws: seq<Widget>, isActive: bool, showFloat: FloatPrinter)
    ensures |GroupLines(ws, isActive, showFloat)| == 19 + (if isActive then 1 + 2 * |ws| else |ws|)
  {
    assert |ArrayLines(ws, Prefix(isActive), showFloat)| == 17;
    assert |Accessors(ws, isActive)| == if isActive then 2 * |ws| else |ws|;
  }

  /** The entry of one widget, as the loops compute it: the literals with
      `cstrlit`, the symbol with `mangle` first, the metadata with its own
      separator loop. */
  method EmitCell(c: Column, p: string, w: Widget, showFloat: FloatPrinter) returns (cell: string)
    ensures cell == Cell(c, p, w, showFloat)
  {
    match c
    case LabelCol =>
      cell := CStrLit(w.labelText);
    case SymbolCol =>
      var id := Mangle(w.labelText);
      cell := CStrLit(id);
    case UnitCol =>
      cell := CStrLit(w.unit);
    case TooltipCol =>
      cell := CStrLit(w.tooltip);
    case MetadataCol =>
      var pairs := EmitPairs(w.metadata);
      cell := MetadataList + pairs + "}";
    case _ =>
      cell := Cell(c, p, w, showFloat);
  }

  /** One array of `dump_widgets`: the loop over the widgets with its
      `separator`. */
  method EmitColumn(c: Column, p: string, ws: seq<Widget>, showFloat: FloatPrinter) returns (line: string)
    ensures line == ColumnLine(c, p, ws, showFloat)
  {
    ghost var cells := Cells(c, p, ws, showFloat);
    var body := "";
    var separator := "";
    for i := 0 to |ws|
      invariant body == Join(cells[..i])
      invariant separator == if i == 0 then "" else ", "
    {
      var cell := EmitCell(c, p, ws[i], showFloat);
      JoinPrefix(cells, i);
      body := body + separator + cell;
      separator := ", ";
    }
    assert cells[..|ws|] == cells;
    line := Static + Decl(c, p) + ArrayOpen + body + ArrayClose;
  }

  /** `dump_widgets(o, widgets, is_active)`. */
  method DumpWidgets(ws: seq<Widget>, isActive: bool, showFloat: FloatPrinter) returns (out: seq<string>)
    ensures out == GroupLines(ws, isActive, showFloat)
  {
    var p := Prefix(isActive);
    var arrays := EmitArrays(ws, p, showFloat);
    var indexed := if isActive then [IndexedSetter(p)] else [];
    indexed := indexed + [IndexedGetter(p), "\n"];
    var setters: seq<string> := [];
    if isActive {
      setters := EmitSetters(ws);
    }
    var getters := EmitGetters(ws);
    assert indexed == IndexedAccessors(isActive, p);
    var accessors := setters + getters;
    assert accessors == Accessors(ws, isActive);
    out := arrays + indexed + accessors;
  }

  /** The fourteen arrays of `dump_widgets`, in source order. */
  method EmitArrays(ws: seq<Widget>, p: string, showFloat: FloatPrinter) returns (out: seq<string>)
    ensures out == ArrayLines(ws, p, showFloat)
  {
    var l0 := EmitColumn(TypeCol, p, ws, showFloat);
    var l1 := EmitColumn(IdCol, p, ws, showFloat);
    var l2 := EmitColumn(LabelCol, p, ws, showFloat);
    var l3 := EmitColumn(SymbolCol, p, ws, showFloat);
    var l4 := EmitColumn(OffsetCol, p, ws, showFloat);
    var l5 := EmitColumn(InitCol, p, ws, showFloat);
    var l6 := EmitColumn(MinCol, p, ws, showFloat);
    var l7 := EmitColumn(MaxCol, p, ws, showFloat);
    var l8 := EmitColumn(StepCol, p, ws, showFloat);
    var l9 := EmitColumn(UnitCol, p, ws, showFloat);
    var l10 := EmitColumn(ScaleCol, p, ws, showFloat);
    var l11 := EmitColumn(TooltipCol, p, ws, showFloat);
    var l12 := EmitColumn(MetadataCol, p, ws, showFloat);
    var l13 := EmitColumn(MetadataSizeCol, p, ws, showFloat);
    out := [l0, l1, l2, l3, l4, l5, l6, l7, l8, "\n", l9, l10, l11, "\n", l12, l13, "\n"];
  }

  /** The named setters, written for the active group only. */
  method EmitSetters(ws: seq<Widget>) returns (setters: seq<string>)
    ensures setters == Setters(ws)
  {
    setters := [];
    for i := 0 to |ws|
      invariant |setters| == i && forall k :: 0 <= k < i ==> setters[k] == Setter(ws[k])
    {
      var name := Mangle("set_" + ws[i].labelText);
      var line := SetHead + name + SetParams + ws[i].varname + SetTail;
      assert line == Setter(ws[i]);
      setters := setters + [line];
    }
  }

  /** The named getters, written for both groups. */
  method EmitGetters(ws: seq<Widget>) returns (getters: seq<string>)
    ensures getters == Getters(ws)
  {
    getters := [];
    for i := 0 to |ws|
      invariant |getters| == i && forall k :: 0 <= k < i ==> getters[k] == Getter(ws[k])
    {
      var name := Mangle("get_" + ws[i].labelText);
      var line := GetHead + name + GetParams + ws[i].varname + GetTail;
      assert line == Getter(ws[i]);
      getters := getters + [line];
    }
  }

  /** A declaration of one of the record's own fields. */
  function FieldLine(decl: string, value: string): string {
    StaticConst + decl + " = " + value + ";\n"
  }

  const StaticConst: string := "\tFMSTATIC constexpr "

  /** The lines of the record's own fields: the six strings through
      `cstrlit`, the four counts in decimal. */
  function ScalarLines(md: Metadata): seq<string> {
    [FieldLine("char name[]", Literal(md.name)),
     FieldLine("char author[]", Literal(md.author)),
     FieldLine("char copyright[]", Literal(md.copyright)),
     FieldLine("char license[]", Literal(md.license)),
     FieldLine("char version[]", Literal(md.version)),
     FieldLine("char classname[]", Literal(md.classname)),
     FieldLine("unsigned inputs", Decimal(md.inputs)),
     FieldLine("unsigned outputs", Decimal(md.outputs)),
     FieldLine("unsigned actives", Decimal(|md.active|)),
     FieldLine("unsigned passives", Decimal(|md.passive|))]
  }

  const GlobalMetadata: string := "const metadata_t metadata"

  /** The global metadata array. */
  function MetadataLines(md: Metadata): seq<string> {
    ["\n", ArrayLine(GlobalMetadata, PairEntries(md.metadata)), "\n"]
  }

  /** The data-carrying lines of the header: the record's fields, the
      global metadata, then the active group and the passive group. */
  function HeaderLines(md: Metadata, showFloat: FloatPrinter): seq<string> {
    ScalarLines(md) + (MetadataLines(md) + (GroupLines(md.active, true, showFloat) + (["\n"] +
    GroupLines(md.passive, false, showFloat))))
  }

  /** `dump_metadata(o, md)`. */
  method DumpMetadata(md: Metadata, showFloat: FloatPrinter) returns (out: seq<string>)
    ensures out == HeaderLines(md, showFloat)
  {
    var name := CStrLit(md.name);
    var author := CStrLit(md.author);
    var copyright := CStrLit(md.copyright);
    var license := CStrLit(md.license);
    var version := CStrLit(md.version);
    var classname := CStrLit(md.classname);
    var scalars := [FieldLine("char name[]", name), FieldLine("char author[]", author),
                    FieldLine("char copyright[]", copyright), FieldLine("char license[]", license),
                    FieldLine("char version[]", version), FieldLine("char classname[]", classname),
                    FieldLine("unsigned inputs", Decimal(md.inputs)), FieldLine("unsigned outputs", Decimal(md.outputs)),
                    FieldLine("unsigned actives", Decimal(|md.active|)), FieldLine("unsigned passives", Decimal(|md.passive|))];
    var pairs := EmitPairs(md.metadata);
    var metadata := ["\n", Static + GlobalMetadata + ArrayOpen + pairs + ArrayClose, "\n"];
    assert metadata == MetadataLines(md);
    var active := DumpWidgets(md.active, true, showFloat);
    var passive := DumpWidgets(md.passive, false, showFloat);
    out := scalars + (metadata + (active + (["\n"] + passive)));
  }

  /** The header has one line per accessor besides its fixed lines. */
  lemma HeaderLength(md: Metadata, showFloat: FloatPrinter)
    ensures |HeaderLines(md, showFloat)| == 13 + 20 + 2 * |md.active| + 1 + 19 + |md.passive|
  {
    GroupLinesLength(md.active, true, showFloat);
    GroupLinesLength(md.passive, false, showFloat);
  }

  /** The header states the two group sizes. */
  lemma HeaderCounts(md: Metadata, showFloat: FloatPrinter)
    ensures |HeaderLines(md, showFloat)| > 10
    ensures HeaderLines(md, showFloat)[8] == FieldLine("unsigned actives", Decimal(|md.active|))
    ensures HeaderLines(md, showFloat)[9] == FieldLine("unsigned passives", Decimal(|md.passive|))
  {
    var h := HeaderLines(md, showFloat);
    var sc := ScalarLines(md);
    assert h[..10] == sc;
    assert h[8] == sc[8] && h[9] == sc[9];
  }
}
