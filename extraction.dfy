/** `extract_metadata` and `extract_widget` (metadata.cpp): filling a
    `Metadata` record from the report tree. */
module Extraction {
  import opened Text
  import opened MetadataModel
  import opened Report
  import opened Names
  import opened Numbers

  /** How an extraction step ends: with a value, with the `-1` return, or
      with an exception from `std::stoi`/`std::stof` that nothing catches. */
  datatype Outcome<T> = Done(value: T) | Fail | Abort

  /** The same three endings, for the methods that return a status. */
  datatype Status = Ok | Failed | Aborted

  /** `std::stof`: the value of a float field, or `None` where it throws.
      Float parsing is not modelled; it is a parameter of the model. */
  type FloatParser = string -> Option<real>

  predicate IsContinuous(t: WidgetType) {
    t == HSlider || t == VSlider || t == NEntry
  }

  predicate IsDiscrete(t: WidgetType) {
    t == Button || t == CheckBox
  }

  predicate IsBarGraph(t: WidgetType) {
    t == VBarGraph || t == HBarGraph
  }

  /** A widget `meta` that the report generator writes for declaration order:
      a decimal-integer key with an empty value. */
  predicate Ignorable(m: MetaNode) {
    IsDecInt(m.key) && m.value == ""
  }

  // ---------------------------------------------------------------------
  // Per-widget metadata

  /** One pass of the `meta` loop of `extract_widget`. */
  function InterpretMeta(w: Widget, m: MetaNode): Widget {
    if Ignorable(m) then w
    else
      var w' := w.(metadata := w.metadata + [(m.key, m.value)]);
      if m.key == "unit" then w'.(unit := m.value)
      else if m.key == "scale" then w'.(scale := InterpretScale(m.value))
      else if m.key == "tooltip" then w'.(tooltip := m.value)
      else w'
  }

  /** The whole `meta` loop, over the children in document order. */
  function InterpretAll(w: Widget, ms: seq<MetaNode>): Widget {
    if ms == [] then w else InterpretMeta(InterpretAll(w, ms[..|ms| - 1]), ms[|ms| - 1])
  }

  /** The pairs of `ms` that are not ignorable, in order. */
  function KeptPairs(ms: seq<MetaNode>): seq<Pair> {
    if ms == [] then []
    else
      var m := ms[|ms| - 1];
      KeptPairs(ms[..|ms| - 1]) + (if Ignorable(m) then [] else [(m.key, m.value)])
  }

  /** The value of the last pair of `ms` with key `key`. */
  function LastValue(ms: seq<MetaNode>, key: string): Option<string> {
    if ms == [] then None
    else if ms[|ms| - 1].key == key then Some(ms[|ms| - 1].value)
    else LastValue(ms[..|ms| - 1], key)
  }

  /** The fields of a widget that the `meta` loop never touches. */
  predicate SameFixedFields(a: Widget, b: Widget) {
    a.kind == b.kind && a.id == b.id && a.labelText == b.labelText && a.varname == b.varname &&
    a.symbol == b.symbol && a.init == b.init && a.min == b.min && a.max == b.max && a.step == b.step
  }

  /** One pass of the loop: an ignorable pair changes nothing, any other is
      recorded and sets the field its key names. */
  lemma InterpretMetaEffect(w: Widget, m: MetaNode)
    ensures var r := InterpretMeta(w, m);
      && r.metadata == w.metadata + (if Ignorable(m) then [] else [(m.key, m.value)])
      && r.unit == (if m.key == "unit" then m.value else w.unit)
      && r.tooltip == (if m.key == "tooltip" then m.value else w.tooltip)
      && r.scale == (if m.key == "scale" then InterpretScale(m.value) else w.scale)
      && SameFixedFields(r, w)
  {
    InterpretedKeysAreNotDecInt();
  }

  /** The interpretation appends exactly the kept pairs, in order; the last
      `unit`, `scale` and `tooltip` win; no other field changes. */
  lemma {:induction false} InterpretAllEffect(w: Widget, ms: seq<MetaNode>)
    ensures var r := InterpretAll(w, ms);
      && r.metadata == w.metadata + KeptPairs(ms)
      && r.unit == LastValue(ms, "unit").GetOr(w.unit)
      && r.tooltip == LastValue(ms, "tooltip").GetOr(w.tooltip)
      && r.scale == (if LastValue(ms, "scale").Some? then InterpretScale(LastValue(ms, "scale").value) else w.scale)
      && SameFixedFields(r, w)
  {
    if ms != [] {
      var init, m := ms[..|ms| - 1], ms[|ms| - 1];
      InterpretAllEffect(w, init);
      var r0 := InterpretAll(w, init);
      InterpretMetaEffect(r0, m);
      assert w.metadata + KeptPairs(ms) == (w.metadata + KeptPairs(init)) + (if Ignorable(m) then [] else [(m.key, m.value)]);
    }
  }

  /** Which pairs survive: an ignorable pair never appears, every other pair
      does, and the survivors keep their document order. */
  lemma {:induction false} KeptPairsContents(ms: seq<MetaNode>)
    ensures forall p :: p in KeptPairs(ms) <==>
      exists i :: 0 <= i < |ms| && !Ignorable(ms[i]) && p == (ms[i].key, ms[i].value)
    ensures |KeptPairs(ms)| <= |ms|
    ensures (forall i :: 0 <= i < |ms| ==> !Ignorable(ms[i])) ==>
      KeptPairs(ms) == seq(|ms|, i requires 0 <= i < |ms| => (ms[i].key, ms[i].value))
  {
    if ms != [] {
      var init := ms[..|ms| - 1];
      KeptPairsContents(init);
      forall p | p in KeptPairs(ms)
        ensures exists i :: 0 <= i < |ms| && !Ignorable(ms[i]) && p == (ms[i].key, ms[i].value)
      {
        if p in KeptPairs(init) {
          var i :| 0 <= i < |init| && !Ignorable(init[i]) && p == (init[i].key, init[i].value);
          assert ms[i] == init[i];
        } else {
          assert p == (ms[|ms| - 1].key, ms[|ms| - 1].value);
        }
      }
      forall p | exists i :: 0 <= i < |ms| && !Ignorable(ms[i]) && p == (ms[i].key, ms[i].value)
        ensures p in KeptPairs(ms)
      {
        var i :| 0 <= i < |ms| && !Ignorable(ms[i]) && p == (ms[i].key, ms[i].value);
        if i < |ms| - 1 {
          assert init[i] == ms[i];
        }
      }
    }
  }

  // ---------------------------------------------------------------------
  // One widget

  /** The widget `extract_widget` has built before its `meta` loop: the kind,
      the id, label and varname, and the numeric fields its group and kind
      call for. */
  function BaseWidget(node: WidgetNode, isActive: bool, stof: FloatParser): Outcome<Widget> {
    match TypeFromName(node.kind)
    case None => Fail
    case Some(t) =>
      match StoI(node.id)
      case None => Abort
      case Some(id) =>
        var w := NewWidget(t).(id := id, labelText := node.labelText, varname := node.varname);
        if isActive && IsContinuous(t) then
          match (stof(node.init), stof(node.min), stof(node.max), stof(node.step))
          case (Some(a), Some(b), Some(c), Some(d)) => Done(w.(init := a, min := b, max := c, step := d))
          case _ => Abort
        else if isActive && IsDiscrete(t) then
          Done(w.(init := 0.0, min := 0.0, max := 1.0, step := 1.0))
        else if !isActive && IsBarGraph(t) then
          match (stof(node.min), stof(node.max))
          case (Some(b), Some(c)) => Done(w.(min := b, max := c))
          case _ => Abort
        else Fail
  }

  /** What `extract_widget` makes of one `widget` element of the active
      (`isActive`) or passive group. */
  function WidgetOf(node: WidgetNode, isActive: bool, stof: FloatParser): Outcome<Widget> {
    match BaseWidget(node, isActive, stof)
    case Done(w) => Done(InterpretAll(w, node.meta))
    case Fail => Fail
    case Abort => Abort
  }

  /** Each kind belongs to exactly one group, and to one of its branches. */
  lemma Groups(t: WidgetType)
    ensures IsActiveType(t) <==> IsContinuous(t) || IsDiscrete(t)
    ensures !IsActiveType(t) <==> IsBarGraph(t)
  {
  }

  /** `extract_widget` returns -1 exactly for an unknown kind, or (once the
      id has been read) for a kind that does not belong to its group. */
  lemma WidgetOfFails(node: WidgetNode, isActive: bool, stof: FloatParser)
    ensures WidgetOf(node, isActive, stof) == Fail <==>
      TypeFromName(node.kind).None? ||
      (StoI(node.id).Some? && isActive != IsActiveType(TypeFromName(node.kind).value))
  {
    assert WidgetOf(node, isActive, stof) == Fail <==> BaseWidget(node, isActive, stof) == Fail;
    match TypeFromName(node.kind)
    case None =>
    case Some(t) =>
      Groups(t);
      match StoI(node.id)
      case None =>
      case Some(id) =>
        if isActive && IsContinuous(t) {
          assert BaseWidget(node, isActive, stof) != Fail;
        } else if isActive && IsDiscrete(t) {
        } else if !isActive && IsBarGraph(t) {
          assert BaseWidget(node, isActive, stof) != Fail;
        }
  }

  /** What an extracted widget holds. */
  lemma WidgetOfDone(node: WidgetNode, isActive: bool, stof: FloatParser)
    requires WidgetOf(node, isActive, stof).Done?
    ensures var w := WidgetOf(node, isActive, stof).value;
      && Some(w.kind) == TypeFromName(node.kind)
      && isActive == IsActiveType(w.kind)
      && Some(w.id) == StoI(node.id)
      && w.labelText == node.labelText && w.varname == node.varname
      && w.symbol == ""
      && (IsDiscrete(w.kind) ==> w.init == 0.0 && w.min == 0.0 && w.max == 1.0 && w.step == 1.0)
      && (IsContinuous(w.kind) ==>
            Some(w.init) == stof(node.init) && Some(w.min) == stof(node.min) &&
            Some(w.max) == stof(node.max) && Some(w.step) == stof(node.step))
      && (!isActive ==> w.init == 0.0 && w.step == 0.0 && Some(w.min) == stof(node.min) && Some(w.max) == stof(node.max))
      && w.metadata == KeptPairs(node.meta)
      && w.unit == LastValue(node.meta, "unit").GetOr("")
      && w.tooltip == LastValue(node.meta, "tooltip").GetOr("")
      && w.scale == (if LastValue(node.meta, "scale").Some? then InterpretScale(LastValue(node.meta, "scale").value) else Linear)
  {
    var t := TypeFromName(node.kind).value;
    var w0 := NewWidget(t).(id := StoI(node.id).value, labelText := node.labelText, varname := node.varname);
    if isActive && IsContinuous(t) {
      InterpretAllEffect(w0.(init := stof(node.init).value, min := stof(node.min).value,
                             max := stof(node.max).value, step := stof(node.step).value), node.meta);
    } else if isActive && IsDiscrete(t) {
      InterpretAllEffect(w0.(init := 0.0, min := 0.0, max := 1.0, step := 1.0), node.meta);
    } else {
      InterpretAllEffect(w0.(min := stof(node.min).value, max := stof(node.max).value), node.meta);
    }
  }

  /** `extract_widget(node, is_active, md)`: on success the widget is
      appended to its group; on -1 nothing is appended. */
  method ExtractWidget(node: WidgetNode, isActive: bool, stof: FloatParser, md: Metadata)
    returns (status: Status, md': Metadata)
    ensures match WidgetOf(node, isActive, stof)
      case Done(w) =>
        status == Ok && md' == if isActive then md.(active := md.active + [w]) else md.(passive := md.passive + [w])
      case Fail => status == Failed && md' == md
      case Abort => status == Aborted
  {
    var o := ReadWidget(node, isActive, stof);
    match o
    case Fail =>
      return Failed, md;
    case Abort =>
      return Aborted, md;
    case Done(w) =>
      w := InterpretMetaLoop(w, node.meta);
      if isActive {
        md' := md.(active := md.active + [w]);
      } else {
        md' := md.(passive := md.passive + [w]);
      }
      status := Ok;
  }

  /** The part of `extract_widget` before its `meta` loop: the kind and id
      are read first, then the numeric fields of the widget's group. */
  method ReadWidget(node: WidgetNode, isActive: bool, stof: FloatParser) returns (o: Outcome<Widget>)
    ensures o == BaseWidget(node, isActive, stof)
  {
    var t := TypeFromName(node.kind);
    if t.None? {
      return Fail;
    }
    var id := StoI(node.id);
    if id.None? {
      return Abort;
    }
    var w := NewWidget(t.value);
    w := w.(id := id.value);
    w := w.(labelText := node.labelText);
    w := w.(varname := node.varname);

    var ty := t.value;
    if isActive && (ty == HSlider || ty == VSlider || ty == NEntry) {
      var init := stof(node.init);
      if init.None? { return Abort; }
      var min := stof(node.min);
      if min.None? { return Abort; }
      var max := stof(node.max);
      if max.None? { return Abort; }
      var step := stof(node.step);
      if step.None? { return Abort; }
      w := w.(init := init.value, min := min.value, max := max.value, step := step.value);
    } else if isActive && (ty == Button || ty == CheckBox) {
      w := w.(init := 0.0, min := 0.0, max := 1.0, step := 1.0);
    } else if !isActive && (ty == VBarGraph || ty == HBarGraph) {
      var min := stof(node.min);
      if min.None? { return Abort; }
      var max := stof(node.max);
      if max.None? { return Abort; }
      w := w.(min := min.value, max := max.value);
    } else {
      return Fail;
    }
    return Done(w);
  }

  /** The `meta` loop of `extract_widget`. */
  method InterpretMetaLoop(w0: Widget, ms: seq<MetaNode>) returns (w: Widget)
    ensures w == InterpretAll(w0, ms)
  {
    w := w0;
    for i := 0 to |ms|
      invariant w == InterpretAll(w0, ms[..i])
    {
      var key := ms[i].key;
      var value := ms[i].value;
      assert ms[..i + 1][..i] == ms[..i];
      var decint := IsDecIntString(key);
      if decint && value == "" {
        continue;
      }
      w := w.(metadata := w.metadata + [(key, value)]);
      if key == "unit" {
        w := w.(unit := value);
      } else if key == "scale" {
        var s := ScaleFromName(value);
        if s.None? {
          // the source warns about the unrecognised scale type here
          w := w.(scale := Linear);
        } else {
          w := w.(scale := s.value);
        }
      } else if key == "tooltip" {
        w := w.(tooltip := value);
      }
    }
    assert ms[..|ms|] == ms;
  }

  // ---------------------------------------------------------------------
  // The whole report

  /** The values of a sequence of outcomes, stopping at the first one that
      is not a value. */
  function Collect<T>(outs: seq<Outcome<T>>): Outcome<seq<T>> {
    if outs == [] then Done([])
    else
      match Collect(outs[..|outs| - 1])
      case Done(vs) =>
        (match outs[|outs| - 1]
         case Done(v) => Done(vs + [v])
         case Fail => Fail
         case Abort => Abort)
      case Fail => Fail
      case Abort => Abort
  }

  /** Collecting succeeds exactly when every outcome is a value, and then
      gives those values in order. */
  lemma {:induction false} CollectDone<T>(outs: seq<Outcome<T>>)
    ensures Collect(outs).Done? <==> forall i :: 0 <= i < |outs| ==> outs[i].Done?
    ensures Collect(outs).Done? ==>
      |Collect(outs).value| == |outs| &&
      forall i :: 0 <= i < |outs| ==> Collect(outs).value[i] == outs[i].value
  {
    if outs != [] {
      var init := outs[..|outs| - 1];
      CollectDone(init);
      assert forall i :: 0 <= i < |init| ==> init[i] == outs[i];
    }
  }

  /** A failing collection fails the way its first failing outcome does. */
  lemma {:induction false} CollectFirstFailure<T>(outs: seq<Outcome<T>>, k: nat)
    requires k < |outs| && !outs[k].Done?
    requires forall i :: 0 <= i < k ==> outs[i].Done?
    ensures Collect(outs) == if outs[k].Fail? then Fail else Abort
  {
    var init := outs[..|outs| - 1];
    assert forall i :: 0 <= i < |init| ==> init[i] == outs[i];
    if k < |outs| - 1 {
      CollectFirstFailure(init, k);
    } else {
      CollectDone(init);
    }
  }

  /** The outcome of each widget element of a group. */
  function WidgetOutcomes(nodes: seq<WidgetNode>, isActive: bool, stof: FloatParser): (outs: seq<Outcome<Widget>>)
    ensures |outs| == |nodes|
    ensures forall i :: 0 <= i < |nodes| ==> outs[i] == WidgetOf(nodes[i], isActive, stof)
  {
    seq(|nodes|, i requires 0 <= i < |nodes| => WidgetOf(nodes[i], isActive, stof))
  }

  /** The widgets of one group, extracted in document order; the first
      widget that fails decides how the group fails. */
  function Widgets(nodes: seq<WidgetNode>, isActive: bool, stof: FloatParser): Outcome<seq<Widget>> {
    Collect(WidgetOutcomes(nodes, isActive, stof))
  }

  /** A group extracts exactly when each of its widgets does, into one
      widget per element in the same order. */
  lemma WidgetsDone(nodes: seq<WidgetNode>, isActive: bool, stof: FloatParser)
    ensures Widgets(nodes, isActive, stof).Done? <==>
      forall i :: 0 <= i < |nodes| ==> WidgetOf(nodes[i], isActive, stof).Done?
    ensures Widgets(nodes, isActive, stof).Done? ==>
      var ws := Widgets(nodes, isActive, stof).value;
      |ws| == |nodes| && forall i :: 0 <= i < |nodes| ==> ws[i] == WidgetOf(nodes[i], isActive, stof).value
  {
    var outs := WidgetOutcomes(nodes, isActive, stof);
    CollectDone(outs);
    if Collect(outs).Done? {
      var ws := Collect(outs).value;
      forall i | 0 <= i < |nodes| ensures ws[i] == WidgetOf(nodes[i], isActive, stof).value {
        assert ws[i] == outs[i].value;
      }
    }
  }

  /** A failing group fails the way its first failing widget does. */
  lemma WidgetsFirstFailure(nodes: seq<WidgetNode>, isActive: bool, stof: FloatParser, k: nat)
    requires k < |nodes| && !WidgetOf(nodes[k], isActive, stof).Done?
    requires forall i :: 0 <= i < k ==> WidgetOf(nodes[i], isActive, stof).Done?
    ensures Widgets(nodes, isActive, stof) == if WidgetOf(nodes[k], isActive, stof).Fail? then Fail else Abort
  {
    CollectFirstFailure(WidgetOutcomes(nodes, isActive, stof), k);
  }

  /** One more widget element extends a group that extracted so far. */
  lemma WidgetsSnoc(nodes: seq<WidgetNode>, isActive: bool, stof: FloatParser, i: nat)
    requires i < |nodes|
    ensures Widgets(nodes[..i + 1], isActive, stof) ==
      match Widgets(nodes[..i], isActive, stof)
      case Done(ws) =>
        (match WidgetOf(nodes[i], isActive, stof)
         case Done(w) => Done(ws + [w])
         case Fail => Fail
         case Abort => Abort)
      case Fail => Fail
      case Abort => Abort
  {
    var outs := WidgetOutcomes(nodes[..i + 1], isActive, stof);
    assert outs[..i] == WidgetOutcomes(nodes[..i], isActive, stof);
  }

  /** The root `meta` children as pairs, in document order, none dropped. */
  function MetaPairs(ms: seq<MetaNode>): (ps: seq<Pair>)
    ensures |ps| == |ms| && forall i :: 0 <= i < |ms| ==> ps[i] == (ms[i].key, ms[i].value)
  {
    if ms == [] then [] else MetaPairs(ms[..|ms| - 1]) + [(ms[|ms| - 1].key, ms[|ms| - 1].value)]
  }

  /** `std::stoi`'s `int` converted to `unsigned`. */
  function ToUnsigned(v: int): (u: Unsigned)
    ensures 0 <= v < 0x1_0000_0000 ==> u == v
    ensures -0x8000_0000 <= v < 0 ==> u == v + 0x1_0000_0000
  {
    v % 0x1_0000_0000
  }

  /** The record before any widget: scalar fields and global metadata. */
  function Scalars(doc: Document, inputs: int, outputs: int): Metadata {
    EmptyMetadata().(name := doc.name, author := doc.author, copyright := doc.copyright,
                     license := doc.license, version := doc.version, classname := doc.classname,
                     inputs := ToUnsigned(inputs), outputs := ToUnsigned(outputs),
                     metadata := MetaPairs(doc.meta))
  }

  /** What `extract_metadata` makes of the report: scalars, then the global
      metadata, then the active widgets, then the passive ones. */
  function Extract(doc: Document, stof: FloatParser): Outcome<Metadata> {
    match (StoI(doc.inputs), StoI(doc.outputs))
    case (Some(i), Some(o)) =>
      (match Widgets(doc.active, true, stof)
       case Done(a) =>
         (match Widgets(doc.passive, false, stof)
          case Done(p) => Done(Scalars(doc, i, o).(active := a, passive := p))
          case Fail => Fail
          case Abort => Abort)
       case Fail => Fail
       case Abort => Abort)
    case _ => Abort
  }

  /** A successful extraction is made of the scalar fields, the global pairs
      and the two extracted groups. */
  lemma ExtractParts(doc: Document, stof: FloatParser)
    requires Extract(doc, stof).Done?
    ensures StoI(doc.inputs).Some? && StoI(doc.outputs).Some?
    ensures Widgets(doc.active, true, stof).Done? && Widgets(doc.passive, false, stof).Done?
    ensures var md := Extract(doc, stof).value;
      && md.metadata == MetaPairs(doc.meta)
      && md.active == Widgets(doc.active, true, stof).value
      && md.passive == Widgets(doc.passive, false, stof).value
  {
  }

  /** An extracted record keeps the order of the report: global pairs as
      written, and one widget per element of each group at the same position. */
  lemma ExtractShape(doc: Document, stof: FloatParser)
    requires Extract(doc, stof).Done?
    ensures var md := Extract(doc, stof).value;
      && md.metadata == MetaPairs(doc.meta)
      && |md.active| == |doc.active| && |md.passive| == |doc.passive|
      && (forall i :: 0 <= i < |doc.active| ==> Done(md.active[i]) == WidgetOf(doc.active[i], true, stof))
      && (forall i :: 0 <= i < |doc.passive| ==> Done(md.passive[i]) == WidgetOf(doc.passive[i], false, stof))
  {
    ExtractParts(doc, stof);
    WidgetsDone(doc.active, true, stof);
    WidgetsDone(doc.passive, false, stof);
  }

  /** Every widget of an extracted group has an empty symbol and a kind of
      that group: an active kind for the active group, a bar graph for the
      passive one. */
  lemma GroupKinds(nodes: seq<WidgetNode>, isActive: bool, stof: FloatParser)
    requires Widgets(nodes, isActive, stof).Done?
    ensures var ws := Widgets(nodes, isActive, stof).value;
      forall i :: 0 <= i < |ws| ==> IsActiveType(ws[i].kind) == isActive && ws[i].symbol == ""
  {
    WidgetsDone(nodes, isActive, stof);
    var ws := Widgets(nodes, isActive, stof).value;
    forall i | 0 <= i < |ws| ensures IsActiveType(ws[i].kind) == isActive && ws[i].symbol == "" {
      WidgetOfDone(nodes[i], isActive, stof);
    }
  }

  /** In an extracted record every active widget is of an active kind, every
      passive one a bar graph, and no widget has a symbol. */
  lemma ExtractKinds(doc: Document, stof: FloatParser)
    requires Extract(doc, stof).Done?
    ensures var md := Extract(doc, stof).value;
      && (forall i :: 0 <= i < |md.active| ==> IsActiveType(md.active[i].kind) && md.active[i].symbol == "")
      && (forall i :: 0 <= i < |md.passive| ==> IsBarGraph(md.passive[i].kind) && md.passive[i].symbol == "")
  {
    ExtractParts(doc, stof);
    GroupKinds(doc.active, true, stof);
    GroupKinds(doc.passive, false, stof);
    var ps := Extract(doc, stof).value.passive;
    forall i | 0 <= i < |ps| ensures IsBarGraph(ps[i].kind) {
      Groups(ps[i].kind);
    }
  }

  /** An unknown widget kind among the active widgets makes the whole
      extraction fail, unless an earlier widget or field already stopped it. */
  lemma UnknownKindFails(doc: Document, stof: FloatParser, k: nat)
    requires StoI(doc.inputs).Some? && StoI(doc.outputs).Some?
    requires k < |doc.active| && TypeFromName(doc.active[k].kind).None?
    requires forall i :: 0 <= i < k ==> WidgetOf(doc.active[i], true, stof).Done?
    ensures Extract(doc, stof) == Fail
  {
    WidgetsFirstFailure(doc.active, true, stof, k);
  }

  /** The same for the passive widgets, which are read once every active
      widget is extracted. */
  lemma UnknownPassiveKindFails(doc: Document, stof: FloatParser, k: nat)
    requires StoI(doc.inputs).Some? && StoI(doc.outputs).Some?
    requires forall i :: 0 <= i < |doc.active| ==> WidgetOf(doc.active[i], true, stof).Done?
    requires k < |doc.passive| && TypeFromName(doc.passive[k].kind).None?
    requires forall i :: 0 <= i < k ==> WidgetOf(doc.passive[i], false, stof).Done?
    ensures Extract(doc, stof) == Fail
  {
    WidgetsDone(doc.active, true, stof);
    WidgetOfFails(doc.passive[k], false, stof);
    WidgetsFirstFailure(doc.passive, false, stof, k);
  }

  /** `extract_metadata`, writing into a default `Metadata` as
      `process_document` passes it. */
  method ExtractMetadata(doc: Document, stof: FloatParser) returns (status: Status, md: Metadata)
    ensures match Extract(doc, stof)
      case Done(m) => status == Ok && md == m
      case Fail => status == Failed
      case Abort => status == Aborted
  {
    md := EmptyMetadata();
    md := md.(name := doc.name, author := doc.author, copyright := doc.copyright,
              license := doc.license, version := doc.version, classname := doc.classname);
    var inputs := StoI(doc.inputs);
    if inputs.None? {
      return Aborted, md;
    }
    md := md.(inputs := ToUnsigned(inputs.value));
    var outputs := StoI(doc.outputs);
    if outputs.None? {
      return Aborted, md;
    }
    md := md.(outputs := ToUnsigned(outputs.value));

    var pairs := CopyMeta(doc.meta);
    md := md.(metadata := pairs);
    assert md == Scalars(doc, inputs.value, outputs.value);

    var st;
    st, md := ExtractGroup(doc.active, true, stof, md);
    if st != Ok {
      return st, md;
    }
    assert [] + Widgets(doc.active, true, stof).value == Widgets(doc.active, true, stof).value;
    status, md := ExtractGroup(doc.passive, false, stof, md);
    if status == Ok {
      assert [] + Widgets(doc.passive, false, stof).value == Widgets(doc.passive, false, stof).value;
    }
  }

  /** The loop of `extract_metadata` over the global `meta` elements: one
      pair per element, in order. */
  method CopyMeta(ms: seq<MetaNode>) returns (ps: seq<Pair>)
    ensures ps == MetaPairs(ms)
  {
    ps := [];
    for i := 0 to |ms|
      invariant ps == MetaPairs(ms[..i])
    {
      assert ms[..i + 1][..i] == ms[..i];
      ps := ps + [(ms[i].key, ms[i].value)];
    }
    assert ms[..|ms|] == ms;
  }

  /** `md` with the widgets `ws` appended to one of its two groups. */
  function WithGroup(md: Metadata, isActive: bool, ws: seq<Widget>): Metadata {
    if isActive then md.(active := md.active + ws) else md.(passive := md.passive + ws)
  }

  /** The widget loop of `extract_metadata` for one group: each element is
      extracted in turn and appended to the group, and the first failure ends
      the loop. */
  method ExtractGroup(nodes: seq<WidgetNode>, isActive: bool, stof: FloatParser, md: Metadata)
    returns (status: Status, md': Metadata)
    ensures match Widgets(nodes, isActive, stof)
      case Done(ws) => status == Ok && md' == WithGroup(md, isActive, ws)
      case Fail => status == Failed
      case Abort => status == Aborted
  {
    md' := md;
    ghost var ws: seq<Widget> := [];
    assert md.active + [] == md.active && md.passive + [] == md.passive;
    for i := 0 to |nodes|
      invariant Widgets(nodes[..i], isActive, stof) == Done(ws)
      invariant md' == WithGroup(md, isActive, ws)
    {
      var st;
      st, md', ws := ExtractNext(nodes, isActive, stof, i, md, ws, md');
      if st != Ok {
        return st, md';
      }
    }
    assert nodes[..|nodes|] == nodes;
    status := Ok;
  }

  /** One turn of the widget loop: the next element either extends the
      group, or decides how the whole group fails. */
  method ExtractNext(nodes: seq<WidgetNode>, isActive: bool, stof: FloatParser, i: nat,
                     md: Metadata, ghost ws: seq<Widget>, cur: Metadata)
    returns (status: Status, md': Metadata, ghost ws': seq<Widget>)
    requires i < |nodes| && Widgets(nodes[..i], isActive, stof) == Done(ws)
    requires cur == WithGroup(md, isActive, ws)
    ensures status == Ok ==> Widgets(nodes[..i + 1], isActive, stof) == Done(ws') && md' == WithGroup(md, isActive, ws')
    ensures status == Failed ==> Widgets(nodes, isActive, stof) == Fail
    ensures status == Aborted ==> Widgets(nodes, isActive, stof) == Abort
  {
    WidgetsSnoc(nodes, isActive, stof, i);
    ghost var o := WidgetOf(nodes[i], isActive, stof);
    status, md' := ExtractWidget(nodes[i], isActive, stof, cur);
    ws' := ws;
    if status != Ok {
      FirstFailureOfGroup(nodes, isActive, stof, i);
    } else {
      WithGroupSnoc(md, isActive, ws, o.value);
      ws' := ws + [o.value];
    }
  }

  /** Appending one widget to a group that already holds `ws`. */
  lemma WithGroupSnoc(md: Metadata, isActive: bool, ws: seq<Widget>, w: Widget)
    ensures var cur := WithGroup(md, isActive, ws);
      WithGroup(md, isActive, ws + [w]) ==
        if isActive then cur.(active := cur.active + [w]) else cur.(passive := cur.passive + [w])
  {
    assert md.active + ws + [w] == md.active + (ws + [w]);
    assert md.passive + ws + [w] == md.passive + (ws + [w]);
  }

  /** When the widgets before `i` extract and widget `i` does not, the whole
      group fails as widget `i` does. */
  lemma FirstFailureOfGroup(nodes: seq<WidgetNode>, isActive: bool, stof: FloatParser, i: nat)
    requires i < |nodes| && !WidgetOf(nodes[i], isActive, stof).Done?
    requires Widgets(nodes[..i], isActive, stof).Done?
    ensures Widgets(nodes, isActive, stof) == if WidgetOf(nodes[i], isActive, stof).Fail? then Fail else Abort
  {
    WidgetsDone(nodes[..i], isActive, stof);
    forall j | 0 <= j < i ensures WidgetOf(nodes[j], isActive, stof).Done? {
      assert nodes[..i][j] == nodes[j];
    }
    WidgetsFirstFailure(nodes, isActive, stof, i);
  }
}
