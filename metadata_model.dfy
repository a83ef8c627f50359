/** The in-memory description of a compiled DSP program (metadata.h): the
    `Metadata` record, its `Widget` records and the two enumerations. */
module MetadataModel {

  /** The seven widget kinds (`Metadata::Widget::Type`). The first five are
      active (user-settable) controls, the last two passive displays. */
  datatype WidgetType = Button | CheckBox | VSlider | HSlider | NEntry | VBarGraph | HBarGraph

  /** `Metadata::Widget::Scale` */
  datatype Scale = Linear | Log | Exp

  /** A key/value pair of `std::vector<std::pair<std::string, std::string>>`. */
  type Pair = (string, string)

  /** `unsigned` on the platforms the program targets. */
  type Unsigned = x: int | 0 <= x < 0x1_0000_0000

  /** `Metadata::Widget`. The C++ `float` fields are modelled as reals. */
  datatype Widget = Widget(
    kind: WidgetType,
    id: int,
    labelText: string,
    varname: string,
    symbol: string,
    init: real,
    min: real,
    max: real,
    step: real,
    metadata: seq<Pair>,
    unit: string,
    scale: Scale,
    tooltip: string)

  /** `Metadata` */
  datatype Metadata = Metadata(
    name: string,
    author: string,
    copyright: string,
    license: string,
    version: string,
    classname: string,
    metadata: seq<Pair>,
    inputs: Unsigned,
    outputs: Unsigned,
    active: seq<Widget>,
    passive: seq<Widget>)

  predicate IsActiveType(t: WidgetType) {
    t == Button || t == CheckBox || t == VSlider || t == HSlider || t == NEntry
  }

  /** A default-initialised `Widget` whose type has just been set to `t`
      (the source's default type, `(Type)-1`, never survives extraction). */
  function NewWidget(t: WidgetType): (w: Widget)
    ensures w.kind == t && w.id == 0
    ensures w.init == 0.0 && w.min == 0.0 && w.max == 0.0 && w.step == 0.0
    ensures w.labelText == "" && w.varname == "" && w.symbol == ""
    ensures w.metadata == [] && w.unit == "" && w.scale == Linear && w.tooltip == ""
  {
    Widget(t, 0, "", "", "", 0.0, 0.0, 0.0, 0.0, [], "", Linear, "")
  }

  /** A default-initialised `Metadata`, as `process_document` declares it. */
  function EmptyMetadata(): (md: Metadata)
    ensures md.inputs == 0 && md.outputs == 0
    ensures md.metadata == [] && md.active == [] && md.passive == []
    ensures md.name == "" && md.classname == ""
  {
    Metadata("", "", "", "", "", "", [], 0, 0, [], [])
  }
}
