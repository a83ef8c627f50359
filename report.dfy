/** The structured report that the Faust compiler writes with `-xml`, as the
    program reads it through pugixml. Every element the program looks up with
    `child_value(...)` or `attribute(...).value()` is kept as its text; a
    missing element or attribute reads as "". */
module Report {

  /** A `<meta key="...">value</meta>` element. */
  datatype MetaNode = MetaNode(key: string, value: string)

  /** A `<widget type="..." id="...">` element of `ui/activewidgets` or
      `ui/passivewidgets`, with the text of its `label`, `varname`, `init`,
      `min`, `max` and `step` children and its `meta` children in order. */
  datatype WidgetNode = WidgetNode(
    kind: string,
    id: string,
    labelText: string,
    varname: string,
    init: string,
    min: string,
    max: string,
    step: string,
    meta: seq<MetaNode>)

  /** The `<faust>` root: its scalar children, its `meta` children and the two
      widget groups under `ui`. */
  datatype Document = Document(
    name: string,
    author: string,
    copyright: string,
    license: string,
    version: string,
    classname: string,
    inputs: string,
    outputs: string,
    meta: seq<MetaNode>,
    active: seq<WidgetNode>,
    passive: seq<WidgetNode>)

  /** A default-constructed `pugi::xml_document`: it has no `faust` root, so
      every lookup under the root reads as "" and every child list is empty. */
  function EmptyDocument(): Document {
    Document("", "", "", "", "", "", "", "", [], [], [])
  }

  /** `root.find_node(name == "meta")`, over the `meta` elements this tree
      keeps: those of the root and those of the widgets. */
  predicate HasMeta(doc: Document) {
    doc.meta != [] ||
    (exists i :: 0 <= i < |doc.active| && doc.active[i].meta != []) ||
    (exists i :: 0 <= i < |doc.passive| && doc.passive[i].meta != [])
  }
}
