/** The YAML writer (`jsonToYaml`, script.js:538-577). */
module YamlEmit {
  import opened Text
  import opened Values
  import opened Js

  /** A scalar inside a document: strings as they are, everything else as
      `JSON.stringify` prints it. */
  function ScalarText(e: Engine, v: Val): string
    requires !IsContainer(v)
  {
    if v.Str? then v.s else JsonScalar(e, v)
  }

  /** `jsonToYaml(v, indent)`. */
  function YamlOf(e: Engine, v: Val, indent: nat): string
    decreases v, 1
  {
    match v
    case Arr(items, _) => ItemsText(e, items, indent, v)
    case Obj(fs) => FieldsText(e, fs, indent, v)
    case _ => JsonScalar(e, v)
  }

  /** The `for..of` loop over an array's elements (script.js:544-556): each
      element opens a `- ` line. */
  function ItemsText(e: Engine, items: seq<Val>, indent: nat, ghost parent: Val): string
    requires forall i :: 0 <= i < |items| ==> items[i] < parent
    decreases parent, 0, |items|
  {
    if items == [] then ""
    else Indent(indent) + "- " + ItemTail(e, items[0], indent) + ItemsText(e, items[1..], indent, parent)
  }

  /** What follows `- ` for one element: an object or array continues on
      the next lines one level deeper, anything else ends the line. */
  function ItemTail(e: Engine, x: Val, indent: nat): string
    decreases x, 2
  {
    if IsContainer(x) then "\n" + YamlOf(e, x, indent + 1) else ScalarText(e, x) + "\n"
  }

  /** The `for..in` loop over an object's keys (script.js:560-574): each
      key opens a `key: ` line. */
  function FieldsText(e: Engine, fs: seq<Entry>, indent: nat, ghost parent: Val): string
    requires forall i :: 0 <= i < |fs| ==> fs[i].val < parent
    decreases parent, 0, |fs|
  {
    if fs == [] then ""
    else Indent(indent) + fs[0].key + ": " + FieldTail(e, fs[0].val, indent) + FieldsText(e, fs[1..], indent, parent)
  }

  /** What follows `key: `: an array value continues on the next lines at
      the same level, an object value one level deeper, anything else ends
      the line. */
  function FieldTail(e: Engine, v: Val, indent: nat): string
    decreases v, 2
  {
    if v.Arr? then "\n" + YamlOf(e, v, indent)
    else if v.Obj? then "\n" + YamlOf(e, v, indent + 1)
    else ScalarText(e, v) + "\n"
  }

  /** `jsonToYaml(v)` as the conversion calls it. */
  function JsonToYaml(e: Engine, v: Val): string
  {
    YamlOf(e, v, 0)
  }
}
