/** The XML writer (`jsonToXml` and its `buildXml`, script.js:638-666): every
    property becomes an element named after its key, arrays repeat the
    element once per item, `@attributes` is dropped, `#text` is written as
    it stands, and nothing is escaped. */
module XmlEmit {
  import opened Text
  import opened Values
  import opened Js

  const Declaration: string := "<?xml version=\"1.0\" encoding=\"UTF-8\"?>"

  function Open(name: string): string
  {
    "<" + name + ">"
  }

  function Close(name: string): string
  {
    "</" + name + ">"
  }

  /** `buildXml(obj, nodeName)` */
  function BuildXml(e: Engine, v: Val, name: string): string
    decreases v, 1
  {
    if !IsContainer(v) then Open(name) + ToStr(e, v) + Close(name)
    else Open(name) + MembersXml(e, ForIn(v), v) + Close(name)
  }

  /** The `for (const key in obj)` loop over the entries `es` of `parent`. */
  function MembersXml(e: Engine, es: seq<Entry>, ghost parent: Val): string
    requires forall i :: 0 <= i < |es| ==> es[i].val < parent
    decreases parent, 0, |es|
  {
    if es == [] then "" else MemberXml(e, es[0].key, es[0].val) + MembersXml(e, es[1..], parent)
  }

  /** One pass of that loop (script.js:645-656). */
  function MemberXml(e: Engine, key: string, v: Val): string
    decreases v, 2
  {
    if key == "@attributes" then ""
    else if key == "#text" then ToStr(e, v)
    else if v.Arr? then ItemsXml(e, v.items, key, v)
    else BuildXml(e, v, key)
  }

  /** `for (const item of obj[key]) xml += buildXml(item, key)` */
  function ItemsXml(e: Engine, items: seq<Val>, key: string, ghost parent: Val): string
    requires forall i :: 0 <= i < |items| ==> items[i] < parent
    decreases parent, 0, |items|
  {
    if items == [] then "" else BuildXml(e, items[0], key) + ItemsXml(e, items[1..], key, parent)
  }

  /** `jsonToXml(jsonObj)`, with the default root name `data`. */
  function JsonToXml(e: Engine, v: Val): string
  {
    Declaration + "\n" + BuildXml(e, v, "data")
  }
}
