/** The TOML writer (`jsonToToml`, script.js:774-809): one `for..in` pass
    over the object, writing a header before each nested object and each
    item of an array of objects, and a `key = value` line for everything
    else. Every recursive call passes the prefix `''`, so headers are never
    dotted; strings are quoted without escaping. */
module TomlEmit {
  import opened Text
  import opened Values
  import opened Js

  /** `prefix ? `${prefix}.${key}` : key` */
  function FullKey(prefix: string, key: string): string
  {
    if prefix != "" then prefix + "." + key else key
  }

  /** `typeof v === 'string' ? `"${v}"` : v`, as a template literal then
      prints it. */
  function Formatted(e: Engine, v: Val): string
  {
    if v.Str? then "\"" + v.s + "\"" else ToStr(e, v)
  }

  /** The `.map` of script.js:791-793: strings wrapped in double quotes,
      everything else kept for `join` to print. */
  function QuoteStrings(items: seq<Val>): (r: seq<Val>)
    ensures |r| == |items|
  {
    if items == [] then []
    else
      var head := if items[0].Str? then Str("\"" + items[0].s + "\"") else items[0];
      [head] + QuoteStrings(items[1..])
  }

  /** `(typeof value[0] === 'object')`: an object, an array, or `null`. */
  predicate TableArray(v: Val)
  {
    v.Arr? && |v.items| > 0 && (IsContainer(v.items[0]) || v.items[0].Null?)
  }

  /** `jsonToToml(v, prefix)` */
  function TomlOf(e: Engine, v: Val, prefix: string): string
    decreases v, 1
  {
    MembersToml(e, ForIn(v), prefix, v)
  }

  /** The `for (const key in jsonObj)` loop over the entries `es` of `parent`. */
  function MembersToml(e: Engine, es: seq<Entry>, prefix: string, ghost parent: Val): string
    requires forall i :: 0 <= i < |es| ==> es[i].val < parent || !IsContainer(es[i].val)
    decreases parent, 0, |es|
  {
    if es == [] then ""
    else
      // a primitive goes straight to its `key = value` line, which is what
      // `MemberToml` writes for it; only containers are recursed into
      var head := if IsContainer(es[0].val) then MemberToml(e, es[0].key, es[0].val, prefix)
        else ValueLine(e, es[0].key, es[0].val);
      head + MembersToml(e, es[1..], prefix, parent)
  }

  /** `${key} = ${formattedValue}\n` (script.js:802-803). */
  function ValueLine(e: Engine, key: string, v: Val): string
  {
    key + " = " + Formatted(e, v) + "\n"
  }

  /** One pass of that loop (script.js:778-805). */
  function MemberToml(e: Engine, key: string, v: Val, prefix: string): string
    decreases v, 2
  {
    var full := FullKey(prefix, key);
    if TableArray(v) then TableItems(e, v.items, full, v)
    else if v.Arr? then key + " = [" + JoinValues(e, QuoteStrings(v.items), ", ") + "]\n"
    else if v.Obj? then "[" + full + "]\n" + TomlOf(e, v, "")
    else ValueLine(e, key, v)
  }

  /** `for (const item of value) toml += `[[${fullKey}]]\n` + jsonToToml(item, '')` */
  function TableItems(e: Engine, items: seq<Val>, full: string, ghost parent: Val): string
    requires forall i :: 0 <= i < |items| ==> items[i] < parent
    decreases parent, 0, |items|
  {
    if items == [] then ""
    else "[[" + full + "]]\n" + TomlOf(e, items[0], "") + TableItems(e, items[1..], full, parent)
  }

  /** `jsonToToml(jsonObj)`, with the default prefix `''`. */
  function JsonToToml(e: Engine, v: Val): string
  {
    TomlOf(e, v, "")
  }
}
