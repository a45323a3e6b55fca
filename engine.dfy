/** The document tree a DOM parser hands the XML reader: elements with their
    attributes and children, text nodes, and nodes of any other kind
    (comments, CDATA sections, processing instructions), which the reader
    skips. */
module Dom {
  datatype Attr = Attr(name: string, value: string)

  datatype XNode =
    | Element(name: string, attrs: seq<Attr>, children: seq<XNode>)
    | TextNode(data: string)
    | OtherNode
}

/** The engine built-ins the translator calls and this model does not
    re-implement, gathered as a record of functions so that every operation
    that needs one receives it as a parameter, and the operations of the
    language that are defined in terms of them. */
module Js {
  import opened Text
  import opened Values
  import Dom

  /** Fields, in the engine's words:
      - `isNumeric(s)`: `!isNaN(s)`, i.e. `Number(s)` is not `NaN`;
      - `numTruthy(s)`: `Number(s)` is neither `0`, `-0` nor `NaN`;
      - `numString(s)`: `String(Number(s))`, what template literals and `join` print;
      - `numJson(s)`: `JSON.stringify(Number(s))`;
      - `jsonQuote(s)`: `JSON.stringify(s)` for a string `s`;
      - `jsonParse(s)`: `JSON.parse(s)`, `None` when it throws;
      - `jsonPretty(v)`: `JSON.stringify(v, null, 2)`;
      - `xmlRejected(s)`: the document `DOMParser` builds from `s` holds a
        `parsererror` element;
      - `xmlRoot(s)`: that document's `documentElement`;
      - `xmlSerialize(s)`: `XMLSerializer` applied to that document;
      - `inherited(k)`: a plain object finds a property named `k` without
        owning one (`k in {}`: `constructor`, `toString`, `__proto__`, ...);
      - `arrayLength(s)`: `Number(s)` when it is a valid array length, an
        integer from `0` to `2^32 - 1`; `None` otherwise. */
  datatype Engine = Engine(
    isNumeric: string -> bool,
    numTruthy: string -> bool,
    numString: string -> string,
    numJson: string -> string,
    jsonQuote: string -> string,
    jsonParse: string -> Option<Val>,
    jsonPretty: Val -> string,
    xmlRejected: string -> bool,
    xmlRoot: string -> Dom.XNode,
    xmlSerialize: string -> string,
    inherited: string -> bool,
    arrayLength: string -> Option<nat>)

  /** The facts about `Number` that some properties below rely on:
      `Number('')` is `0`, and `Number('true')`, `Number('false')`,
      `Number('FALSE')`, `Number('null')`, `Number('[]')` and
      `Number('{}')` are `NaN`; `Number('1')` is `1`, which is truthy; and
      `Number('0')` is `0`. */
  predicate NumberFacts(e: Engine)
  {
    && e.isNumeric("") && !e.numTruthy("")
    && !e.isNumeric("true") && !e.isNumeric("false") && !e.isNumeric("FALSE") && !e.isNumeric("null")
    && !e.isNumeric("[]") && !e.isNumeric("{}")
    && e.isNumeric("1") && e.numTruthy("1") && !e.numTruthy("0")
    && e.arrayLength("") == Some(0) && e.arrayLength("0") == Some(0) && e.arrayLength("1") == Some(1)
  }

  /** `Number(t)` is `NaN` for every text that opens with a double quote or
      an opening bracket: no numeric literal starts with either. */
  ghost predicate OpeningNotNumeric(e: Engine)
  {
    forall t :: t != [] && (t[0] == '"' || t[0] == '[') ==> !e.isNumeric(t)
  }

  /** Why a reader stops early: it throws a `TypeError` or a `RangeError`,
      or it lengthens an array through its `length`, which leaves holes the
      value model has no way to hold, so that the model follows the source
      no further. */
  datatype Fault = TypeError | RangeError | Holes

  /** A computation of a reader: its result, or the fault that ends it. */
  datatype Outcome<T> = Ok(value: T) | Fail(why: Fault)

  /** What a reference the readers hold (`currentTable`, a key line's
      `target`, the object of a stack frame) denotes. */
  datatype Target =
    | At(path: seq<Step>)  // an object or array of the result, reached by `path`
    | Prim(v: Val)         // a primitive read out of the result
    | Undef                // `undefined`: the next property access throws

  /** `c[k]` names the `length` of an array, which every array owns and
      which is not one of its named extras. */
  predicate IsLength(c: Val, k: string)
  {
    c.Arr? && k == "length"
  }

  /** `v[k]` for an own property, or `None` for `undefined`: a field of an
      object, a named extra of an array, and the `length` of an array or a
      string (its number of elements or characters). */
  function ReadProp(v: Val, k: string): (r: Option<Val>)
    ensures IsLength(v, k) ==> r == Some(Num(NatToString(|v.items|)))
    ensures v.Str? && k == "length" ==> r == Some(Num(NatToString(|v.s|)))
    ensures k != "length" ==> r == Lookup(Props(v), k)
    ensures IsContainer(v) && !IsLength(v, k) ==> r == Lookup(Props(v), k)
    ensures r.Some? && !IsContainer(v) ==> !IsContainer(r.value)
  {
    if IsLength(v, k) then Some(Num(NatToString(|v.items|)))
    else if v.Str? && k == "length" then Some(Num(NatToString(|v.s|)))
    else Lookup(Props(v), k)
  }

  /** The number an assignment to an array's `length` converts `x` to, when
      it is a valid length: `null` is `0`, a boolean `0` or `1`, an array
      the number its `join(',')` text denotes, an object never one. */
  function LengthOf(e: Engine, x: Val): Option<nat>
  {
    match x
    case Null => Some(0)
    case Bool(b) => Some(if b then 1 else 0)
    case Num(lit) => e.arrayLength(lit)
    case Str(s) => e.arrayLength(s)
    case Arr(_, _) => e.arrayLength(ToStr(e, x))
    case Obj(_) => None
  }

  /** `c[k] = x` on an object or an array `c`. Every other name is stored
      as a property; an array's `length` is set instead: a value that is no
      valid length throws a `RangeError`, a length up to the current one
      drops the elements from there on, and a longer one leaves holes. */
  function WriteProp(e: Engine, c: Val, k: string, x: Val): (r: Outcome<Val>)
    ensures !IsLength(c, k) ==> r == Ok(SetProp(c, k, x))
    ensures IsLength(c, k) ==> (r == Fail(RangeError) <==> LengthOf(e, x).None?)
    ensures IsLength(c, k) ==> (r == Fail(Holes) <==> LengthOf(e, x).Some? && LengthOf(e, x).value > |c.items|)
    ensures IsLength(c, k) && r.Ok? ==>
      var n := LengthOf(e, x).value; n <= |c.items| && r.value == Arr(c.items[..n], c.extras)
    ensures r.Ok? ==> r.value.Obj? == c.Obj? && r.value.Arr? == c.Arr?
  {
    if !IsLength(c, k) then Ok(SetProp(c, k, x))
    else match LengthOf(e, x)
      case None => Fail(RangeError)
      case Some(n) => if n <= |c.items| then Ok(Arr(c.items[..n], c.extras)) else Fail(Holes)
  }

  /** A write keeps a container without repeated keys that way. */
  lemma WritePropWellFormed(e: Engine, c: Val, k: string, x: Val)
    requires WellFormed(c) && WellFormed(x) && WriteProp(e, c, k, x).Ok?
    ensures WellFormed(WriteProp(e, c, k, x).value)
  {
    if IsLength(c, k) {
      var n := LengthOf(e, x).value;
      assert forall i :: 0 <= i < n ==> c.items[..n][i] == c.items[i];
    } else {
      SetPropWellFormed(c, k, x);
    }
  }

  /** A key on which the engine's objects behave like the ordered maps of
      this model: not integer-like (those are enumerated first, in numeric
      order) and not found on the prototype. */
  predicate OrdinaryKey(e: Engine, k: string)
  {
    !IntegerLike(k) && !e.inherited(k)
  }

  /** JavaScript truthiness. */
  predicate Truthy(e: Engine, v: Val)
  {
    match v
    case Null => false
    case Bool(b) => b
    case Num(lit) => e.numTruthy(lit)
    case Str(s) => s != ""
    case _ => true
  }

  /** `String(v)`, as a template literal, string concatenation or `join`
      converts a value: arrays print as their elements joined by `,`,
      objects as `[object Object]`. */
  function ToStr(e: Engine, v: Val): (r: string)
    ensures v.Null? ==> r == "null"
    ensures v.Bool? ==> r == (if v.b then "true" else "false")
    ensures v.Num? ==> r == e.numString(v.lit)
    ensures v.Str? ==> r == v.s
    ensures v.Arr? ==> r == JoinValues(e, v.items, ",")
    ensures v.Obj? ==> r == "[object Object]"
  {
    match v
    case Null => "null"
    case Bool(b) => if b then "true" else "false"
    case Num(lit) => e.numString(lit)
    case Str(s) => s
    case Arr(items, _) => JoinValues(e, items, ",")
    case Obj(_) => "[object Object]"
  }

  /** `items.join(sep)`: `null` elements print as the empty string. */
  function JoinValues(e: Engine, items: seq<Val>, sep: string): string
  {
    if items == [] then ""
    else
      var head := if items[0].Null? then "" else ToStr(e, items[0]);
      if |items| == 1 then head else head + sep + JoinValues(e, items[1..], sep)
  }

  /** `JSON.stringify(v)` for a value that is not an object. */
  function JsonScalar(e: Engine, v: Val): string
    requires !IsContainer(v)
  {
    match v
    case Null => "null"
    case Bool(b) => if b then "true" else "false"
    case Num(lit) => e.numJson(lit)
    case Str(s) => e.jsonQuote(s)
  }
}
