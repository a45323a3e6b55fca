/** The XML reader (`xmlToJson`, script.js:579-636) over the document tree the
    engine's `DOMParser` builds: attributes go under `@attributes`, element
    children under their tag name (repeated tags collected into an array),
    non-blank text under `#text`, and an element with text but no element
    children collapses to that text. */
module XmlJson {
  import opened Text
  import opened Values
  import opened Dom
  import Js

  /** `obj['@attributes']` after the attribute loop (script.js:587-593):
      every attribute stored under its name, one after the other. */
  function AttrFields(attrs: seq<Attr>): seq<Entry>
  {
    if attrs == [] then []
    else
      var last := attrs[|attrs| - 1];
      Put(AttrFields(attrs[..|attrs| - 1]), last.name, Str(last.value))
  }

  /** The value of the last attribute named `k`, if there is one. */
  function LastAttr(attrs: seq<Attr>, k: string): Option<Val>
  {
    if attrs == [] then None
    else if attrs[|attrs| - 1].name == k then Some(Str(attrs[|attrs| - 1].value))
    else LastAttr(attrs[..|attrs| - 1], k)
  }

  /** The object `parseNode` starts its loop over the children with. */
  function StartFields(attrs: seq<Attr>): seq<Entry>
  {
    if attrs == [] then [] else [Entry("@attributes", Obj(AttrFields(attrs)))]
  }

  /** What the loop over the children has built so far: `obj` and `hasElementChildren`. */
  datatype Acc = Acc(fields: seq<Entry>, sawElement: bool)

  /** `parseNode(node)` for an element. */
  function ParseNode(e: Js.Engine, n: XNode): Val
    requires n.Element?
    decreases n, 2
  {
    var acc := ReadChildren(e, n.children, Acc(StartFields(n.attrs), false), n);
    var text := Lookup(acc.fields, "#text");
    if !acc.sawElement && text.Some? && Js.Truthy(e, text.value) then text.value
    else Obj(acc.fields)
  }

  /** The loop over `childNodes`, from `acc` on. */
  function ReadChildren(e: Js.Engine, cs: seq<XNode>, acc: Acc, ghost parent: XNode): Acc
    requires forall i :: 0 <= i < |cs| ==> cs[i] < parent
    decreases parent, 1, |cs|
  {
    if cs == [] then acc
    else ReadChildren(e, cs[1..], ReadChild(e, cs[0], acc), parent)
  }

  /** One pass of that loop (script.js:599-621). */
  function ReadChild(e: Js.Engine, c: XNode, acc: Acc): Acc
    decreases c, 3
  {
    match c
    case Element(name, _, _) => Acc(AddElement(e, acc.fields, name, ParseNode(e, c)), true)
    case TextNode(d) =>
      var t := Trim(d);
      if t != "" then Acc(Put(acc.fields, "#text", Str(t)), acc.sawElement) else acc
    case OtherNode => acc
  }

  /** Storing what an element child read as (script.js:605-613): under its tag
      when nothing truthy is there yet, otherwise pushed onto the array there,
      which a single earlier value is first turned into. */
  function AddElement(e: Js.Engine, fs: seq<Entry>, name: string, x: Val): seq<Entry>
  {
    var cur := Lookup(fs, name);
    if cur.None? || !Js.Truthy(e, cur.value) then Put(fs, name, x)
    else
      var arr := if cur.value.Arr? then cur.value else Arr([cur.value], []);
      Put(fs, name, Arr(arr.items + [x], arr.extras))
  }

  /** `xmlToJson(xmlString)`: `None` when the document has no root element
      (reading `root.nodeName` would throw). */
  function XmlToJson(e: Js.Engine, xml: string): Option<Val>
  {
    var root := e.xmlRoot(xml);
    if root.Element? then Some(Obj([Entry(root.name, ParseNode(e, root))])) else None
  }

  // ---- reference definitions

  predicate HasElement(cs: seq<XNode>)
  {
    exists i :: 0 <= i < |cs| && cs[i].Element?
  }

  /** The trimmed text of a child that is a non-blank text node. */
  function TextOf(c: XNode): Option<string>
  {
    if c.TextNode? && Trim(c.data) != "" then Some(Trim(c.data)) else None
  }

  /** The trimmed text of the last non-blank text node among `cs`. */
  function LastText(cs: seq<XNode>): (r: Option<string>)
    ensures r.Some? ==> r.value != ""
  {
    if cs == [] then None
    else
      var later := LastText(cs[1..]);
      if later.Some? then later else TextOf(cs[0])
  }

  /** The values the elements of `cs` read as. */
  function ParsedAll(e: Js.Engine, cs: seq<XNode>): (r: seq<Val>)
    requires forall i :: 0 <= i < |cs| ==> cs[i].Element?
    ensures |r| == |cs|
  {
    if cs == [] then [] else [ParseNode(e, cs[0])] + ParsedAll(e, cs[1..])
  }

  // ---- properties

  /** Every attribute is found under its name, holding the value of the last
      attribute of that name; no name is stored twice. */
  lemma {:induction false} AttrFieldsLookup(attrs: seq<Attr>, k: string)
    ensures Lookup(AttrFields(attrs), k) == LastAttr(attrs, k)
    ensures WellFormed(Obj(AttrFields(attrs)))
  {
    if attrs != [] {
      var front := attrs[..|attrs| - 1];
      AttrFieldsLookup(front, k);
      PutKeepsNoDup(AttrFields(front), attrs[|attrs| - 1].name, Str(attrs[|attrs| - 1].value));
      PutWellFormed(AttrFields(front), attrs[|attrs| - 1].name, Str(attrs[|attrs| - 1].value));
    }
  }

  /** The loop over the children records whether an element was among them,
      and, when none was, leaves under `#text` the last non-blank text. */
  lemma {:induction false} ReadChildrenText(e: Js.Engine, cs: seq<XNode>, acc: Acc, parent: XNode)
    requires forall i :: 0 <= i < |cs| ==> cs[i] < parent
    ensures var r := ReadChildren(e, cs, acc, parent);
      var text := if LastText(cs).Some? then Some(Str(LastText(cs).value)) else Lookup(acc.fields, "#text");
      && r.sawElement == (acc.sawElement || HasElement(cs))
      && (!HasElement(cs) ==> Lookup(r.fields, "#text") == text)
    decreases |cs|
  {
    if cs != [] {
      var acc1 := ReadChild(e, cs[0], acc);
      ReadChildrenText(e, cs[1..], acc1, parent);
      assert HasElement(cs) == (cs[0].Element? || HasElement(cs[1..])) by {
        if HasElement(cs) {
          var i :| 0 <= i < |cs| && cs[i].Element?;
          if i > 0 {
            assert cs[1..][i - 1].Element?;
          }
        }
      }
    }
  }

  /** An element reads as a string exactly when it has no element children and
      some non-blank text; the string is the trimmed last such text, and its
      attributes are dropped. Otherwise it reads as an object. */
  lemma NodeShape(e: Js.Engine, n: XNode)
    requires n.Element?
    ensures var r := ParseNode(e, n);
      && (r.Str? <==> !HasElement(n.children) && LastText(n.children).Some?)
      && (r.Str? ==> r == Str(LastText(n.children).value))
      && (!r.Str? ==> r.Obj?)
  {
    ReadChildrenText(e, n.children, Acc(StartFields(n.attrs), false), n);
    assert Lookup(StartFields(n.attrs), "#text") == None by {
      if n.attrs != [] {
        assert Keys(StartFields(n.attrs)) == ["@attributes"];
      }
    }
  }

  /** What an element reads as is never an array, and always truthy. */
  lemma NodeTruthy(e: Js.Engine, n: XNode)
    requires n.Element?
    ensures !ParseNode(e, n).Arr? && Js.Truthy(e, ParseNode(e, n))
  {
    NodeShape(e, n);
  }

  /** An element whose tag already holds an array is appended to that array. */
  lemma SameTagStep(e: Js.Engine, pre: seq<Entry>, name: string, xs: seq<Val>, x: Val)
    requires forall i :: 0 <= i < |pre| ==> pre[i].key != name
    ensures AddElement(e, pre + [Entry(name, Arr(xs, []))], name, x) == pre + [Entry(name, Arr(xs + [x], []))]
  {
    var fs := pre + [Entry(name, Arr(xs, []))];
    assert name !in Keys(pre);
    PutNew(pre, name, Arr(xs, []));
    assert Lookup(fs, name) == Some(Arr(xs, []));
    PutLast(pre, name, Arr(xs, []), Arr(xs + [x], []));
  }

  lemma AppendAssoc<T>(a: seq<T>, b: seq<T>, c: seq<T>)
    ensures a + b + c == a + (b + c)
  {
  }

  /** Further elements with the tag of an array already collected are appended to it. */
  lemma {:induction false} SameTagAppends(e: Js.Engine, cs: seq<XNode>, pre: seq<Entry>, name: string, xs: seq<Val>, saw: bool, parent: XNode)
    requires forall i :: 0 <= i < |cs| ==> cs[i] < parent && cs[i].Element? && cs[i].name == name
    requires forall i :: 0 <= i < |pre| ==> pre[i].key != name
    ensures ReadChildren(e, cs, Acc(pre + [Entry(name, Arr(xs, []))], saw), parent)
         == Acc(pre + [Entry(name, Arr(xs + ParsedAll(e, cs), []))], saw || cs != [])
    decreases |cs|
  {
    if cs == [] {
      assert xs + [] == xs;
    } else {
      var x := ParseNode(e, cs[0]);
      SameTagStep(e, pre, name, xs, x);
      assert ReadChild(e, cs[0], Acc(pre + [Entry(name, Arr(xs, []))], saw))
          == Acc(pre + [Entry(name, Arr(xs + [x], []))], true);
      SameTagAppends(e, cs[1..], pre, name, xs + [x], true, parent);
      AppendAssoc(xs, [x], ParsedAll(e, cs[1..]));
    }
  }

  /** A second element with the same tag turns the first one's value, when it
      is truthy and not an array, into a two-element array. */
  lemma SecondSameTag(e: Js.Engine, pre: seq<Entry>, name: string, x1: Val, x2: Val)
    requires forall i :: 0 <= i < |pre| ==> pre[i].key != name
    requires !x1.Arr? && Js.Truthy(e, x1)
    ensures AddElement(e, AddElement(e, pre, name, x1), name, x2) == pre + [Entry(name, Arr([x1, x2], []))]
  {
    assert name !in Keys(pre);
    PutNew(pre, name, x1);
    var fs := pre + [Entry(name, x1)];
    assert AddElement(e, pre, name, x1) == fs;
    assert Lookup(fs, name) == Some(x1);
    PutLast(pre, name, x1, Arr([x1] + [x2], []));
    assert [x1] + [x2] == [x1, x2];
  }

  lemma ReadTwo(e: Js.Engine, cs: seq<XNode>, acc: Acc, parent: XNode)
    requires |cs| >= 2 && forall i :: 0 <= i < |cs| ==> cs[i] < parent
    ensures ReadChildren(e, cs, acc, parent) == ReadChildren(e, cs[2..], ReadChild(e, cs[1], ReadChild(e, cs[0], acc)), parent)
  {
    assert cs[1..][1..] == cs[2..];
  }

  lemma ParsedTwo(e: Js.Engine, cs: seq<XNode>)
    requires |cs| >= 2 && forall i :: 0 <= i < |cs| ==> cs[i].Element?
    ensures ParsedAll(e, cs) == [ParseNode(e, cs[0]), ParseNode(e, cs[1])] + ParsedAll(e, cs[2..])
  {
    assert cs[1..][1..] == cs[2..];
    AppendAssoc([ParseNode(e, cs[0])], [ParseNode(e, cs[1])], ParsedAll(e, cs[2..]));
    assert [ParseNode(e, cs[0])] + [ParseNode(e, cs[1])] == [ParseNode(e, cs[0]), ParseNode(e, cs[1])];
  }

  /** An element whose children are two or more elements of one tag reads as
      an object holding, under that tag, the array of what they read as, in
      document order (after its attributes, if it has any). */
  lemma RepeatedTag(e: Js.Engine, n: XNode, name: string)
    requires n.Element? && |n.children| >= 2 && name != "@attributes"
    requires forall i :: 0 <= i < |n.children| ==> n.children[i].Element? && n.children[i].name == name
    ensures ParseNode(e, n) == Obj(StartFields(n.attrs) + [Entry(name, Arr(ParsedAll(e, n.children), []))])
  {
    var cs := n.children;
    var pre := StartFields(n.attrs);
    assert forall i :: 0 <= i < |pre| ==> pre[i].key != name;
    var x1 := ParseNode(e, cs[0]);
    var x2 := ParseNode(e, cs[1]);
    NodeTruthy(e, cs[0]);
    SecondSameTag(e, pre, name, x1, x2);
    var acc2 := Acc(pre + [Entry(name, Arr([x1, x2], []))], true);
    assert ReadChild(e, cs[1], ReadChild(e, cs[0], Acc(pre, false))) == acc2;
    ReadTwo(e, cs, Acc(pre, false), n);
    SameTagAppends(e, cs[2..], pre, name, [x1, x2], true, n);
    ParsedTwo(e, cs);
  }

  /** Every object the reader builds has distinct keys. */
  lemma ParseNodeWellFormed(e: Js.Engine, n: XNode)
    requires n.Element?
    ensures WellFormed(ParseNode(e, n))
    decreases n, 2
  {
    StartWellFormed(n.attrs);
    var acc := ReadChildren(e, n.children, Acc(StartFields(n.attrs), false), n);
    ReadChildrenWellFormed(e, n.children, Acc(StartFields(n.attrs), false), n);
    if Lookup(acc.fields, "#text").Some? {
      LookupWellFormed(acc.fields, "#text");
    }
  }

  lemma StartWellFormed(attrs: seq<Attr>)
    ensures WellFormed(Obj(StartFields(attrs)))
  {
    AttrFieldsLookup(attrs, "");
  }

  lemma ReadChildrenWellFormed(e: Js.Engine, cs: seq<XNode>, acc: Acc, parent: XNode)
    requires forall i :: 0 <= i < |cs| ==> cs[i] < parent
    requires WellFormed(Obj(acc.fields))
    ensures WellFormed(Obj(ReadChildren(e, cs, acc, parent).fields))
    decreases parent, 1, |cs|
  {
    if cs != [] {
      ReadChildWellFormed(e, cs[0], acc);
      ReadChildrenWellFormed(e, cs[1..], ReadChild(e, cs[0], acc), parent);
    }
  }

  lemma ReadChildWellFormed(e: Js.Engine, c: XNode, acc: Acc)
    requires WellFormed(Obj(acc.fields))
    ensures WellFormed(Obj(ReadChild(e, c, acc).fields))
    decreases c, 3
  {
    var fs := acc.fields;
    match c
    case Element(name, _, _) =>
      var x := ParseNode(e, c);
      ParseNodeWellFormed(e, c);
      AddElementWellFormed(e, fs, name, x);
    case TextNode(d) =>
      PutKeepsNoDup(fs, "#text", Str(Trim(d)));
      PutWellFormed(fs, "#text", Str(Trim(d)));
    case OtherNode =>
  }

  lemma AddElementWellFormed(e: Js.Engine, fs: seq<Entry>, name: string, x: Val)
    requires WellFormed(Obj(fs)) && WellFormed(x)
    ensures WellFormed(Obj(AddElement(e, fs, name, x)))
  {
    var cur := Lookup(fs, name);
    if cur.None? || !Js.Truthy(e, cur.value) {
      PutKeepsNoDup(fs, name, x);
      PutWellFormed(fs, name, x);
    } else {
      LookupWellFormed(fs, name);
      var arr := if cur.value.Arr? then cur.value else Arr([cur.value], []);
      var y := Arr(arr.items + [x], arr.extras);
      assert WellFormed(y);
      PutKeepsNoDup(fs, name, y);
      PutWellFormed(fs, name, y);
    }
  }
}
