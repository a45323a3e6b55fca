/** Properties of the XML writer, and how it undoes the reader on documents
    without attributes, mixed content or repeated tags. */
module XmlLaws {
  import opened Text
  import opened Values
  import opened Dom
  import opened Js
  import opened XmlJson
  import opened XmlEmit

  // ---- the writer

  lemma Framed(a: string, b: string, c: string)
    ensures StartsWith(a + b + c, a) && EndsWith(a + b + c, c)
  {
    var r := a + b + c;
    assert r[..|a|] == a;
    assert r[|r| - |c|..] == c;
  }

  /** Every value is written as one element named `name`. */
  lemma BuildXmlFrame(e: Engine, v: Val, name: string)
    ensures StartsWith(BuildXml(e, v, name), Open(name)) && EndsWith(BuildXml(e, v, name), Close(name))
  {
    var body := if !IsContainer(v) then ToStr(e, v) else MembersXml(e, ForIn(v), v);
    Framed(Open(name), body, Close(name));
  }

  lemma PrefixExtends(q: string, p: string, b: string)
    requires StartsWith(b, p)
    ensures StartsWith(q + b, q + p)
  {
    assert (q + b)[..|q + p|] == q + b[..|p|];
  }

  lemma SuffixExtends(q: string, b: string, c: string)
    requires EndsWith(b, c)
    ensures EndsWith(q + b, c)
  {
    assert (q + b)[|q + b| - |c|..] == b[|b| - |c|..];
  }

  /** The output is the declaration, a line break, and the `data` element. */
  lemma JsonToXmlFrame(e: Engine, v: Val)
    ensures var r := JsonToXml(e, v);
      && StartsWith(r, Declaration + "\n" + Open("data"))
      && EndsWith(r, Close("data"))
  {
    BuildXmlFrame(e, v, "data");
    PrefixExtends(Declaration + "\n", Open("data"), BuildXml(e, v, "data"));
    SuffixExtends(Declaration + "\n", BuildXml(e, v, "data"), Close("data"));
  }

  /** The entries of `es` other than those under `k`. */
  function Without(es: seq<Entry>, k: string, ghost parent: Val): (r: seq<Entry>)
    requires forall i :: 0 <= i < |es| ==> es[i].val < parent
    ensures forall i :: 0 <= i < |r| ==> r[i].key != k && r[i].val < parent
  {
    if es == [] then []
    else if es[0].key == k then Without(es[1..], k, parent)
    else [es[0]] + Without(es[1..], k, parent)
  }

  /** `@attributes` entries contribute nothing to the output. */
  lemma {:induction false} AttributesSkipped(e: Engine, es: seq<Entry>, parent: Val)
    requires forall i :: 0 <= i < |es| ==> es[i].val < parent
    ensures MembersXml(e, es, parent) == MembersXml(e, Without(es, "@attributes", parent), parent)
    decreases |es|
  {
    if es != [] {
      AttributesSkipped(e, es[1..], parent);
      if es[0].key != "@attributes" {
        var w := Without(es, "@attributes", parent);
        assert w[1..] == Without(es[1..], "@attributes", parent);
      }
    }
  }

  /** A `#text` entry is written as its string, with no escaping: `<`, `>`
      and `&` in it reach the output as they are. */
  lemma TextWrittenRaw(e: Engine, name: string, s: string)
    ensures BuildXml(e, Obj([Entry("#text", Str(s))]), name) == "<" + name + ">" + s + "</" + name + ">"
  {
    var v := Obj([Entry("#text", Str(s))]);
    assert ForIn(v)[1..] == [];
    assert MembersXml(e, ForIn(v), v) == s + "";
  }

  /** A string value is written between the tags as it stands. */
  lemma StringWrittenRaw(e: Engine, name: string, s: string)
    ensures BuildXml(e, Str(s), name) == "<" + name + ">" + s + "</" + name + ">"
  {
  }

  /** The concatenation of the elements `key` the items of an array become. */
  function Repeated(e: Engine, items: seq<Val>, key: string): string
  {
    if items == [] then "" else BuildXml(e, items[0], key) + Repeated(e, items[1..], key)
  }

  /** An array under `key` repeats the element `key` once per item, in order;
      its named extras are not written. */
  lemma {:induction false} ArrayRepeats(e: Engine, items: seq<Val>, key: string, parent: Val)
    requires forall i :: 0 <= i < |items| ==> items[i] < parent
    ensures ItemsXml(e, items, key, parent) == Repeated(e, items, key)
    decreases |items|
  {
    if items != [] {
      ArrayRepeats(e, items[1..], key, parent);
    }
  }

  lemma ArrayMember(e: Engine, key: string, items: seq<Val>, ex: seq<Entry>)
    requires key != "@attributes" && key != "#text"
    ensures MemberXml(e, key, Arr(items, ex)) == Repeated(e, items, key)
  {
    ArrayRepeats(e, items, key, Arr(items, ex));
  }

  /** Repetition distributes over concatenation of the items. */
  lemma {:induction false} RepeatedAppend(e: Engine, a: seq<Val>, b: seq<Val>, key: string)
    ensures Repeated(e, a + b, key) == Repeated(e, a, key) + Repeated(e, b, key)
  {
    if a != [] {
      assert (a + b)[1..] == a[1..] + b;
      RepeatedAppend(e, a[1..], b, key);
    } else {
      assert a + b == b;
    }
  }

  // ---- writing what the reader built

  /** The document text of a tree, attributes left out. */
  function Serialize(n: XNode): string
    decreases n, 1
  {
    match n
    case Element(name, _, children) => Open(name) + SerializeAll(children, n) + Close(name)
    case TextNode(d) => d
    case OtherNode => ""
  }

  function SerializeAll(cs: seq<XNode>, ghost parent: XNode): string
    requires forall i :: 0 <= i < |cs| ==> cs[i] < parent
    decreases parent, 0, |cs|
  {
    if cs == [] then "" else Serialize(cs[0]) + SerializeAll(cs[1..], parent)
  }

  predicate DistinctNames(cs: seq<XNode>)
  {
    forall i, j :: 0 <= i < j < |cs| && cs[i].Element? && cs[j].Element? ==> cs[i].name != cs[j].name
  }

  /** An element holding one non-blank, already trimmed text. */
  predicate TextLeaf(n: XNode)
  {
    n.Element? && |n.children| == 1 && n.children[0].TextNode?
    && n.children[0].data != [] && IsTrimmed(n.children[0].data)
  }

  /** A tree the reader maps without loss: no attributes, no tag that is one
      of the reader's own keys, and each element a text leaf or holding only
      elements, with distinct tags on which the engine's objects behave as
      ordered maps. */
  predicate Simple(e: Engine, n: XNode)
    decreases n
  {
    && n.Element? && n.attrs == [] && n.name != "@attributes" && n.name != "#text"
    && (|| TextLeaf(n)
        || (&& (forall i :: 0 <= i < |n.children| ==>
                  n.children[i].Element? && OrdinaryKey(e, n.children[i].name) && Simple(e, n.children[i]))
            && DistinctNames(n.children)))
  }

  /** The entries the reader stores for children with distinct tags. */
  function Entries(e: Engine, cs: seq<XNode>): (r: seq<Entry>)
    requires forall i :: 0 <= i < |cs| ==> cs[i].Element?
    ensures |r| == |cs|
  {
    if cs == [] then [] else [Entry(cs[0].name, ParseNode(e, cs[0]))] + Entries(e, cs[1..])
  }

  /** An element under a tag not yet present is stored last. */
  lemma NewTag(e: Engine, pre: seq<Entry>, name: string, x: Val)
    requires name !in Keys(pre)
    ensures AddElement(e, pre, name, x) == pre + [Entry(name, x)]
  {
    PutNew(pre, name, x);
  }

  lemma RestNamesNew(cs: seq<XNode>, pre: seq<Entry>, x: Val)
    requires cs != [] && forall i :: 0 <= i < |cs| ==> cs[i].Element? && cs[i].name !in Keys(pre)
    requires DistinctNames(cs)
    ensures forall i :: 0 <= i < |cs| - 1 ==> cs[1..][i].name !in Keys(pre + [Entry(cs[0].name, x)])
    ensures DistinctNames(cs[1..])
  {
    var pre' := pre + [Entry(cs[0].name, x)];
    assert Keys(pre') == Keys(pre) + [cs[0].name];
    forall i | 0 <= i < |cs| - 1 ensures cs[1..][i].name !in Keys(pre') {
      assert cs[1..][i] == cs[i + 1];
    }
  }

  /** Children with distinct tags, none already a key, are stored one after another. */
  lemma {:induction false} DistinctChildrenRead(e: Engine, cs: seq<XNode>, pre: seq<Entry>, saw: bool, parent: XNode)
    requires forall i :: 0 <= i < |cs| ==> cs[i] < parent && cs[i].Element? && cs[i].name !in Keys(pre)
    requires DistinctNames(cs)
    ensures ReadChildren(e, cs, Acc(pre, saw), parent) == Acc(pre + Entries(e, cs), saw || cs != [])
    decreases |cs|
  {
    if cs == [] {
      assert pre + [] == pre;
    } else {
      var c := cs[0];
      var x := ParseNode(e, c);
      NewTag(e, pre, c.name, x);
      var pre' := pre + [Entry(c.name, x)];
      assert ReadChild(e, c, Acc(pre, saw)) == Acc(pre', true);
      RestNamesNew(cs, pre, x);
      DistinctChildrenRead(e, cs[1..], pre', true, parent);
      AppendAssoc(pre, [Entry(c.name, x)], Entries(e, cs[1..]));
    }
  }

  lemma LastTextOne(cs: seq<XNode>)
    requires |cs| == 1
    ensures LastText(cs) == TextOf(cs[0])
  {
    assert |cs[1..]| == 0;
  }

  /** A text leaf reads as its text. */
  lemma TextLeafReads(e: Engine, n: XNode)
    requires TextLeaf(n)
    ensures ParseNode(e, n) == Str(n.children[0].data)
  {
    var cs := n.children;
    var s := cs[0].data;
    TrimOfTrimmed(s);
    assert TextOf(cs[0]) == Some(s);
    LastTextOne(cs);
    assert !HasElement(cs) by {
      forall i | 0 <= i < |cs| ensures !cs[i].Element? {
        assert i == 0;
      }
    }
    NodeShape(e, n);
  }

  /** A text leaf reads as its text, which is written back between its tags. */
  lemma TextLeafRoundTrip(e: Engine, n: XNode)
    requires TextLeaf(n)
    ensures BuildXml(e, ParseNode(e, n), n.name) == Serialize(n)
  {
    var cs := n.children;
    var s := cs[0].data;
    TextLeafReads(e, n);
    StringWrittenRaw(e, n.name, s);
    TextLeafText(n);
  }

  lemma TextLeafText(n: XNode)
    requires TextLeaf(n)
    ensures Serialize(n) == Open(n.name) + n.children[0].data + Close(n.name)
  {
    var cs := n.children;
    assert cs[1..] == [];
    assert SerializeAll(cs, n) == cs[0].data + "";
  }

  /** An element with only element children, of distinct tags, reads as the
      object of their entries. */
  lemma ElementsRead(e: Engine, n: XNode)
    requires n.Element? && n.attrs == [] && DistinctNames(n.children)
    requires forall i :: 0 <= i < |n.children| ==> n.children[i].Element?
    ensures ParseNode(e, n) == Obj(Entries(e, n.children))
  {
    var cs := n.children;
    DistinctChildrenRead(e, cs, [], false, n);
    assert [] + Entries(e, cs) == Entries(e, cs);
    if cs == [] {
      assert Lookup([], "#text") == None;
    }
  }

  /** Writing what a simple element reads as gives back its document text. */
  lemma RoundTripNode(e: Engine, n: XNode)
    requires Simple(e, n)
    ensures BuildXml(e, ParseNode(e, n), n.name) == Serialize(n)
    decreases n, 2
  {
    if TextLeaf(n) {
      TextLeafRoundTrip(e, n);
    } else {
      var cs := n.children;
      ElementsRead(e, n);
      var fs := Entries(e, cs);
      assert ForIn(Obj(fs)) == fs;
      RoundTripMembers(e, cs, n, Obj(fs));
    }
  }

  lemma RoundTripMembers(e: Engine, cs: seq<XNode>, parent: XNode, pv: Val)
    requires forall i :: 0 <= i < |cs| ==> cs[i] < parent && cs[i].Element? && Simple(e, cs[i])
    requires forall i :: 0 <= i < |cs| ==> Entries(e, cs)[i].val < pv
    ensures MembersXml(e, Entries(e, cs), pv) == SerializeAll(cs, parent)
    decreases parent, 1, |cs|
  {
    if cs != [] {
      var c := cs[0];
      var fs := Entries(e, cs);
      assert fs[1..] == Entries(e, cs[1..]);
      NodeTruthy(e, c);
      RoundTripNode(e, c);
      assert MemberXml(e, c.name, ParseNode(e, c)) == Serialize(c);
      RoundTripMembers(e, cs[1..], parent, pv);
    }
  }

  /** Converting a simple document to the value and back gives its text
      inside the writer's `data` element. */
  lemma XmlRoundTrip(e: Engine, xml: string)
    requires Simple(e, e.xmlRoot(xml)) && OrdinaryKey(e, e.xmlRoot(xml).name)
    ensures XmlToJson(e, xml).Some?
    ensures JsonToXml(e, XmlToJson(e, xml).value)
         == Declaration + "\n" + Open("data") + Serialize(e.xmlRoot(xml)) + Close("data")
  {
    var root := e.xmlRoot(xml);
    var v := Obj([Entry(root.name, ParseNode(e, root))]);
    NodeTruthy(e, root);
    RoundTripNode(e, root);
    assert MembersXml(e, ForIn(v), v) == Serialize(root);
  }
}
