/** The values the parsers build and the serializers walk: the JavaScript
    objects of the page, reduced to the kinds the translator distinguishes. */
module Values {
  import opened Text

  datatype Option<T> = None | Some(value: T)

  /** A JavaScript value as the translator sees it.
      - `Num(lit)` is the number `Number(lit)` denotes; its arithmetic is not
        modelled, and every use of it goes through the engine record.
      - `Arr(items, extras)` is an array: its indexed elements, and the named
        properties code assigned onto it (an array table of the TOML parser,
        or a key line under an array frame of the YAML parser).
      - `Obj(fields)` is a plain object: its own properties in insertion order. */
  datatype Val =
    | Null
    | Bool(b: bool)
    | Num(lit: string)
    | Str(s: string)
    | Arr(items: seq<Val>, extras: seq<Entry>)
    | Obj(fields: seq<Entry>)

  datatype Entry = Entry(key: string, val: Val)

  /** `typeof v === 'object' && v !== null` */
  predicate IsContainer(v: Val)
  {
    v.Arr? || v.Obj?
  }

  function Keys(fs: seq<Entry>): (r: seq<string>)
    ensures |r| == |fs|
    ensures forall i :: 0 <= i < |fs| ==> r[i] == fs[i].key
  {
    seq(|fs|, i requires 0 <= i < |fs| => fs[i].key)
  }

  predicate NoDup(xs: seq<string>)
  {
    forall i, j :: 0 <= i < j < |xs| ==> xs[i] != xs[j]
  }

  /** The position of the first occurrence of `k` in `ks`, if any. */
  function KeyIndex(ks: seq<string>, k: string): (r: Option<nat>)
    ensures r.None? <==> k !in ks
    ensures r.Some? ==> r.value < |ks| && ks[r.value] == k
    ensures r.Some? ==> forall j :: 0 <= j < r.value ==> ks[j] != k
  {
    if ks == [] then None
    else if ks[0] == k then Some(0)
    else match KeyIndex(ks[1..], k)
      case None => None
      case Some(i) => Some(i + 1)
  }

  /** The first occurrence is the only position that holds `k`, before
      which no position does. */
  lemma KeyIndexIs(ks: seq<string>, k: string, i: nat)
    requires i < |ks| && ks[i] == k
    requires forall j :: 0 <= j < i ==> ks[j] != k
    ensures KeyIndex(ks, k) == Some(i)
  {
    assert k in ks;
  }

  /** Appending `k` does not move the first occurrence of any other key. */
  lemma KeyIndexAppend(ks: seq<string>, k: string)
    ensures forall k' :: k' != k ==> KeyIndex(ks + [k], k') == KeyIndex(ks, k')
  {
    forall k' | k' != k
      ensures KeyIndex(ks + [k], k') == KeyIndex(ks, k')
    {
      var r := KeyIndex(ks, k');
      if r.Some? {
        assert forall j :: 0 <= j < r.value ==> (ks + [k])[j] == ks[j];
        KeyIndexIs(ks + [k], k', r.value);
      } else {
        assert k' !in ks + [k];
      }
    }
  }

  /** The first entry under `k`, as a property read `o[k]` sees it
      (`None` is `undefined`). */
  function Lookup(fs: seq<Entry>, k: string): (r: Option<Val>)
    ensures r.Some? <==> k in Keys(fs)
  {
    match KeyIndex(Keys(fs), k)
    case None => None
    case Some(i) => Some(fs[i].val)
  }

  /** The assignment `o[k] = v`: an existing key keeps its position and takes
      the new value; a new key goes last. */
  function Put(fs: seq<Entry>, k: string, v: Val): (r: seq<Entry>)
    ensures Keys(r) == if k in Keys(fs) then Keys(fs) else Keys(fs) + [k]
    ensures Lookup(r, k) == Some(v)
    ensures forall k' :: k' != k ==> Lookup(r, k') == Lookup(fs, k')
  {
    match KeyIndex(Keys(fs), k)
    case Some(i) =>
      var r := fs[i := Entry(k, v)];
      assert Keys(r) == Keys(fs);
      r
    case None =>
      var r := fs + [Entry(k, v)];
      assert Keys(r) == Keys(fs) + [k];
      KeyIndexAppend(Keys(fs), k);
      KeyIndexIs(Keys(r), k, |fs|);
      r
  }

  /** Storing under a new key appends an entry at the end. */
  lemma PutNew(fs: seq<Entry>, k: string, v: Val)
    requires k !in Keys(fs)
    ensures Put(fs, k, v) == fs + [Entry(k, v)]
  {
  }

  /** Overwriting the last key of a list keeps the earlier entries in place. */
  lemma PutLast(fs: seq<Entry>, k: string, v: Val, w: Val)
    requires forall i :: 0 <= i < |fs| ==> fs[i].key != k
    ensures Put(fs + [Entry(k, v)], k, w) == fs + [Entry(k, w)]
  {
    var g := fs + [Entry(k, v)];
    KeyIndexIs(Keys(g), k, |fs|);
    assert g[|fs| := Entry(k, w)] == fs + [Entry(k, w)];
  }

  /** Storing back the value a key already has changes nothing. */
  lemma PutSame(fs: seq<Entry>, k: string)
    requires k in Keys(fs)
    ensures Put(fs, k, Lookup(fs, k).value) == fs
  {
    var i := KeyIndex(Keys(fs), k).value;
    assert fs[i] == Entry(k, fs[i].val);
  }

  lemma PutKeepsNoDup(fs: seq<Entry>, k: string, v: Val)
    requires NoDup(Keys(fs))
    ensures NoDup(Keys(Put(fs, k, v)))
  {
    if k !in Keys(fs) {
      var ks := Keys(fs) + [k];
      assert forall i :: 0 <= i < |fs| ==> ks[i] != k;
    }
  }

  /** In a list without repeated keys, the entry at position `i` is what a read of its key finds. */
  lemma LookupAt(fs: seq<Entry>, i: nat)
    requires NoDup(Keys(fs)) && i < |fs|
    ensures Lookup(fs, fs[i].key) == Some(fs[i].val)
  {
    var ks := Keys(fs);
    forall j | 0 <= j < i ensures ks[j] != ks[i] {
      assert ks[j] != ks[i];
    }
    KeyIndexIs(ks, fs[i].key, i);
  }

  /** A step from a container to one of its parts: a named property
      (a field of an object, a named extra of an array) or an array index. */
  datatype Step = K(key: string) | I(index: nat)

  /** `v[s]`, or `undefined` when there is no such part. */
  function Child(v: Val, s: Step): Option<Val>
  {
    match s
    case K(k) =>
      if v.Obj? then Lookup(v.fields, k)
      else if v.Arr? then Lookup(v.extras, k)
      else None
    case I(i) =>
      if v.Arr? && i < |v.items| then Some(v.items[i]) else None
  }

  /** `v[s] = c` on a container; a no-op elsewhere. */
  function SetChild(v: Val, s: Step, c: Val): (r: Val)
    ensures r.Obj? == v.Obj? && r.Arr? == v.Arr?
    ensures Child(v, s).Some? ==> Child(r, s) == Some(c)
  {
    match s
    case K(k) => SetProp(v, k, c)
    case I(i) =>
      if v.Arr? && i < |v.items| then Arr(v.items[i := c], v.extras) else v
  }

  /** The value a reference reaches after following path `p` from `v`. */
  function Get(v: Val, p: seq<Step>): Option<Val>
    decreases |p|
  {
    if p == [] then Some(v)
    else match Child(v, p[0])
      case None => None
      case Some(c) => Get(c, p[1..])
  }

  /** `v` after the part reached by path `p` has been replaced by `c`: an
      in-place update of the object a reference points to, written on the
      tree. A path that reaches nothing leaves `v` as it is. */
  function SetAt(v: Val, p: seq<Step>, c: Val): (r: Val)
    ensures p != [] ==> r.Obj? == v.Obj? && r.Arr? == v.Arr?
    decreases |p|
  {
    if p == [] then c
    else match Child(v, p[0])
      case None => v
      case Some(d) => SetChild(v, p[0], SetAt(d, p[1..], c))
  }

  /** Along the way to the replaced part, every prefix of the path still
      reaches a value, namely the old one with the replacement made below it. */
  lemma {:induction false} GetSetAtPrefix(v: Val, p: seq<Step>, c: Val, j: nat)
    requires Get(v, p).Some? && j <= |p|
    ensures Get(v, p[..j]).Some?
    ensures Get(SetAt(v, p, c), p[..j]) == Some(SetAt(Get(v, p[..j]).value, p[j..], c))
    decreases |p|
  {
    if j > 0 {
      var d := Child(v, p[0]).value;
      assert p[..j][1..] == p[1..][..j - 1];
      assert p[j..] == p[1..][j - 1..];
      GetSetAtPrefix(d, p[1..], c, j - 1);
    }
  }

  /** The path itself then reaches the replacement. */
  lemma GetSetAt(v: Val, p: seq<Step>, c: Val)
    requires Get(v, p).Some?
    ensures Get(SetAt(v, p, c), p) == Some(c)
  {
    GetSetAtPrefix(v, p, c, |p|);
    assert p[..|p|] == p;
  }

  /** Following a path and then one more step. */
  lemma {:induction false} GetAppend(v: Val, p: seq<Step>, s: Step)
    requires Get(v, p).Some?
    ensures Get(v, p + [s]) == Child(Get(v, p).value, s)
    decreases |p|
  {
    if p == [] {
      assert [s][1..] == [];
    } else {
      assert (p + [s])[1..] == p[1..] + [s];
      GetAppend(Child(v, p[0]).value, p[1..], s);
    }
  }

  /** Own named properties of a container: the fields of an object, the
      named extras of an array. */
  function Props(v: Val): seq<Entry>
  {
    match v
    case Obj(fs) => fs
    case Arr(_, ex) => ex
    case _ => []
  }

  /** `c[k] = x` on a container. */
  function SetProp(c: Val, k: string, x: Val): (r: Val)
    ensures r.Obj? == c.Obj? && r.Arr? == c.Arr?
    ensures IsContainer(c) ==> Props(r) == Put(Props(c), k, x)
    ensures r.Arr? ==> r.items == c.items
  {
    match c
    case Obj(fs) => Obj(Put(fs, k, x))
    case Arr(items, ex) => Arr(items, Put(ex, k, x))
    case _ => c
  }

  /** All objects (and the named extras of all arrays) inside `v` have
      distinct keys: the invariant every parser keeps. */
  predicate WellFormed(v: Val)
    decreases v
  {
    match v
    case Arr(items, ex) =>
      && NoDup(Keys(ex))
      && (forall i :: 0 <= i < |items| ==> WellFormed(items[i]))
      && (forall i :: 0 <= i < |ex| ==> WellFormed(ex[i].val))
    case Obj(fs) =>
      && NoDup(Keys(fs))
      && (forall i :: 0 <= i < |fs| ==> WellFormed(fs[i].val))
    case _ => true
  }

  lemma LookupWellFormed(fs: seq<Entry>, k: string)
    requires forall i :: 0 <= i < |fs| ==> WellFormed(fs[i].val)
    requires Lookup(fs, k).Some?
    ensures WellFormed(Lookup(fs, k).value)
  {
  }

  lemma PutWellFormed(fs: seq<Entry>, k: string, x: Val)
    requires forall i :: 0 <= i < |fs| ==> WellFormed(fs[i].val)
    requires WellFormed(x)
    ensures forall i :: 0 <= i < |Put(fs, k, x)| ==> WellFormed(Put(fs, k, x)[i].val)
  {
  }

  lemma ChildWellFormed(v: Val, s: Step)
    requires WellFormed(v) && Child(v, s).Some?
    ensures WellFormed(Child(v, s).value)
  {
    if s.K? {
      LookupWellFormed(Props(v), s.key);
    }
  }

  lemma SetPropWellFormed(v: Val, k: string, c: Val)
    requires WellFormed(v) && WellFormed(c)
    ensures WellFormed(SetProp(v, k, c))
  {
    if IsContainer(v) {
      PutKeepsNoDup(Props(v), k, c);
      PutWellFormed(Props(v), k, c);
    }
  }

  lemma SetChildWellFormed(v: Val, s: Step, c: Val)
    requires WellFormed(v) && WellFormed(c)
    ensures WellFormed(SetChild(v, s, c))
  {
    if s.K? {
      SetPropWellFormed(v, s.key, c);
    }
  }

  /** Replacing a part by a well-formed value keeps the whole tree well-formed. */
  lemma {:induction false} SetAtWellFormed(v: Val, p: seq<Step>, c: Val)
    requires WellFormed(v) && WellFormed(c)
    ensures WellFormed(SetAt(v, p, c))
    decreases |p|
  {
    if p != [] && Child(v, p[0]).Some? {
      var d := Child(v, p[0]).value;
      ChildWellFormed(v, p[0]);
      SetAtWellFormed(d, p[1..], c);
      SetChildWellFormed(v, p[0], SetAt(d, p[1..], c));
    }
  }

  function IndexEntries(items: seq<Val>, from: nat, ghost parent: Val): (r: seq<Entry>)
    requires forall i :: 0 <= i < |items| ==> items[i] < parent
    ensures |r| == |items|
    ensures forall i :: 0 <= i < |r| ==> r[i] == Entry(NatToString(from + i), items[i])
    ensures forall i :: 0 <= i < |r| ==> r[i].val < parent
  {
    if items == [] then [] else [Entry(NatToString(from), items[0])] + IndexEntries(items[1..], from + 1, parent)
  }

  function CharEntries(s: string, from: nat): (r: seq<Entry>)
    ensures |r| == |s|
    ensures forall i :: 0 <= i < |r| ==> r[i] == Entry(NatToString(from + i), Str([s[i]]))
  {
    if s == [] then [] else [Entry(NatToString(from), Str([s[0]]))] + CharEntries(s[1..], from + 1)
  }

  /** What `for (const key in v)` visits, with `v[key]`: the fields of an
      object; the indices `"0".."n-1"` of an array followed by its named
      extras; the indices of a string with its one-character strings; nothing
      for `null`, booleans and numbers. */
  function ForIn(v: Val): (r: seq<Entry>)
    ensures v.Obj? ==> r == v.fields
    ensures v.Arr? ==> |r| == |v.items| + |v.extras| && r[|v.items|..] == v.extras
    ensures v.Arr? ==> forall i :: 0 <= i < |v.items| ==> r[i] == Entry(NatToString(i), v.items[i])
    ensures !IsContainer(v) ==> forall i :: 0 <= i < |r| ==> !IsContainer(r[i].val)
    ensures forall i :: 0 <= i < |r| ==> r[i].val < v || !IsContainer(r[i].val)
  {
    match v
    case Obj(fs) => fs
    case Arr(items, ex) => IndexEntries(items, 0, v) + ex
    case Str(s) => CharEntries(s, 0)
    case _ => []
  }

  /** `k` is an integer-like property name; the engine enumerates such names
      first and in numeric order, and on an array they are indices. */
  predicate IntegerLike(k: string)
  {
    k != [] && (forall i :: 0 <= i < |k| ==> IsDigit(k[i])) && (k == "0" || k[0] != '0')
  }

  /** `p` reaches an object or an array of `root`. */
  predicate Reaches(root: Val, p: seq<Step>)
  {
    Get(root, p).Some? && IsContainer(Get(root, p).value)
  }

  /** Replacing the container at `p` by one of the same kind keeps every
      prefix of `p` reaching a container. */
  lemma ReplaceReaches(root: Val, p: seq<Step>, q: seq<Step>, c: Val)
    requires Reaches(root, p) && Reaches(root, q) && q <= p
    requires var cur := Get(root, p).value; c.Obj? == cur.Obj? && c.Arr? == cur.Arr?
    ensures Reaches(SetAt(root, p, c), q)
  {
    assert q == p[..|q|];
    GetSetAtPrefix(root, p, c, |q|);
    if |q| == |p| {
      assert p[|q|..] == [];
    }
  }

  /** `current[key]` reads what `current[key] = x` wrote. */
  lemma ChildOfSetProp(c: Val, k: string, x: Val)
    requires IsContainer(c)
    ensures Child(SetProp(c, k, x), K(k)) == Some(x)
  {
  }

  /** After `current[k] = x` at path `p`, the path one step further reaches `x`. */
  lemma SetPropReaches(root: Val, p: seq<Step>, k: string, x: Val)
    requires Reaches(root, p) && IsContainer(x)
    ensures Reaches(SetAt(root, p, SetProp(Get(root, p).value, k, x)), p + [K(k)])
  {
    var c := SetProp(Get(root, p).value, k, x);
    var root' := SetAt(root, p, c);
    GetSetAt(root, p, c);
    GetAppend(root', p, K(k));
    ChildOfSetProp(Get(root, p).value, k, x);
  }
  /** Whatever a path reaches in a well-formed value is well-formed. */
  lemma {:induction false} GetWellFormed(v: Val, p: seq<Step>)
    requires WellFormed(v) && Get(v, p).Some?
    ensures WellFormed(Get(v, p).value)
    decreases |p|
  {
    if p != [] {
      ChildWellFormed(v, p[0]);
      GetWellFormed(Child(v, p[0]).value, p[1..]);
    }
  }

  /** A path that reaches something passes through each of its prefixes. */
  lemma {:induction false} GetPrefix(v: Val, p: seq<Step>, s: Step)
    requires Get(v, p + [s]).Some?
    ensures Get(v, p).Some?
    decreases |p|
  {
    if p != [] {
      assert (p + [s])[0] == p[0];
      assert (p + [s])[1..] == p[1..] + [s];
      GetPrefix(Child(v, p[0]).value, p[1..], s);
    }
  }

  /** Only a container has parts, so the path one step short of a
      reached container reaches a container too. */
  lemma ReachesPrefix(root: Val, p: seq<Step>, s: Step)
    requires Reaches(root, p + [s])
    ensures Reaches(root, p)
  {
    GetPrefix(root, p, s);
    GetAppend(root, p, s);
  }
  /** A second assignment to the same key overwrites the first. */
  lemma PutPut(fs: seq<Entry>, k: string, a: Val, b: Val)
    ensures Put(Put(fs, k, a), k, b) == Put(fs, k, b)
  {
    match KeyIndex(Keys(fs), k)
    case Some(i) =>
      var g := fs[i := Entry(k, a)];
      assert Keys(g) == Keys(fs);
      assert g[i := Entry(k, b)] == fs[i := Entry(k, b)];
    case None =>
      assert forall j :: 0 <= j < |fs| ==> fs[j].key != k by {
        forall j | 0 <= j < |fs| ensures fs[j].key != k {
          assert Keys(fs)[j] == fs[j].key;
        }
      }
      PutLast(fs, k, a, b);
  }

  lemma SetChildTwice(v: Val, s: Step, a: Val, b: Val)
    requires Child(v, s).Some?
    ensures SetChild(SetChild(v, s, a), s, b) == SetChild(v, s, b)
  {
    if s.K? && IsContainer(v) {
      PutPut(Props(v), s.key, a, b);
    }
  }

  /** Replacing a part of `v` and then a part inside the replacement is
      one replacement, of the part by the replacement changed inside. */
  lemma {:induction false} SetAtCompose(v: Val, p: seq<Step>, q: seq<Step>, c: Val, d: Val)
    requires Get(v, p).Some?
    ensures SetAt(SetAt(v, p, c), p + q, d) == SetAt(v, p, SetAt(c, q, d))
    decreases |p|
  {
    if p == [] {
      assert p + q == q;
    } else {
      var dd := Child(v, p[0]).value;
      var inner := SetAt(dd, p[1..], c);
      var w := SetChild(v, p[0], inner);
      assert SetAt(v, p, c) == w;
      assert Child(w, p[0]) == Some(inner);
      assert (p + q)[0] == p[0] && (p + q)[1..] == p[1..] + q;
      SetAtCompose(dd, p[1..], q, c, d);
      SetChildTwice(v, p[0], inner, SetAt(inner, p[1..] + q, d));
    }
  }

  /** Putting back what a path reaches changes nothing. */
  lemma {:induction false} SetAtSame(v: Val, p: seq<Step>)
    requires Get(v, p).Some?
    ensures SetAt(v, p, Get(v, p).value) == v
    decreases |p|
  {
    if p != [] {
      var d := Child(v, p[0]).value;
      SetAtSame(d, p[1..]);
      match p[0]
      case K(k) =>
        PutSame(Props(v), k);
      case I(i) =>
        assert v.items[i := d] == v.items;
    }
  }
}
