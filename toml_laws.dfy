/** Properties of the TOML reader: how headers move the current table, what
    dotted names build, how values are read, and what an array table is. */
module TomlLaws {
  import opened Text
  import opened Values
  import opened Js
  import opened TomlParse

  /** `{p0: {p1: ... leaf}}`: the tables that walking names missing from a
      table builds, with `leaf` at the bottom. */
  function Nested(parts: seq<string>, leaf: Val): (r: Val)
    ensures parts != [] ==> r.Obj?
    ensures parts == [] ==> r == leaf
  {
    if parts == [] then leaf else Obj([Entry(parts[0], Nested(parts[1..], leaf))])
  }

  /** The path of names `parts`. */
  function Steps(parts: seq<string>): (r: seq<Step>)
    ensures |r| == |parts|
    ensures forall i :: 0 <= i < |r| ==> r[i] == K(parts[i])
  {
    if parts == [] then [] else [K(parts[0])] + Steps(parts[1..])
  }

  /** A name the walk will overwrite with `{}`: missing from the table `c`,
      or falsy there, and not an array's `length`, on which the write throws. */
  predicate Vacant(e: Engine, c: Val, k: string)
  {
    var cur := Lookup(Props(c), k);
    !IsLength(c, k) && (cur.None? || !Truthy(e, cur.value))
  }

  lemma SetPropTwice(c: Val, k: string, a: Val, b: Val)
    ensures SetProp(SetProp(c, k, a), k, b) == SetProp(c, k, b)
  {
    if IsContainer(c) {
      PutPut(Props(c), k, a, b);
    }
  }

  /** Replacing what a fresh one-key table holds is writing the key again. */
  lemma SetAtOneStep(c: Val, k: string, a: Val, b: Val)
    requires IsContainer(c)
    ensures SetAt(SetProp(c, k, a), [K(k)], b) == SetProp(c, k, b)
  {
    assert [K(k)][1..] == [];
    assert Child(SetProp(c, k, a), K(k)) == Some(a);
    SetPropTwice(c, k, a, b);
  }

  /** The nested tables with the bottom one replaced. */
  lemma {:induction false} NestedSetAt(parts: seq<string>, leaf: Val, x: Val)
    ensures SetAt(Nested(parts, leaf), Steps(parts), x) == Nested(parts, x)
  {
    if parts != [] {
      var n := Nested(parts, leaf);
      assert Child(n, K(parts[0])) == Some(Nested(parts[1..], leaf));
      assert Steps(parts)[0] == K(parts[0]) && Steps(parts)[1..] == Steps(parts[1..]);
      NestedSetAt(parts[1..], leaf, x);
    }
  }

  lemma PutEmpty(k: string, v: Val)
    ensures SetProp(Obj([]), k, v) == Obj([Entry(k, v)])
  {
    assert Keys([]) == [];
  }

  /** The first step of a walk into a vacant name writes `{}` and moves into it. */
  lemma DescendVacant(e: Engine, root: Val, p: seq<Step>, k: string)
    requires Good(root, At(p)) && Vacant(e, Get(root, p).value, k)
    ensures var root1 := SetAt(root, p, SetProp(Get(root, p).value, k, Obj([])));
      && Descend(e, Pos(root, At(p)), k) == Ok(Pos(root1, At(p + [K(k)])))
      && Get(root1, p + [K(k)]) == Some(Obj([]))
  {
  }

  /** A walk is its first step followed by the walk over the other names. */
  lemma WalkCons(e: Engine, pos: Pos, parts: seq<string>)
    requires Good(pos.root, pos.target) && parts != []
    requires Descend(e, pos, parts[0]).Ok?
    ensures Walk(e, pos, parts) == Walk(e, Descend(e, pos, parts[0]).value, parts[1..])
  {
  }

  /** Building the nesting one table deeper is building it at once. */
  lemma FreshCompose(root: Val, p: seq<Step>, k: string, rest: seq<string>)
    requires Reaches(root, p) && rest != []
    ensures var c := Get(root, p).value;
      var first := SetProp(c, k, Obj([]));
      SetAt(SetAt(root, p, first), p + [K(k)], SetProp(Obj([]), rest[0], Nested(rest[1..], Obj([]))))
        == SetAt(root, p, SetProp(c, k, Nested(rest, Obj([]))))
  {
    var c := Get(root, p).value;
    var first := SetProp(c, k, Obj([]));
    PutEmpty(rest[0], Nested(rest[1..], Obj([])));
    SetAtCompose(root, p, [K(k)], first, Nested(rest, Obj([])));
    SetAtOneStep(c, k, Obj([]), Nested(rest, Obj([])));
  }

  lemma StepsCons(p: seq<Step>, parts: seq<string>)
    requires parts != []
    ensures p + [K(parts[0])] + Steps(parts[1..]) == p + Steps(parts)
  {
    assert Steps(parts) == [K(parts[0])] + Steps(parts[1..]);
  }

  /** Walking names of which the first is vacant in the table at `p` builds
      the nested tables `{p1: {p2: ... {}}}` under it and arrives at the
      innermost one. */
  lemma {:induction false} WalkFresh(e: Engine, root: Val, p: seq<Step>, parts: seq<string>)
    requires Good(root, At(p)) && parts != []
    requires Vacant(e, Get(root, p).value, parts[0])
    ensures Walk(e, Pos(root, At(p)), parts)
      == Ok(Pos(SetAt(root, p, SetProp(Get(root, p).value, parts[0], Nested(parts[1..], Obj([])))), At(p + Steps(parts))))
    decreases |parts|
  {
    var k := parts[0];
    var root1 := SetAt(root, p, SetProp(Get(root, p).value, k, Obj([])));
    var p1 := p + [K(k)];
    DescendVacant(e, root, p, k);
    WalkCons(e, Pos(root, At(p)), parts);
    StepsCons(p, parts);
    var rest := parts[1..];
    if rest == [] {
      assert Steps(rest) == [];
      assert p1 + Steps(rest) == p1;
    } else {
      WalkFresh(e, root1, p1, rest);
      FreshCompose(root, p, k, rest);
    }
  }

  /** `[a.b.c]` when the result has no truthy `a`: whatever the current
      table was, the names are walked from the result, which gains
      `a = {b: {c: {}}}`; the innermost table becomes current and the array
      table is cleared. */
  lemma FreshTableHeader(e: Engine, st: TState, raw: string)
    requires Inv(st)
    requires var line := Trim(raw); StartsWith(line, "[") && !StartsWith(line, "[[")
    requires var parts := Split(Trim(Inner(Trim(raw))), ".");
      Vacant(e, st.root, parts[0])
    ensures var parts := Split(Trim(Inner(Trim(raw))), ".");
      TomlLine(e, st, raw)
        == Ok(TState(Obj(Put(st.root.fields, parts[0], Nested(parts[1..], Obj([])))), At(Steps(parts)), None))
  {
    var name := Trim(Inner(Trim(raw)));
    var parts := Split(name, ".");
    assert TomlLine(e, st, raw) == TableHeader(e, st.root, name);
    FreshWalkFromRoot(e, st.root, parts);
  }

  /** `[a.length]` when `a` holds a non-empty string: the walk reads the
      string's length, a number, and makes it the current table, so the
      result is unchanged and every plain key line below is lost until the
      next header. */
  lemma HeaderThroughString(e: Engine, root: Val, name: string, a: string, s: string)
    requires root.Obj? && WellFormed(root)
    requires Lookup(root.fields, a) == Some(Str(s)) && s != ""
    requires Split(name, ".") == [a, "length"]
    ensures TableHeader(e, root, name) == Ok(TState(root, Prim(Num(NatToString(|s|))), None))
  {
    var parts := Split(name, ".");
    assert Get(root, []) == Some(root);
    var first := Descend(e, Pos(root, At([])), a);
    assert first == Ok(Pos(root, Prim(Str(s))));
    assert parts[1..] == ["length"];
    assert Walk(e, first.value, ["length"]) == Ok(Pos(root, Prim(Num(NatToString(|s|)))));
  }

  lemma FreshWalkFromRoot(e: Engine, root: Val, parts: seq<string>)
    requires root.Obj? && WellFormed(root) && parts != [] && Vacant(e, root, parts[0])
    ensures Get(root, []) == Some(root)
    ensures Walk(e, Pos(root, At([])), parts) == Ok(Pos(Obj(Put(root.fields, parts[0], Nested(parts[1..], Obj([])))), At(Steps(parts))))
  {
    assert Get(root, []) == Some(root);
    WalkFresh(e, root, [], parts);
    assert [] + Steps(parts) == Steps(parts);
  }

  /** A header line's effect depends on the result alone, never on the
      current table or the array table. */
  lemma HeaderFromRoot(e: Engine, st: TState, other: TState, raw: string)
    requires Inv(st) && Inv(other) && st.root == other.root
    requires StartsWith(Trim(raw), "[")
    ensures TomlLine(e, st, raw) == TomlLine(e, other, raw)
    ensures TomlLine(e, st, raw).Ok? && !StartsWith(Trim(raw), "[[") ==> TomlLine(e, st, raw).value.arrayTable.None?
  {
  }

  /** `[[name]]`: `result[name]` holds an array (a fresh one when it was
      missing or falsy) that keeps its earlier items and gains one more, an
      empty array, which becomes both the current table and the array table;
      nothing else in the result changes. A truthy value that is not an
      array, or an array with an own `push`, makes the header throw. */
  lemma ArrayHeaderPushes(e: Engine, root: Val, name: string)
    requires root.Obj? && WellFormed(root)
    ensures var cur := Lookup(root.fields, name);
      var before := if cur.None? || !Truthy(e, cur.value) then Arr([], []) else cur.value;
      var r := ArrayHeader(e, root, name);
      && (r.Fail? <==> !before.Arr? || Lookup(before.extras, "push").Some?)
      && (r.Fail? ==> r == Fail(TypeError))
      && (r.Ok? ==>
        var after := Lookup(r.value.root.fields, name);
        var n := |before.items|;
        && after.Some? && after.value.Arr?
        && after.value.items == before.items + [Arr([], [])]
        && after.value.extras == before.extras
        && r.value.current == At([K(name), I(n)])
        && r.value.arrayTable == Some([K(name), I(n)])
        && Get(r.value.root, [K(name), I(n)]) == Some(Arr([], []))
        && forall k :: k != name ==> Lookup(r.value.root.fields, k) == Lookup(root.fields, k))
  {
    var r := ArrayHeader(e, root, name);
    if r.Ok? {
      var cur := Lookup(root.fields, name);
      var before := if cur.None? || !Truthy(e, cur.value) then Arr([], []) else cur.value;
      var grown := Arr(before.items + [Arr([], [])], before.extras);
      ArrayHeaderState(e, root, name);
      assert r.value.arrayTable == Some([K(name), I(|before.items|)]);
      PushedReached(root.fields, name, grown);
    }
  }

  /** The array table is an array: a `key = value` line right after
      `[[name]]` stores the value as a named property of the pushed (empty)
      array, whose elements stay as they were. The name `length` is the
      array's length instead: a value that is no valid length throws a
      `RangeError`, `0` leaves the empty array as it is, and a larger one
      lengthens it (`Holes`). */
  lemma ArrayTableKeyLine(e: Engine, root: Val, name: string, key: string, text: string, x: Val)
    requires root.Obj? && WellFormed(root)
    requires ArrayHeader(e, root, name).Ok?
    requires !Contains(key, ".") && ParseValue(e, text) == Ok(x)
    ensures var st := ArrayHeader(e, root, name).value;
      var cur := Lookup(root.fields, name);
      var before := if cur.None? || !Truthy(e, cur.value) then Arr([], []) else cur.value;
      key != "length" ==>
      KeyLine(e, st, key, text)
        == Ok(TState(Obj(Put(root.fields, name, Arr(before.items + [Arr([], [Entry(key, x)])], before.extras))),
                     st.current, st.arrayTable))
    ensures var st := ArrayHeader(e, root, name).value;
      key == "length" ==>
      KeyLine(e, st, key, text)
        == (if LengthOf(e, x).None? then Fail(RangeError)
            else if LengthOf(e, x).value == 0 then Ok(st) else Fail(Holes))
  {
    var st := ArrayHeader(e, root, name).value;
    var cur := Lookup(root.fields, name);
    var before := if cur.None? || !Truthy(e, cur.value) then Arr([], []) else cur.value;
    ArrayHeaderState(e, root, name);
    if key == "length" {
      ArrayTableLength(e, st, text, root.fields, name, before, x);
    } else {
      ArrayTableWrite(e, st, key, text, root.fields, name, before);
    }
  }

  lemma ArrayTableWrite(e: Engine, st: TState, key: string, text: string, fs: seq<Entry>, name: string, before: Val)
    requires before.Arr? && Inv(st) && key != "length"
    requires st.root == Obj(Put(fs, name, Arr(before.items + [Arr([], [])], before.extras)))
    requires st.current == At([K(name), I(|before.items|)])
    requires !Contains(key, ".") && ParseValue(e, text).Ok?
    ensures KeyLine(e, st, key, text)
      == Ok(TState(Obj(Put(fs, name, Arr(before.items + [Arr([], [Entry(key, ParseValue(e, text).value)])], before.extras))),
                   st.current, st.arrayTable))
  {
    var grown := Arr(before.items + [Arr([], [])], before.extras);
    PushedReached(fs, name, grown);
    PlainKeyLine(e, st, key, text);
    PushedWrite(fs, name, before, key, ParseValue(e, text).value);
  }

  /** `length = v` in the pushed (empty) array. */
  lemma ArrayTableLength(e: Engine, st: TState, text: string, fs: seq<Entry>, name: string, before: Val, x: Val)
    requires before.Arr? && Inv(st)
    requires st.root == Obj(Put(fs, name, Arr(before.items + [Arr([], [])], before.extras)))
    requires st.current == At([K(name), I(|before.items|)])
    requires ParseValue(e, text) == Ok(x)
    ensures KeyLine(e, st, "length", text)
      == (if LengthOf(e, x).None? then Fail(RangeError)
          else if LengthOf(e, x).value == 0 then Ok(st) else Fail(Holes))
  {
    var grown := Arr(before.items + [Arr([], [])], before.extras);
    PushedReached(fs, name, grown);
    NotContainsHead("length", ".");
    PlainKeyLine(e, st, "length", text);
    var p := st.current.path;
    assert Get(st.root, p) == Some(Arr([], []));
    if LengthOf(e, x) == Some(0) {
      assert WriteProp(e, Arr([], []), "length", x) == Ok(Arr([], []));
      SetAtSame(st.root, p);
    }
  }

  lemma ArrayHeaderState(e: Engine, root: Val, name: string)
    requires root.Obj? && WellFormed(root) && ArrayHeader(e, root, name).Ok?
    ensures var cur := Lookup(root.fields, name);
      var before := if cur.None? || !Truthy(e, cur.value) then Arr([], []) else cur.value;
      var st := ArrayHeader(e, root, name).value;
      && before.Arr?
      && st.root == Obj(Put(root.fields, name, Arr(before.items + [Arr([], [])], before.extras)))
      && st.current == At([K(name), I(|before.items|)])
  {
  }

  /** Writing a key into the array pushed last. */
  lemma PushedWrite(fs: seq<Entry>, name: string, before: Val, key: string, x: Val)
    requires before.Arr?
    ensures var grown := Arr(before.items + [Arr([], [])], before.extras);
      var n := |before.items|;
      SetAt(Obj(Put(fs, name, grown)), [K(name), I(n)], SetProp(Arr([], []), key, x))
        == Obj(Put(fs, name, Arr(before.items + [Arr([], [Entry(key, x)])], before.extras)))
  {
    var grown := Arr(before.items + [Arr([], [])], before.extras);
    var n := |before.items|;
    var filled := Arr([], [Entry(key, x)]);
    var root := Obj(Put(fs, name, grown));
    PutEmptyArr(key, x);
    assert Child(root, K(name)) == Some(grown);
    assert [K(name), I(n)][0] == K(name) && [K(name), I(n)][1..] == [I(n)];
    assert [I(n)][1..] == [];
    assert SetAt(grown, [I(n)], filled) == Arr(before.items + [filled], before.extras) by {
      assert Child(grown, I(n)) == Some(Arr([], []));
      assert (before.items + [Arr([], [])])[n := filled] == before.items + [filled];
    }
    PutPut(fs, name, grown, Arr(before.items + [filled], before.extras));
  }

  lemma PutEmptyArr(k: string, v: Val)
    ensures SetProp(Arr([], []), k, v) == Arr([], [Entry(k, v)])
  {
    assert Keys([]) == [];
  }

  /** A key line whose value reads and whose walk ends on a table assigns
      the last name in that table: a named property, or the length of an
      array, which either truncates it or fails. */
  lemma KeyLineWalked(e: Engine, st: TState, key: string, text: string)
    requires Inv(st) && ParseValue(e, text).Ok?
    requires var parts := Split(key, ".");
      var w := Walk(e, Pos(st.root, st.current), parts[..|parts| - 1]);
      w.Ok? && w.value.target.At?
    ensures var parts := Split(key, ".");
      var w := Walk(e, Pos(st.root, st.current), parts[..|parts| - 1]).value;
      var q := w.target.path;
      var c := WriteProp(e, Get(w.root, q).value, parts[|parts| - 1], ParseValue(e, text).value);
      KeyLine(e, st, key, text)
        == if c.Ok? then Ok(TState(SetAt(w.root, q, c.value), st.current, st.arrayTable)) else Fail(c.why)
  {
  }

  /** Filling the innermost table of a fresh nesting. */
  lemma FillNested(root: Val, p: seq<Step>, k: string, mid: seq<string>, last: string, x: Val)
    requires Reaches(root, p)
    ensures var c := Get(root, p).value;
      var first := SetProp(c, k, Nested(mid, Obj([])));
      var leaf := Obj([Entry(last, x)]);
      SetAt(SetAt(root, p, first), p + ([K(k)] + Steps(mid)), SetProp(Obj([]), last, x))
        == SetAt(root, p, SetProp(c, k, Nested(mid, leaf)))
  {
    var c := Get(root, p).value;
    var first := SetProp(c, k, Nested(mid, Obj([])));
    var leaf := Obj([Entry(last, x)]);
    PutEmpty(last, x);
    SetAtCompose(root, p, [K(k)] + Steps(mid), first, leaf);
    NestedUnder(c, k, mid, leaf);
  }

  /** `a.b.c = v` when the current table has no truthy `a`: the current
      table gains `a = {b: {c: v}}`; the dotted key is walked from the
      current table, not from the result. */
  lemma DottedKeyFresh(e: Engine, st: TState, key: string, text: string)
    requires Inv(st) && st.current.At?
    requires var parts := Split(key, "."); |parts| >= 2 && Vacant(e, Get(st.root, st.current.path).value, parts[0])
    requires ParseValue(e, text).Ok?
    ensures var parts := Split(key, ".");
      var n := |parts|;
      var p := st.current.path;
      var leaf := Obj([Entry(parts[n - 1], ParseValue(e, text).value)]);
      KeyLine(e, st, key, text)
        == Ok(TState(SetAt(st.root, p, SetProp(Get(st.root, p).value, parts[0], Nested(parts[1..n - 1], leaf))),
                     st.current, st.arrayTable))
  {
    var parts := Split(key, ".");
    var n := |parts|;
    var p := st.current.path;
    var walked := parts[..n - 1];
    var mid := parts[1..n - 1];
    assert walked[0] == parts[0] && walked[1..] == mid;
    WalkFresh(e, st.root, p, walked);
    GetWalkFresh(e, st.root, p, walked);
    assert Steps(walked) == [K(parts[0])] + Steps(mid);
    KeyLineWalked(e, st, key, text);
    FillNested(st.root, p, parts[0], mid, parts[n - 1], ParseValue(e, text).value);
  }

  /** The fresh nesting, read back along its own names, ends in `{}`. */
  lemma GetWalkFresh(e: Engine, root: Val, p: seq<Step>, parts: seq<string>)
    requires Good(root, At(p)) && parts != []
    ensures var c := Get(root, p).value;
      Get(SetAt(root, p, SetProp(c, parts[0], Nested(parts[1..], Obj([])))), p + Steps(parts)) == Some(Obj([]))
  {
    var c := Get(root, p).value;
    var x := SetProp(c, parts[0], Nested(parts[1..], Obj([])));
    GetSetAtPrefix(root, p, x, |p|);
    assert p[..|p|] == p && p[|p|..] == [];
    GetAppendPath(SetAt(root, p, x), p, Steps(parts));
    ChildOfSetProp(c, parts[0], Nested(parts[1..], Obj([])));
    assert Steps(parts)[0] == K(parts[0]) && Steps(parts)[1..] == Steps(parts[1..]);
    GetNested(parts[1..], Obj([]));
  }

  /** Following a path, then more steps. */
  lemma {:induction false} GetAppendPath(v: Val, p: seq<Step>, q: seq<Step>)
    requires Get(v, p).Some?
    ensures Get(v, p + q) == Get(Get(v, p).value, q)
    decreases |p|
  {
    if p == [] {
      assert p + q == q;
    } else {
      assert (p + q)[0] == p[0] && (p + q)[1..] == p[1..] + q;
      GetAppendPath(Child(v, p[0]).value, p[1..], q);
    }
  }

  lemma {:induction false} GetNested(parts: seq<string>, leaf: Val)
    ensures Get(Nested(parts, leaf), Steps(parts)) == Some(leaf)
  {
    if parts != [] {
      assert Child(Nested(parts, leaf), K(parts[0])) == Some(Nested(parts[1..], leaf));
      assert Steps(parts)[0] == K(parts[0]) && Steps(parts)[1..] == Steps(parts[1..]);
      GetNested(parts[1..], leaf);
    }
  }

  /** Writing the leaf at the bottom of a fresh nesting is building the
      nesting with that leaf. */
  lemma NestedUnder(c: Val, k: string, mid: seq<string>, leaf: Val)
    requires IsContainer(c)
    ensures SetAt(SetProp(c, k, Nested(mid, Obj([]))), [K(k)] + Steps(mid), leaf) == SetProp(c, k, Nested(mid, leaf))
  {
    var x := SetProp(c, k, Nested(mid, Obj([])));
    assert ([K(k)] + Steps(mid))[0] == K(k) && ([K(k)] + Steps(mid))[1..] == Steps(mid);
    ChildOfSetProp(c, k, Nested(mid, Obj([])));
    NestedSetAt(mid, Obj([]), leaf);
    SetPropTwice(c, k, Nested(mid, Obj([])), Nested(mid, leaf));
  }

  /** `key = value` with an undotted key stores the value's reading in the
      current table, and moves nothing. */
  lemma PlainKeyLine(e: Engine, st: TState, key: string, text: string)
    requires Inv(st) && !Contains(key, ".") && ParseValue(e, text).Ok?
    ensures var r := KeyLine(e, st, key, text);
      var x := ParseValue(e, text).value;
      && (st.current.Undef? ==> r == Fail(TypeError))
      && (st.current.Prim? ==> r == Ok(st))
      && (st.current.At? ==>
            var p := st.current.path;
            var w := WriteProp(e, Get(st.root, p).value, key, x);
            && (w.Fail? ==> r == Fail(w.why))
            && (w.Ok? ==> r == Ok(TState(SetAt(st.root, p, w.value), st.current, st.arrayTable))))
    ensures var r := KeyLine(e, st, key, text);
      st.current.At? && !IsLength(Get(st.root, st.current.path).value, key) ==>
      var p := st.current.path;
      && r.Ok? && r.value.current == st.current && r.value.arrayTable == st.arrayTable
      && Get(r.value.root, p + [K(key)]) == Some(ParseValue(e, text).value)
      && r.value.root == SetAt(st.root, p, SetProp(Get(st.root, p).value, key, ParseValue(e, text).value))
  {
    SplitNone(key, ".");
    assert Split(key, ".")[..0] == [];
  }

  /** `a = []` reads as `[0]`: the empty inside splits into one empty piece,
      and `Number('')` is `0`. */
  lemma EmptyArrayIsZero(e: Engine)
    requires NumberFacts(e)
    ensures ParseValue(e, "[]") == Ok(Arr([Num("")], []))
    ensures !Truthy(e, Num(""))
  {
    var v := "[]";
    assert !Wrapped(v, "\"") && !Wrapped(v, "'") by {
      assert v[..1] == "[";
    }
    assert LowerAscii(v) == v;
    assert StartsWith(v, "[") && EndsWith(v, "]");
    assert Inner(v) == "";
    NotContainsHead("", ",");
    SplitNone("", ",");
    TrimOfTrimmed("");
    assert ArrayItems(e, [""]) == [ArrayItem(e, "")];
  }

  /** `a = {}` throws: the one empty pair has no `=`, so its value is `undefined`. */
  lemma EmptyInlineTableThrows(e: Engine)
    requires NumberFacts(e)
    ensures ParseValue(e, "{}") == Fail(TypeError)
  {
    var v := "{}";
    assert v[..1] == "{" && v[1..] == "}";
    assert LowerAscii(v) == v;
    NotStarting(v, "\"");
    NotStarting(v, "'");
    NotStarting(v, "[");
    InlineBranch(e, v);
    EmptyPairs(v);
  }

  /** Text in braces that no earlier test claims is read as an inline table. */
  lemma InlineBranch(e: Engine, v: string)
    requires StartsWith(v, "{") && EndsWith(v, "}") && !e.isNumeric(v)
    requires !StartsWith(v, "\"") && !StartsWith(v, "'") && !StartsWith(v, "[")
    requires LowerAscii(v) != "true" && LowerAscii(v) != "false"
    ensures ParseValue(e, v) == InlineTable(v)
  {
  }

  lemma NotStarting(v: string, q: string)
    requires v != [] && |q| == 1 && q[0] != v[0]
    ensures !StartsWith(v, q)
  {
    if |v| >= 1 {
      assert v[..1][0] == v[0];
    }
  }

  /** The inside of `{}` is one empty pair, which has no `=`. */
  lemma EmptyPairs(v: string)
    requires v == "{}"
    ensures InlineTable(v) == Fail(TypeError)
  {
    assert Inner(v) == "";
    NotContainsHead("", ",");
    SplitNone("", ",");
    TrimOfTrimmed("");
    assert Trimmed([""]) == [""];
    NotContainsHead("", "=");
    assert !AllAssign([""]);
  }

  /** `flag = false` and `flag = FALSE` read as the boolean: neither word is
      a number, and the word is compared in lower case. */
  lemma FalseIsBoolean(e: Engine)
    requires NumberFacts(e)
    ensures ParseValue(e, "false") == Ok(Bool(false))
    ensures ParseValue(e, "FALSE") == Ok(Bool(false))
  {
    var v := "false";
    assert !Wrapped(v, "\"") && !Wrapped(v, "'") by {
      assert v[..1] == "f";
    }
    assert LowerAscii(v) == v;
    assert !Wrapped("FALSE", "\"") && !Wrapped("FALSE", "'") by {
      assert "FALSE"[..1] == "F";
    }
    assert LowerAscii("FALSE") == v;
  }
}
