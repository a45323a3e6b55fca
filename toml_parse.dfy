/** The TOML reader (`parseToml`, script.js:668-772), as functions over the
    value tree: a single pass over the trimmed lines, with a current table
    that headers move and key lines write into.

    The source keeps a reference to the current table; here it is a path
    from the result (or the primitive or `undefined` a walk can end on).
    Every object or array the reader creates is fresh and stored in exactly
    one place, and a write goes into the current table or below it, so a
    path keeps denoting the object the reference points to. */
module TomlParse {
  import opened Text
  import opened Values
  import opened Js

  /** The result is an object without repeated keys, and a path target
      reaches one of its containers. */
  predicate Good(root: Val, t: Target)
  {
    root.Obj? && WellFormed(root) && (t.At? ==> Reaches(root, t.path))
  }

  /** The result together with the table a walk has arrived at. */
  datatype Pos = Pos(root: Val, target: Target)

  /** One pass of the walking loops (script.js:697-702 and 756-761):
      `if (!t[k]) t[k] = {}; t = t[k]`, for `currentTable` or a key line's
      `target` (a path, a primitive or `undefined`).
      - On a path target, `t[k]` is read with `ReadProp`. When it is
        missing or falsy it is written as `{}` and becomes the new target;
        on an array's `length` that write throws a `RangeError`, as `{}` is
        no valid length. A truthy value read becomes the new target.
      - On a primitive the write is silently lost, and the read gives the
        primitive's `length` or `undefined`.
      - On `undefined` the read throws a `TypeError`. */
  function Descend(e: Engine, pos: Pos, k: string): (r: Outcome<Pos>)
    requires Good(pos.root, pos.target)
    ensures r == Fail(TypeError) <==> pos.target.Undef?
    ensures r != Fail(Holes)
    ensures r == Fail(RangeError) ==> pos.target.At? && IsLength(Get(pos.root, pos.target.path).value, k)
    ensures pos.target.Prim? ==>
      var got := ReadProp(pos.target.v, k);
      r == Ok(Pos(pos.root, if got.Some? then Prim(got.value) else Undef))
    ensures r.Ok? ==> Good(r.value.root, r.value.target)
    ensures pos.target.At? && IsLength(Get(pos.root, pos.target.path).value, k) ==>
      var n := Num(NatToString(|Get(pos.root, pos.target.path).value.items|));
      r == (if Truthy(e, n) then Ok(Pos(pos.root, Prim(n))) else Fail(RangeError))
    ensures pos.target.At? && !IsLength(Get(pos.root, pos.target.path).value, k) ==> r.Ok?
    ensures pos.target.At? && !IsLength(Get(pos.root, pos.target.path).value, k) && r.Ok? ==>
      var p := pos.target.path;
      var before := Lookup(Props(Get(pos.root, p).value), k);
      var after := Get(r.value.root, p + [K(k)]);
      && Reaches(r.value.root, p)
      && after.Some? && Truthy(e, after.value)
      && r.value.target == (if IsContainer(after.value) then At(p + [K(k)]) else Prim(after.value))
      && (if before.Some? && Truthy(e, before.value) then r.value.root == pos.root && after == before
          else after == Some(Obj([])))
  {
    match pos.target
    case Undef => Fail(TypeError)
    case Prim(v) =>
      var got := ReadProp(v, k);
      Ok(Pos(pos.root, if got.Some? then Prim(got.value) else Undef))
    case At(p) =>
      var c := Get(pos.root, p).value;
      var cur := ReadProp(c, k);
      GetAppend(pos.root, p, K(k));
      if cur.None? || !Truthy(e, cur.value) then
        if IsLength(c, k) then Fail(RangeError)
        else
          SetPropReaches(pos.root, p, k, Obj([]));
          NewTableWritten(pos.root, p, k);
          Ok(Pos(SetAt(pos.root, p, SetProp(c, k, Obj([]))), At(p + [K(k)])))
      else if IsLength(c, k) then Ok(Pos(pos.root, Prim(cur.value)))
      else
        GetWellFormed(pos.root, p + [K(k)]);
        if IsContainer(cur.value) then Ok(Pos(pos.root, At(p + [K(k)])))
        else Ok(Pos(pos.root, Prim(cur.value)))
  }

  /** Writing `t[k] = {}` keeps the result well-formed and `t` reachable. */
  lemma NewTableWritten(root: Val, p: seq<Step>, k: string)
    requires Good(root, At(p))
    ensures var root' := SetAt(root, p, SetProp(Get(root, p).value, k, Obj([])));
      Good(root', At(p)) && Get(root', p + [K(k)]) == Some(Obj([]))
  {
    var c := Get(root, p).value;
    var c' := SetProp(c, k, Obj([]));
    ReplaceReaches(root, p, p, c');
    assert Keys([]) == [];
    GetWellFormed(root, p);
    SetPropWellFormed(c, k, Obj([]));
    SetAtWellFormed(root, p, c');
    GetSetAt(root, p, c');
    GetAppend(SetAt(root, p, c'), p, K(k));
    if p != [] {
      assert SetAt(root, p, c').Obj?;
    }
  }

  /** The walking loops: `Descend` over `parts`, front to back. A walk never
      lengthens an array. It throws a `RangeError` only when some name is
      `length`. It throws a `TypeError` at once from `undefined`; from a
      primitive it needs two names (one read giving `undefined`, then the
      throwing read), and from an object or array three (a truthy primitive
      read first). */
  function Walk(e: Engine, pos: Pos, parts: seq<string>): (r: Outcome<Pos>)
    requires Good(pos.root, pos.target)
    ensures parts == [] ==> r == Ok(pos)
    ensures pos.target.Undef? && parts != [] ==> r == Fail(TypeError)
    ensures r != Fail(Holes)
    ensures r == Fail(RangeError) ==> "length" in parts
    ensures r == Fail(TypeError) && pos.target.Prim? ==> |parts| >= 2
    ensures r == Fail(TypeError) && pos.target.At? ==> |parts| >= 3
    ensures r.Ok? ==> Good(r.value.root, r.value.target)
    ensures r.Ok? && pos.target.At? ==> Reaches(r.value.root, pos.target.path)
    ensures r.Ok? && !pos.target.At? ==> r.value.root == pos.root
    ensures r.Ok? && r.value.target.At? ==> pos.target.At? && pos.target.path <= r.value.target.path
    decreases |parts|
  {
    if parts == [] then Ok(pos)
    else match Descend(e, pos, parts[0])
      case Fail(f) => Fail(f)
      case Ok(next) =>
        var r := Walk(e, next, parts[1..]);
        if r.Ok? && pos.target.At? then
          if next.target.At? then
            ReachesPrefix(r.value.root, pos.target.path, K(parts[0]));
            r
          else r
        else r
  }

  /** The assignment `target[k] = x` that ends a key line (script.js:763):
      `WriteProp` on a path target, silently lost on a primitive, and a
      `TypeError` on `undefined`. */
  function Store(e: Engine, pos: Pos, k: string, x: Val): (r: Outcome<Val>)
    requires Good(pos.root, pos.target)
    ensures r == Fail(TypeError) <==> pos.target.Undef?
    ensures pos.target.Prim? ==> r == Ok(pos.root)
    ensures pos.target.At? ==>
      var p := pos.target.path;
      var w := WriteProp(e, Get(pos.root, p).value, k, x);
      && (w.Ok? ==> r == Ok(SetAt(pos.root, p, w.value)) && Get(r.value, p) == Some(w.value))
      && (w.Fail? ==> r == w)
    ensures pos.target.At? && !IsLength(Get(pos.root, pos.target.path).value, k) ==>
      r.Ok? && Get(r.value, pos.target.path + [K(k)]) == Some(x)
  {
    match pos.target
    case Undef => Fail(TypeError)
    case Prim(_) => Ok(pos.root)
    case At(p) =>
      var c := Get(pos.root, p).value;
      match WriteProp(e, c, k, x)
      case Fail(f) => Fail(f)
      case Ok(c') =>
        GetSetAt(pos.root, p, c');
        GetAppend(SetAt(pos.root, p, c'), p, K(k));
        Ok(SetAt(pos.root, p, c'))
  }

  /** `v.startsWith(q) && v.endsWith(q)` */
  predicate Wrapped(v: string, q: string)
  {
    StartsWith(v, q) && EndsWith(v, q)
  }

  /** `v.substring(1, v.length - 1)` */
  function Inner(v: string): string
  {
    JsSubstring(v, 1, |v| - 1)
  }

  /** One element of an array value (script.js:732-738): a number, the
      inside of a double-quoted string, or the trimmed text. A lone `"` is
      both opened and closed by itself, and `substring(1, 0)` gives it back. */
  function ArrayItem(e: Engine, s: string): (r: Val)
    ensures !IsContainer(r)
    ensures e.isNumeric(Trim(s)) ==> r == Num(Trim(s))
    ensures !e.isNumeric(Trim(s)) ==> r.Str?
    ensures forall x :: !e.isNumeric(Trim(s)) && Trim(s) == "\"" + x + "\"" ==> r == Str(x)
    ensures !e.isNumeric(Trim(s)) && Trim(s) == "\"" ==> r == Str("\"")
    ensures !e.isNumeric(Trim(s)) && !Wrapped(Trim(s), "\"") ==> r == Str(Trim(s))
  {
    var t := Trim(s);
    if e.isNumeric(t) then Num(t)
    else if Wrapped(t, "\"") then Str(Inner(t))
    else Str(t)
  }

  /** `pieces.map(f)` for the element reader. */
  function ArrayItems(e: Engine, pieces: seq<string>): (r: seq<Val>)
    ensures |r| == |pieces|
    ensures forall i :: 0 <= i < |r| ==> r[i] == ArrayItem(e, pieces[i])
  {
    if pieces == [] then [] else [ArrayItem(e, pieces[0])] + ArrayItems(e, pieces[1..])
  }

  /** The value of one `k = v` pair of an inline table (script.js:746-747):
      the inside of a double-quoted string, and otherwise `Number(v)`. */
  function InlineValue(v: string): (r: Val)
    ensures !IsContainer(r)
  {
    if Wrapped(v, "\"") then Str(Inner(v)) else Num(v)
  }

  /** One pass of the inline-table loop (script.js:744-748): a pair without
      `=` leaves `v` undefined, and `v.startsWith` throws. */
  function InlinePair(pair: string): (r: Outcome<Entry>)
    ensures r == Fail(TypeError) <==> !Contains(pair, "=")
    ensures r.Fail? ==> r == Fail(TypeError)
  {
    var pieces := Split(pair, "=");
    if |pieces| < 2 then Fail(TypeError)
    else Ok(Entry(Trim(pieces[0]), InlineValue(Trim(pieces[1]))))
  }

  /** Every pair holds `=`. */
  predicate AllAssign(pairs: seq<string>)
  {
    forall i :: 0 <= i < |pairs| ==> Contains(pairs[i], "=")
  }

  /** The inline-table loop over the trimmed pairs, from the fields `acc`
      written so far: it throws exactly when some pair lacks `=`. */
  function InlineFields(pairs: seq<string>, acc: seq<Entry>): (r: Outcome<seq<Entry>>)
    requires WellFormed(Obj(acc))
    ensures r == Fail(TypeError) <==> !AllAssign(pairs)
    ensures r.Fail? ==> r == Fail(TypeError)
    ensures r.Ok? ==> WellFormed(Obj(r.value))
    decreases |pairs|
  {
    if pairs == [] then Ok(acc)
    else match InlinePair(pairs[0])
      case Fail(f) => Fail(f)
      case Ok(x) =>
        PutKeepsNoDup(acc, x.key, x.val);
        PutWellFormed(acc, x.key, x.val);
        AllAssignCons(pairs);
        InlineFields(pairs[1..], Put(acc, x.key, x.val))
  }

  lemma AllAssignCons(pairs: seq<string>)
    requires pairs != []
    ensures AllAssign(pairs) <==> Contains(pairs[0], "=") && AllAssign(pairs[1..])
  {
    assert forall i :: 1 <= i < |pairs| ==> pairs[1..][i - 1] == pairs[i];
  }

  function Trimmed(pieces: seq<string>): (r: seq<string>)
    ensures |r| == |pieces|
    ensures forall i :: 0 <= i < |r| ==> r[i] == Trim(pieces[i])
  {
    if pieces == [] then [] else [Trim(pieces[0])] + Trimmed(pieces[1..])
  }

  /** The value of a key line, tested in the source's order (script.js:711-752):
      a quoted string, a number, a boolean (compared case-insensitively), an
      array, an inline table, and otherwise the text itself. Only an inline
      table can throw. */
  function ParseValue(e: Engine, v: string): (r: Outcome<Val>)
    ensures r.Ok? ==> WellFormed(r.value)
    ensures r.Fail? ==> r == Fail(TypeError) && StartsWith(v, "{") && EndsWith(v, "}")
    ensures Wrapped(v, "\"") || Wrapped(v, "'") ==> r == Ok(Str(Inner(v)))
  {
    if Wrapped(v, "\"") || Wrapped(v, "'") then Ok(Str(Inner(v)))
    else if e.isNumeric(v) then Ok(Num(v))
    else if LowerAscii(v) == "true" || LowerAscii(v) == "false" then Ok(Bool(LowerAscii(v) == "true"))
    else if StartsWith(v, "[") && EndsWith(v, "]") then Ok(ArrayValue(e, v))
    else if StartsWith(v, "{") && EndsWith(v, "}") then InlineTable(v)
    else Ok(Str(v))
  }

  /** An array value `[a, b, ...]` (script.js:727-737): the inside split at
      every comma, each piece read by `ArrayItem`. */
  function ArrayValue(e: Engine, v: string): (r: Val)
    ensures r.Arr? && r.extras == [] && WellFormed(r)
    ensures r.items == ArrayItems(e, Split(Inner(v), ","))
  {
    var items := ArrayItems(e, Split(Inner(v), ","));
    assert Keys([]) == [];
    Arr(items, [])
  }

  /** An inline table `{k = v, ...}` (script.js:739-749): the inside split at
      every comma, each piece trimmed and read by `InlinePair`. */
  function InlineTable(v: string): (r: Outcome<Val>)
    ensures r.Ok? ==> r.value.Obj? && WellFormed(r.value)
    ensures r == Fail(TypeError) <==> !AllAssign(Trimmed(Split(Inner(v), ",")))
    ensures r.Fail? ==> r == Fail(TypeError)
  {
    assert Keys([]) == [];
    match InlineFields(Trimmed(Split(Inner(v), ",")), [])
    case Fail(f) => Fail(f)
    case Ok(fs) => Ok(Obj(fs))
  }

  /** The reader's state: the result, `currentTable`, and `currentArrayTable`
      (as the path of the array it holds, `None` for `null`). */
  datatype TState = TState(root: Val, current: Target, arrayTable: Option<seq<Step>>)

  const Start := TState(Obj([]), At([]), None)

  /** The result is a well-formed object, the current table is reachable,
      and an array table, when one is open, is the current table. */
  predicate Inv(st: TState)
  {
    && Good(st.root, st.current)
    && (st.arrayTable.Some? ==> st.current == At(st.arrayTable.value))
  }

  /** An `[[name]]` header (script.js:683-690): `result[name]` is set to `[]`
      when it is missing or falsy, then a fresh array is pushed onto it and
      becomes both the current table and the array table. A truthy value that
      is not an array, or an array with an own `push` property, has no
      callable `push`: the call throws. */
  function ArrayHeader(e: Engine, root: Val, name: string): (r: Outcome<TState>)
    requires root.Obj? && WellFormed(root)
    ensures r.Ok? ==> Inv(r.value)
  {
    var cur := Lookup(root.fields, name);
    var arr := if cur.None? || !Truthy(e, cur.value) then Arr([], []) else cur.value;
    if !arr.Arr? || Lookup(arr.extras, "push").Some? then Fail(TypeError)
    else
      var path := [K(name), I(|arr.items|)];
      var root' := Obj(Put(root.fields, name, Arr(arr.items + [Arr([], [])], arr.extras)));
      ArrayHeaderGood(root, name, arr);
      Ok(TState(root', At(path), Some(path)))
  }

  /** The pushed array is reachable in the new result, which stays well-formed. */
  lemma ArrayHeaderGood(root: Val, name: string, arr: Val)
    requires root.Obj? && WellFormed(root) && arr.Arr?
    requires WellFormed(arr)
    ensures var root' := Obj(Put(root.fields, name, Arr(arr.items + [Arr([], [])], arr.extras)));
      Good(root', At([K(name), I(|arr.items|)]))
  {
    var grown := Arr(arr.items + [Arr([], [])], arr.extras);
    GrownWellFormed(arr);
    PutKeepsNoDup(root.fields, name, grown);
    PutWellFormed(root.fields, name, grown);
    PushedReached(root.fields, name, grown);
  }

  lemma GrownWellFormed(arr: Val)
    requires arr.Arr? && WellFormed(arr)
    ensures WellFormed(Arr(arr.items + [Arr([], [])], arr.extras))
  {
    assert Keys([]) == [];
    assert WellFormed(Arr([], []));
    var items := arr.items + [Arr([], [])];
    assert forall i :: 0 <= i < |items| ==> items[i] == Arr([], []) || items[i] == arr.items[i];
  }

  lemma PushedReached(fs: seq<Entry>, name: string, grown: Val)
    requires grown.Arr? && |grown.items| > 0 && grown.items[|grown.items| - 1] == Arr([], [])
    ensures Get(Obj(Put(fs, name, grown)), [K(name), I(|grown.items| - 1)]) == Some(Arr([], []))
    ensures Reaches(Obj(Put(fs, name, grown)), [K(name), I(|grown.items| - 1)])
  {
    var root' := Obj(Put(fs, name, grown));
    var n := |grown.items| - 1;
    assert Child(root', K(name)) == Some(grown);
    assert Child(grown, I(n)) == Some(Arr([], []));
    assert Get(Arr([], []), []) == Some(Arr([], []));
    assert [K(name), I(n)][1..] == [I(n)];
    assert [I(n)][1..] == [];
  }

  /** An `[a.b]` header (script.js:691-703): the walk starts again from the
      result, and the array table is cleared. */
  function TableHeader(e: Engine, root: Val, name: string): (r: Outcome<TState>)
    requires root.Obj? && WellFormed(root)
    ensures r.Ok? ==> Inv(r.value) && r.value.arrayTable.None?
  {
    assert Get(root, []) == Some(root);
    match Walk(e, Pos(root, At([])), Split(name, "."))
    case Fail(f) => Fail(f)
    case Ok(pos) => Ok(TState(pos.root, pos.target, None))
  }

  /** A key line `key = value` (script.js:708-764): the value is read, the
      dotted key's leading parts are walked from the current table, and the
      last part is assigned. */
  function KeyLine(e: Engine, st: TState, key: string, value: string): (r: Outcome<TState>)
    requires Inv(st)
    ensures r.Ok? ==> Inv(r.value)
    ensures r.Ok? ==> r.value.current == st.current && r.value.arrayTable == st.arrayTable
  {
    match ParseValue(e, value)
    case Fail(f) => Fail(f)
    case Ok(x) =>
      var parts := Split(key, ".");
      match Walk(e, Pos(st.root, st.current), parts[..|parts| - 1])
      case Fail(f) => Fail(f)
      case Ok(pos) =>
        match Store(e, pos, parts[|parts| - 1], x)
        case Fail(f) => Fail(f)
        case Ok(root') =>
          StoreKeeps(e, st.current, pos, parts[|parts| - 1], x);
          Ok(TState(root', st.current, st.arrayTable))
  }

  /** The final assignment keeps the result well-formed and the current
      table reachable: it writes into the current table or below it, and
      a `length` it sets only shortens an array. */
  lemma StoreKeeps(e: Engine, current: Target, pos: Pos, k: string, x: Val)
    requires Good(pos.root, pos.target) && WellFormed(x)
    requires current.At? ==> Reaches(pos.root, current.path)
    requires pos.target.At? ==> current.At? && current.path <= pos.target.path
    requires Store(e, pos, k, x).Ok?
    ensures Good(Store(e, pos, k, x).value, current)
  {
    if pos.target.At? {
      var p := pos.target.path;
      var c := Get(pos.root, p).value;
      var c' := WriteProp(e, c, k, x).value;
      GetWellFormed(pos.root, p);
      WritePropWellFormed(e, c, k, x);
      SetAtWellFormed(pos.root, p, c');
      ReplaceReaches(pos.root, p, current.path, c');
      if p != [] {
        assert SetAt(pos.root, p, c').Obj?;
      }
    }
  }

  /** What one line does (script.js:674-766), its text trimmed first:
      blank and comment lines, and lines that are neither a header nor hold
      `=`, change nothing. */
  function TomlLine(e: Engine, st: TState, raw: string): (r: Outcome<TState>)
    requires Inv(st)
    ensures r.Ok? ==> Inv(r.value)
  {
    var line := Trim(raw);
    if line == "" || StartsWith(line, "#") then Ok(st)
    else if StartsWith(line, "[") then
      if StartsWith(line, "[[") then ArrayHeader(e, st.root, Trim(JsSubstring(line, 2, |line| - 2)))
      else TableHeader(e, st.root, Trim(Inner(line)))
    else if Contains(line, "=") then
      var pieces := Split(line, "=");
      KeyLine(e, st, Trim(pieces[0]), Trim(pieces[1]))
    else Ok(st)
  }

  /** The main loop from line `j` on; a throw ends the parse. */
  function Run(e: Engine, lines: seq<string>, j: nat, st: TState): (r: Outcome<TState>)
    requires Inv(st) && j <= |lines|
    ensures r.Ok? ==> Inv(r.value)
    decreases |lines| - j
  {
    if j == |lines| then Ok(st)
    else match TomlLine(e, st, lines[j])
      case Fail(f) => Fail(f)
      case Ok(st') => Run(e, lines, j + 1, st')
  }

  /** `parseToml(text)`: the result object, or the fault that ends it. */
  function ParseTomlSpec(e: Engine, text: string): (r: Outcome<Val>)
    ensures r.Ok? ==> r.value.Obj? && WellFormed(r.value)
  {
    assert Get(Obj([]), []) == Some(Obj([]));
    assert Keys([]) == [];
    match Run(e, Split(text, "\n"), 0, Start)
    case Fail(f) => Fail(f)
    case Ok(st) => Ok(st.root)
  }
}
