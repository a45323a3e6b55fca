/** The imperative reader: `parseToml` with its loops (the line loop, the
    two walking loops and the inline-table loop), each proved to compute the
    corresponding function of `TomlParse`. */
module TomlReader {
  import opened Text
  import opened Values
  import opened Js
  import opened TomlParse

  lemma DropOne<T>(s: seq<T>, j: nat)
    requires j < |s|
    ensures s[j..][0] == s[j] && s[j..][1..] == s[j + 1..]
  {
  }

  /** The walking loops (script.js:697-702 and 756-761). */
  method WalkParts(e: Engine, pos: Pos, parts: seq<string>) returns (r: Outcome<Pos>)
    requires Good(pos.root, pos.target)
    ensures r == Walk(e, pos, parts)
  {
    var cur := pos;
    var j := 0;
    while j < |parts|
      invariant 0 <= j <= |parts|
      invariant Good(cur.root, cur.target)
      invariant Walk(e, cur, parts[j..]) == Walk(e, pos, parts)
    {
      DropOne(parts, j);
      var k := parts[j];
      match cur.target {
        case Undef =>
          return Fail(TypeError);
        case Prim(v) =>
          var got := ReadProp(v, k);
          cur := Pos(cur.root, if got.Some? then Prim(got.value) else Undef);
        case At(p) =>
          var c := Get(cur.root, p).value;
          var child := ReadProp(c, k);
          if child.None? || !Truthy(e, child.value) {
            if IsLength(c, k) {
              return Fail(RangeError);
            }
            cur := Pos(SetAt(cur.root, p, SetProp(c, k, Obj([]))), At(p + [K(k)]));
          } else if IsContainer(child.value) {
            cur := Pos(cur.root, At(p + [K(k)]));
          } else {
            cur := Pos(cur.root, Prim(child.value));
          }
      }
      j := j + 1;
    }
    return Ok(cur);
  }

  /** The inline-table loop (script.js:743-748). */
  method ReadPairs(pairs: seq<string>) returns (r: Outcome<seq<Entry>>)
    ensures r == InlineFields(pairs, [])
  {
    assert Keys([]) == [];
    var fields: seq<Entry> := [];
    var j := 0;
    while j < |pairs|
      invariant 0 <= j <= |pairs|
      invariant WellFormed(Obj(fields))
      invariant InlineFields(pairs[j..], fields) == InlineFields(pairs, [])
    {
      DropOne(pairs, j);
      var pieces := Split(pairs[j], "=");
      if |pieces| < 2 {
        return Fail(TypeError);
      }
      var k := Trim(pieces[0]);
      var v := Trim(pieces[1]);
      PutKeepsNoDup(fields, k, InlineValue(v));
      PutWellFormed(fields, k, InlineValue(v));
      fields := Put(fields, k, InlineValue(v));
      j := j + 1;
    }
    return Ok(fields);
  }

  /** The value of a key line (script.js:711-752). */
  method ReadValue(e: Engine, v: string) returns (r: Outcome<Val>)
    ensures r == ParseValue(e, v)
  {
    if Wrapped(v, "\"") || Wrapped(v, "'") {
      r := Ok(Str(Inner(v)));
    } else if e.isNumeric(v) {
      r := Ok(Num(v));
    } else if LowerAscii(v) == "true" || LowerAscii(v) == "false" {
      r := Ok(Bool(LowerAscii(v) == "true"));
    } else if StartsWith(v, "[") && EndsWith(v, "]") {
      r := Ok(Arr(ArrayItems(e, Split(Inner(v), ",")), []));
    } else if StartsWith(v, "{") && EndsWith(v, "}") {
      var fields := ReadPairs(Trimmed(Split(Inner(v), ",")));
      match fields {
        case Fail(f) => r := Fail(f);
        case Ok(fs) => r := Ok(Obj(fs));
      }
    } else {
      r := Ok(Str(v));
    }
  }

  /** An `[[name]]` header (script.js:683-690). */
  method ReadArrayHeader(e: Engine, root: Val, name: string) returns (r: Outcome<TState>)
    requires root.Obj? && WellFormed(root)
    ensures r == ArrayHeader(e, root, name)
  {
    var cur := Lookup(root.fields, name);
    var arr := if cur.None? || !Truthy(e, cur.value) then Arr([], []) else cur.value;
    if !arr.Arr? || Lookup(arr.extras, "push").Some? {
      return Fail(TypeError);
    }
    var path := [K(name), I(|arr.items|)];
    r := Ok(TState(Obj(Put(root.fields, name, Arr(arr.items + [Arr([], [])], arr.extras))), At(path), Some(path)));
  }

  /** An `[a.b]` header (script.js:691-703). */
  method ReadTableHeader(e: Engine, root: Val, name: string) returns (r: Outcome<TState>)
    requires root.Obj? && WellFormed(root)
    ensures r == TableHeader(e, root, name)
  {
    assert Get(root, []) == Some(root);
    var walked := WalkParts(e, Pos(root, At([])), Split(name, "."));
    match walked {
      case Fail(f) => r := Fail(f);
      case Ok(pos) => r := Ok(TState(pos.root, pos.target, None));
    }
  }

  /** A `key = value` line (script.js:708-764). */
  method ReadKeyLine(e: Engine, st: TState, key: string, text: string) returns (r: Outcome<TState>)
    requires Inv(st)
    ensures r == KeyLine(e, st, key, text)
  {
    var value := ReadValue(e, text);
    if value.Fail? {
      return Fail(value.why);
    }
    var keyParts := Split(key, ".");
    var last := keyParts[|keyParts| - 1];
    var walked := WalkParts(e, Pos(st.root, st.current), keyParts[..|keyParts| - 1]);
    if walked.Fail? {
      return Fail(walked.why);
    }
    var target := walked.value;
    match target.target {
      case Undef =>
        r := Fail(TypeError);
      case Prim(_) =>
        r := Ok(TState(target.root, st.current, st.arrayTable));
      case At(p) =>
        var c := Get(target.root, p).value;
        var written := WriteProp(e, c, last, value.value);
        match written {
          case Fail(f) => r := Fail(f);
          case Ok(c') => r := Ok(TState(SetAt(target.root, p, c'), st.current, st.arrayTable));
        }
    }
  }

  /** One pass of the line loop (script.js:674-766). */
  method ReadLine(e: Engine, st: TState, raw: string) returns (r: Outcome<TState>)
    requires Inv(st)
    ensures r == TomlLine(e, st, raw)
  {
    var line := Trim(raw);
    if line == "" || StartsWith(line, "#") {
      r := Ok(st);
    } else if StartsWith(line, "[") {
      if StartsWith(line, "[[") {
        r := ReadArrayHeader(e, st.root, Trim(JsSubstring(line, 2, |line| - 2)));
      } else {
        r := ReadTableHeader(e, st.root, Trim(Inner(line)));
      }
    } else if Contains(line, "=") {
      var pieces := Split(line, "=");
      r := ReadKeyLine(e, st, Trim(pieces[0]), Trim(pieces[1]));
    } else {
      r := Ok(st);
    }
  }

  /** `parseToml(text)`, proved to compute `ParseTomlSpec`. */
  method ParseToml(e: Engine, text: string) returns (r: Outcome<Val>)
    ensures r == ParseTomlSpec(e, text)
  {
    var lines := Split(text, "\n");
    SpecOfRun(e, text);
    ghost var run := Run(e, lines, 0, Start);
    var st := Start;
    var i := 0;
    while i < |lines|
      invariant 0 <= i <= |lines|
      invariant Inv(st)
      invariant Run(e, lines, i, st) == run
    {
      var next := ReadLine(e, st, lines[i]);
      RunStep(e, lines, i, st);
      if next.Fail? {
        return Fail(next.why);
      }
      st := next.value;
      i := i + 1;
    }
    return Ok(st.root);
  }

  /** `ParseTomlSpec` is the main loop from the start state. */
  lemma SpecOfRun(e: Engine, text: string)
    ensures Inv(Start)
    ensures var run := Run(e, Split(text, "\n"), 0, Start);
      && (run.Fail? ==> ParseTomlSpec(e, text) == Fail(run.why))
      && (run.Ok? ==> ParseTomlSpec(e, text) == Ok(run.value.root))
  {
    assert Get(Obj([]), []) == Some(Obj([]));
    assert Keys([]) == [];
  }

  /** The main loop's first pass, and where a fault ends it. */
  lemma RunStep(e: Engine, lines: seq<string>, i: nat, st: TState)
    requires Inv(st) && i < |lines|
    ensures var next := TomlLine(e, st, lines[i]);
      && (next.Fail? ==> Run(e, lines, i, st) == Fail(next.why))
      && (next.Ok? ==> Run(e, lines, i, st) == Run(e, lines, i + 1, next.value))
  {
  }
}
