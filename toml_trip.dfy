/** The TOML writer against the TOML reader: the shapes of the text that
    `jsonToToml` writes, a flat document that comes back from `parseToml`,
    and the places where the two disagree (nested tables are written with
    bare headers and come back flattened; `null` comes back as text; an `=`
    inside a string cuts it short). */
module TomlTrip {
  import opened Text
  import opened Values
  import opened Js
  import opened TomlParse
  import opened TomlEmit
  import opened TomlLaws

  // ---- shapes of the writer's text

  /** A string is written between double quotes exactly as it is: nothing
      inside it is escaped. */
  lemma StringWrittenRaw(e: Engine, k: string, s: string)
    ensures JsonToToml(e, Obj([Entry(k, Str(s))])) == k + " = \"" + s + "\"\n"
  {
    var v := Obj([Entry(k, Str(s))]);
    assert MembersToml(e, ForIn(v), "", v) == ValueLine(e, k, Str(s)) + MembersToml(e, [], "", v);
  }

  /** A nested object is written as its header `[k]` followed by its own
      text, which is written with the prefix `''`. */
  lemma OneTable(e: Engine, k: string, inner: seq<Entry>)
    ensures JsonToToml(e, Obj([Entry(k, Obj(inner))])) == "[" + k + "]\n" + JsonToToml(e, Obj(inner))
  {
    var v := Obj([Entry(k, Obj(inner))]);
    assert !TableArray(Obj(inner));
    assert MembersToml(e, ForIn(v), "", v) == MemberToml(e, k, Obj(inner), "") + MembersToml(e, [], "", v);
  }

  /** `{a: {b: {...}}}` is written with the bare headers `[a]` and `[b]`,
      never `[a.b]`. */
  lemma NestedTablesBare(e: Engine, a: string, b: string, fs: seq<Entry>)
    ensures JsonToToml(e, Obj([Entry(a, Obj([Entry(b, Obj(fs))]))]))
      == "[" + a + "]\n" + "[" + b + "]\n" + JsonToToml(e, Obj(fs))
  {
    OneTable(e, a, [Entry(b, Obj(fs))]);
    OneTable(e, b, fs);
  }

  /** An array whose first item is an object is written as one `[[k]]`
      header per item, each followed by that item's text; the array's own
      named properties are not written (`for..of` visits the items only). */
  lemma TableArrayOfTwo(e: Engine, k: string, f1: seq<Entry>, f2: seq<Entry>, ex: seq<Entry>)
    ensures JsonToToml(e, Obj([Entry(k, Arr([Obj(f1), Obj(f2)], ex))]))
      == "[[" + k + "]]\n" + JsonToToml(e, Obj(f1)) + "[[" + k + "]]\n" + JsonToToml(e, Obj(f2))
  {
    var a := Arr([Obj(f1), Obj(f2)], ex);
    assert TableArray(a);
    OneMember(e, k, a);
    TwoTableItems(e, k, a);
  }

  /** A document of one container entry is that entry's text. */
  lemma OneMember(e: Engine, k: string, a: Val)
    requires IsContainer(a)
    ensures JsonToToml(e, Obj([Entry(k, a)])) == MemberToml(e, k, a, "")
  {
    var v := Obj([Entry(k, a)]);
    assert MembersToml(e, ForIn(v), "", v) == MemberToml(e, k, a, "") + MembersToml(e, [], "", v);
  }

  /** Two items, each after its own header. */
  lemma TwoTableItems(e: Engine, k: string, a: Val)
    requires a.Arr? && |a.items| == 2
    ensures TableItems(e, a.items, k, a)
      == "[[" + k + "]]\n" + TomlOf(e, a.items[0], "") + "[[" + k + "]]\n" + TomlOf(e, a.items[1], "")
  {
    var h := "[[" + k + "]]\n";
    var x0 := TomlOf(e, a.items[0], "");
    var x1 := TomlOf(e, a.items[1], "");
    TableItemsStep(e, a.items, k, a);
    TableItemsStep(e, a.items[1..], k, a);
    assert a.items[1..][1..] == [];
    assert TableItems(e, a.items[1..], k, a) == h + x1 + "";
    assert h + x1 + "" == h + x1;
    Regroup(h + x0, h, x1);
  }

  lemma Regroup(a: string, b: string, c: string)
    ensures a + (b + c) == a + b + c
  {
  }

  /** One pass of the `for..of` loop over the items. */
  lemma TableItemsStep(e: Engine, items: seq<Val>, k: string, parent: Val)
    requires items != [] && forall i :: 0 <= i < |items| ==> items[i] < parent
    ensures TableItems(e, items, k, parent)
      == "[[" + k + "]]\n" + TomlOf(e, items[0], "") + TableItems(e, items[1..], k, parent)
  {
  }

  /** `typeof null` is `'object'`: an array that starts with `null` is
      written as array-table headers, one per item, and a number item has
      no properties to write, so both values are lost. */
  lemma NullFirstTableArray(e: Engine, k: string, lit: string)
    ensures JsonToToml(e, Obj([Entry(k, Arr([Null, Num(lit)], []))])) == "[[" + k + "]]\n" + "[[" + k + "]]\n"
  {
    var a := Arr([Null, Num(lit)], []);
    var v := Obj([Entry(k, a)]);
    assert TableArray(a);
    assert MembersToml(e, ForIn(v), "", v) == MemberToml(e, k, a, "") + MembersToml(e, [], "", v);
    assert a.items[1..] == [Num(lit)] && a.items[1..][1..] == [];
    assert ForIn(Null) == [] && ForIn(Num(lit)) == [];
    assert TomlOf(e, Null, "") == "" && TomlOf(e, Num(lit), "") == "";
    var rest := TableItems(e, a.items[1..], k, a);
    assert rest == "[[" + k + "]]\n" + TomlOf(e, Num(lit), "") + TableItems(e, [], k, a);
    assert TableItems(e, a.items, k, a) == "[[" + k + "]]\n" + TomlOf(e, Null, "") + rest;
  }

  function Strs(ss: seq<string>): (r: seq<Val>)
    ensures |r| == |ss|
    ensures forall i :: 0 <= i < |r| ==> r[i] == Str(ss[i])
  {
    if ss == [] then [] else [Str(ss[0])] + Strs(ss[1..])
  }

  function QuotedAll(ss: seq<string>): (r: seq<string>)
    ensures |r| == |ss|
    ensures forall i :: 0 <= i < |r| ==> r[i] == "\"" + ss[i] + "\""
  {
    if ss == [] then [] else ["\"" + ss[0] + "\""] + QuotedAll(ss[1..])
  }

  /** The quoted strings print, joined, as the strings in double quotes. */
  lemma {:induction false} QuotedJoin(e: Engine, ss: seq<string>)
    ensures JoinValues(e, QuoteStrings(Strs(ss)), ", ") == Join(QuotedAll(ss), ", ")
  {
    if ss != [] {
      assert Strs(ss)[1..] == Strs(ss[1..]);
      assert QuotedAll(ss)[1..] == QuotedAll(ss[1..]);
      var q := QuoteStrings(Strs(ss));
      assert q == [Str("\"" + ss[0] + "\"")] + QuoteStrings(Strs(ss[1..]));
      assert q[1..] == QuoteStrings(Strs(ss[1..]));
      QuotedJoin(e, ss[1..]);
    }
  }

  /** An array of strings (the empty array included) is written on one
      line, `k = ["a", "b"]`, each string quoted without escaping; the
      array's named properties are not written. */
  lemma StringArrayLine(e: Engine, k: string, ss: seq<string>, ex: seq<Entry>)
    ensures JsonToToml(e, Obj([Entry(k, Arr(Strs(ss), ex))])) == k + " = [" + Join(QuotedAll(ss), ", ") + "]\n"
  {
    var a := Arr(Strs(ss), ex);
    var v := Obj([Entry(k, a)]);
    assert !TableArray(a);
    assert MembersToml(e, ForIn(v), "", v) == MemberToml(e, k, a, "") + MembersToml(e, [], "", v);
    QuotedJoin(e, ss);
  }

  // ---- an array of strings, written and read back

  /** The pieces after the first, each behind the space `join(', ')` put
      there. */
  function Spaced(xs: seq<string>): (r: seq<string>)
    ensures |r| == |xs|
    ensures forall i :: 0 <= i < |r| ==> r[i] == " " + xs[i]
  {
    if xs == [] then [] else [" " + xs[0]] + Spaced(xs[1..])
  }

  /** Gluing text onto the first piece glues it onto the join. */
  lemma JoinFirst(p: string, ys: seq<string>, sep: string)
    requires ys != []
    ensures Join([p + ys[0]] + ys[1..], sep) == p + Join(ys, sep)
  {
    var zs := [p + ys[0]] + ys[1..];
    assert zs[1..] == ys[1..];
  }

  /** Joining with `, ` is joining with `,` after a space on every piece
      but the first. */
  lemma {:induction false} CommaSpaced(xs: seq<string>)
    requires xs != []
    ensures Join(xs, ", ") == Join([xs[0]] + Spaced(xs[1..]), ",")
    decreases |xs|
  {
    if |xs| > 1 {
      var rest := xs[1..];
      CommaSpaced(rest);
      var ys := [rest[0]] + Spaced(rest[1..]);
      JoinFirst(" ", ys, ",");
      assert [" " + ys[0]] + ys[1..] == Spaced(rest);
      var zs := [xs[0]] + Spaced(rest);
      assert zs[1..] == Spaced(rest);
      calc {
        Join(xs, ", ");
        xs[0] + ", " + Join(rest, ", ");
        xs[0] + "," + (" " + Join(ys, ","));
        Join(zs, ",");
      }
    }
  }

  /** A quoted string, alone or after a space, is read by the element
      reader as the string: it is not a number, and the quotes are removed. */
  lemma QuotedPiece(e: Engine, s: string, pad: string)
    requires OpeningNotNumeric(e) && (pad == "" || pad == " ")
    ensures ArrayItem(e, pad + ("\"" + s + "\"")) == Str(s)
  {
    var q := "\"" + s + "\"";
    assert q[0] == '"' && q[|q| - 1] == '"';
    assert AllSpace(pad) && AllSpace("");
    TrimPadded(pad, q, "");
    assert pad + q + "" == pad + q;
  }

  /** The pieces of the written list read back as the strings. */
  lemma QuotedItems(e: Engine, ss: seq<string>)
    requires OpeningNotNumeric(e) && ss != []
    ensures ArrayItems(e, [QuotedAll(ss)[0]] + Spaced(QuotedAll(ss)[1..])) == Strs(ss)
  {
    var qs := QuotedAll(ss);
    var pieces := [qs[0]] + Spaced(qs[1..]);
    forall i | 0 <= i < |ss|
      ensures ArrayItems(e, pieces)[i] == Strs(ss)[i]
    {
      if i == 0 {
        QuotedPiece(e, ss[0], "");
        assert pieces[0] == "" + ("\"" + ss[0] + "\"");
      } else {
        QuotedPiece(e, ss[i], " ");
        assert pieces[i] == " " + qs[i];
      }
    }
  }

  /** A value text that is neither quoted, a number nor a boolean word, and
      is in brackets, is read as an array. */
  lemma ArrayBranch(e: Engine, t: string)
    requires !Wrapped(t, "\"") && !Wrapped(t, "'") && !e.isNumeric(t)
    requires LowerAscii(t) != "true" && LowerAscii(t) != "false"
    requires StartsWith(t, "[") && EndsWith(t, "]")
    ensures ParseValue(e, t) == Ok(ArrayValue(e, t))
  {
  }

  /** A value text in brackets is such a text. */
  lemma BracketBranch(e: Engine, t: string)
    requires OpeningNotNumeric(e) && |t| >= 2 && t[0] == '[' && t[|t| - 1] == ']'
    ensures ParseValue(e, t) == Ok(ArrayValue(e, t))
  {
    assert !e.isNumeric(t);
    assert t[..1] == "[" && t[|t| - 1..] == "]";
    assert LowerAscii(t)[0] == '[';
    ArrayBranch(e, t);
  }

  /** The bracketed list of quoted strings without a comma splits at its
      commas into the quoted strings, which read back as the strings. */
  lemma QuotedListItems(e: Engine, ss: seq<string>, t: string)
    requires OpeningNotNumeric(e) && ss != []
    requires forall i :: 0 <= i < |ss| ==> ',' !in ss[i]
    requires t == "[" + Join(QuotedAll(ss), ", ") + "]"
    ensures ArrayItems(e, Split(Inner(t), ",")) == Strs(ss)
  {
    var qs := QuotedAll(ss);
    var body := Join(qs, ", ");
    assert Inner(t) == body by {
      assert t[1..|t| - 1] == body;
    }
    CommaSpaced(qs);
    var pieces := [qs[0]] + Spaced(qs[1..]);
    forall i | 0 <= i < |pieces|
      ensures ',' !in pieces[i]
    {
      assert i == 0 ==> pieces[i] == qs[0];
      assert i > 0 ==> pieces[i] == " " + qs[i];
    }
    SplitJoin(pieces, ',');
    assert [','] == ",";
    QuotedItems(e, ss);
  }

  /** The value text `["a", "b"]` of strings without a comma reads as the
      array of those strings: it is neither quoted, a number nor a boolean,
      and each comma-separated piece is a quoted string. */
  lemma ArrayTextReads(e: Engine, ss: seq<string>)
    requires OpeningNotNumeric(e) && ss != []
    requires forall i :: 0 <= i < |ss| ==> ',' !in ss[i]
    ensures ParseValue(e, "[" + Join(QuotedAll(ss), ", ") + "]") == Ok(Arr(Strs(ss), []))
  {
    var t := "[" + Join(QuotedAll(ss), ", ") + "]";
    assert t[0] == '[' && t[|t| - 1] == ']';
    BracketBranch(e, t);
    QuotedListItems(e, ss, t);
  }

  /** The written line of such an array, `k = ["a", "b"]`, read from the
      start: it stores the array of the strings under `k`. */
  lemma ArrayLineRun(e: Engine, k: string, ss: seq<string>, line: string, w: Val)
    requires OpeningNotNumeric(e) && PlainKey(k) && ss != []
    requires forall i :: 0 <= i < |ss| ==> ',' !in ss[i] && '=' !in ss[i] && '\n' !in ss[i]
    requires line == k + " = " + ("[" + Join(QuotedAll(ss), ", ") + "]")
    requires w == Obj([Entry(k, Arr(Strs(ss), []))])
    ensures '\n' !in line
    ensures Inv(Start) && Run(e, [line, ""], 0, Start) == Ok(TState(w, At([]), None))
  {
    var t := "[" + Join(QuotedAll(ss), ", ") + "]";
    ArrayTextFree(ss, t);
    ArrayTextReads(e, ss);
    PairLineShape(k, t);
    NotContainsHead(k, ".");
    var st1 := TState(w, At([]), None);
    StartKeyLine(e, k, t, st1);
    ShapedKeyLine(e, Start, line, k, t);
    RunOne(e, line, Start, st1);
  }

  /** The list text holds no `=` and no line break, and has nothing to trim. */
  lemma ArrayTextFree(ss: seq<string>, t: string)
    requires forall i :: 0 <= i < |ss| ==> '=' !in ss[i] && '\n' !in ss[i]
    requires t == "[" + Join(QuotedAll(ss), ", ") + "]"
    ensures t != [] && IsTrimmed(t) && '=' !in t && '\n' !in t
  {
    QuotedJoinFree(ss, '=');
    QuotedJoinFree(ss, '\n');
    Bracketed(Join(QuotedAll(ss), ", "), t);
  }

  /** A character other than `"`, `,` and space that no string holds is not
      in the written list. */
  lemma {:induction false} QuotedJoinFree(ss: seq<string>, c: char)
    requires c != '"' && c != ',' && c != ' '
    requires forall i :: 0 <= i < |ss| ==> c !in ss[i]
    ensures c !in Join(QuotedAll(ss), ", ")
    decreases |ss|
  {
    if ss != [] {
      var qs := QuotedAll(ss);
      assert qs[0] == "\"" + ss[0] + "\"";
      if |ss| > 1 {
        assert qs[1..] == QuotedAll(ss[1..]);
        QuotedJoinFree(ss[1..], c);
        assert Join(qs, ", ") == qs[0] + ", " + Join(qs[1..], ", ");
      }
    }
  }

  /** Text in brackets has nothing to trim, and holds what the inside holds. */
  lemma Bracketed(body: string, t: string)
    requires t == "[" + body + "]"
    ensures t != [] && IsTrimmed(t)
    ensures '=' !in body ==> '=' !in t
    ensures '\n' !in body ==> '\n' !in t
  {
    assert t[0] == '[' && t[|t| - 1] == ']';
  }

  /** `k = t` for a plain key and a one-line value without `=` is read as the
      key line `k = t`. */
  lemma PairLineShape(k: string, t: string)
    requires PlainKey(k) && t != [] && IsTrimmed(t) && '=' !in t && '\n' !in t
    ensures KeyLineShape(k + " = " + t, k, t) && '\n' !in k + " = " + t
  {
    PairSplit(k, t);
    PairTrims(k, t);
    PairKind(k, t);
  }

  /** The text written for `{k: [..strings]}` is that one line. */
  lemma ArrayLineText(e: Engine, k: string, ss: seq<string>, ex: seq<Entry>, line: string)
    requires line == k + " = " + ("[" + Join(QuotedAll(ss), ", ") + "]") && '\n' !in line
    ensures Split(JsonToToml(e, Obj([Entry(k, Arr(Strs(ss), ex))])), "\n") == [line, ""]
  {
    StringArrayLine(e, k, ss, ex);
    assert JsonToToml(e, Obj([Entry(k, Arr(Strs(ss), ex))])) == Unlines([line]);
    SplitUnlines([line]);
  }

  /** An array of strings without a comma, an `=` or a line break is written
      as one line, which reads back as the same strings; the array's named
      properties are not written, so they are gone. (The empty array is
      written `k = []`, which reads as `[0]`; see `EmptyArrayIsZero`.) */
  lemma StringArrayRoundTrip(e: Engine, k: string, ss: seq<string>, ex: seq<Entry>)
    requires OpeningNotNumeric(e) && PlainKey(k) && OrdinaryKey(e, k) && ss != []
    requires forall i :: 0 <= i < |ss| ==> ',' !in ss[i] && '=' !in ss[i] && '\n' !in ss[i]
    ensures ParseTomlSpec(e, JsonToToml(e, Obj([Entry(k, Arr(Strs(ss), ex))])))
      == Ok(Obj([Entry(k, Arr(Strs(ss), []))]))
  {
    var line := k + " = " + ("[" + Join(QuotedAll(ss), ", ") + "]");
    var w := Obj([Entry(k, Arr(Strs(ss), []))]);
    var text := JsonToToml(e, Obj([Entry(k, Arr(Strs(ss), ex))]));
    ArrayLineRun(e, k, ss, line, w);
    ArrayLineText(e, k, ss, ex, line);
    ParseOfLines(e, text, [line, ""], TState(w, At([]), None));
  }

  // ---- reading the writer's text back

  /** A key the reader takes back as written after a table's text: not
      empty, no surrounding white space, no `=`, `.` or line break, and not
      starting like a header or a comment. */
  predicate PlainKey(k: string)
  {
    k != [] && IsTrimmed(k) && '=' !in k && '.' !in k && '\n' !in k && k[0] != '[' && k[0] != '#'
  }

  /** A value written on one `key = value` line that the reader reads as one
      value: `null`, a boolean, or a string without `=` or a line break. */
  predicate FlatValue(v: Val)
  {
    v.Null? || v.Bool? || (v.Str? && '=' !in v.s && '\n' !in v.s)
  }

  predicate FlatEntry(x: Entry)
  {
    PlainKey(x.key) && FlatValue(x.val)
  }

  predicate FlatDoc(fs: seq<Entry>)
  {
    NoDup(Keys(fs)) && forall i :: 0 <= i < |fs| ==> FlatEntry(fs[i])
  }

  /** What the reader makes of a flat value's text: `null` is written as
      the word `null`, which reads as a string; the rest come back as they were. */
  function Reread(v: Val): Val
  {
    if v.Null? then Str("null") else v
  }

  function RereadAll(fs: seq<Entry>): (r: seq<Entry>)
    ensures |r| == |fs|
    ensures forall i :: 0 <= i < |r| ==> r[i] == Entry(fs[i].key, Reread(fs[i].val))
  {
    if fs == [] then [] else [Entry(fs[0].key, Reread(fs[0].val))] + RereadAll(fs[1..])
  }

  /** The line the writer produces for one flat entry, without its line break. */
  function FlatLine(e: Engine, x: Entry): string
  {
    x.key + " = " + Formatted(e, x.val)
  }

  function FlatLines(e: Engine, fs: seq<Entry>): (r: seq<string>)
    ensures |r| == |fs|
    ensures forall i :: 0 <= i < |fs| ==> r[i] == FlatLine(e, fs[i])
  {
    if fs == [] then [] else [FlatLine(e, fs[0])] + FlatLines(e, fs[1..])
  }

  /** The writer's text of entries that hold no object or array is their
      lines, each ended by a line break. */
  lemma {:induction false} FlatText(e: Engine, fs: seq<Entry>, parent: Val)
    requires forall i :: 0 <= i < |fs| ==> !IsContainer(fs[i].val)
    ensures MembersToml(e, fs, "", parent) == Unlines(FlatLines(e, fs))
  {
    if fs != [] {
      FlatText(e, fs[1..], parent);
      assert FlatLines(e, fs)[1..] == FlatLines(e, fs[1..]);
      assert ValueLine(e, fs[0].key, fs[0].val) == FlatLine(e, fs[0]) + "\n";
    }
  }

  /** A string's text is itself between double quotes, which the reader
      strips again. */
  lemma StrText(e: Engine, s: string)
    requires '=' !in s && '\n' !in s
    ensures var t := Formatted(e, Str(s));
      t != [] && IsTrimmed(t) && '=' !in t && '\n' !in t && ParseValue(e, t) == Ok(Str(s))
  {
    var t := Formatted(e, Str(s));
    assert t == "\"" + (s + "\"");
    assert t[..1] == "\"" && t[|t| - 1..] == "\"";
    assert Wrapped(t, "\"");
    assert Inner(t) == s;
  }

  lemma LowerWords()
    ensures LowerAscii("true") == "true" && LowerAscii("false") == "false" && LowerAscii("null") == "null"
  {
    assert LowerAscii("true") == ['t'] + LowerAscii("rue");
    assert LowerAscii("false") == ['f'] + LowerAscii("alse");
    assert LowerAscii("null") == ['n'] + LowerAscii("ull");
  }

  /** A boolean word that is not a number reads as that boolean. */
  lemma BoolWord(e: Engine, t: string)
    requires t == "true" || t == "false"
    requires !e.isNumeric(t) && LowerAscii(t) == t && !StartsWith(t, "\"") && !StartsWith(t, "'")
    ensures ParseValue(e, t) == Ok(Bool(t == "true"))
  {
  }

  /** The word `null`, not being a number, reads as the text itself. */
  lemma NullWord(e: Engine, t: string)
    requires t == "null" && !e.isNumeric(t) && LowerAscii(t) == t && t[..1] == "n"
    ensures ParseValue(e, t) == Ok(Str(t))
  {
  }

  /** The words `true`, `false` and `null` have nothing to trim and hold
      neither `=` nor a line break. */
  lemma WordShape(t: string)
    requires t == "true" || t == "false" || t == "null"
    ensures t != [] && IsTrimmed(t) && '=' !in t && '\n' !in t
  {
  }

  /** A boolean's text is the word `true` or `false`, which reads back as it. */
  lemma BoolText(e: Engine, b: bool)
    requires NumberFacts(e)
    ensures var t := Formatted(e, Bool(b));
      t != [] && IsTrimmed(t) && '=' !in t && '\n' !in t && ParseValue(e, t) == Ok(Bool(b))
  {
    var t := Formatted(e, Bool(b));
    assert t == if b then "true" else "false";
    WordShape(t);
    LowerWords();
    assert t[..1] == [t[0]];
    BoolWord(e, t);
  }

  /** `null`'s text is the word `null`: not a number, a boolean, an array or
      a table, so it reads back as that text. */
  lemma NullText(e: Engine)
    requires NumberFacts(e)
    ensures var t := Formatted(e, Null);
      t != [] && IsTrimmed(t) && '=' !in t && '\n' !in t && ParseValue(e, t) == Ok(Str("null"))
  {
    var t := Formatted(e, Null);
    assert t == "null";
    WordShape(t);
    LowerWords();
    assert t[..1] == "n";
    NullWord(e, t);
  }

  lemma FlatValueText(e: Engine, v: Val)
    requires NumberFacts(e) && FlatValue(v)
    ensures var t := Formatted(e, v);
      t != [] && IsTrimmed(t) && '=' !in t && '\n' !in t && ParseValue(e, t) == Ok(Reread(v))
  {
    match v
    case Str(s) => StrText(e, s);
    case Bool(b) => BoolText(e, b);
    case Null => NullText(e);
  }

  /** `key = text` splits at its one `=` into the padded key and the padded text. */
  lemma PairSplit(k: string, t: string)
    requires '=' !in k && '=' !in t
    ensures Split(k + " = " + t, "=") == [k + " ", " " + t]
  {
    assert k + " = " + t == (k + " ") + "=" + (" " + t);
    assert "="[0] == '=' && '=' !in k + " ";
    SplitFirst(k + " ", "=", " " + t);
    assert '=' !in " " + t;
    NotContainsHead(" " + t, "=");
    SplitNone(" " + t, "=");
  }

  /** `key = text` has nothing to trim, and trimming its two halves gives
      the key and the text back. */
  lemma PairTrims(k: string, t: string)
    requires PlainKey(k) && t != [] && IsTrimmed(t)
    ensures Trim(k + " = " + t) == k + " = " + t
    ensures Trim(k + " ") == k && Trim(" " + t) == t
  {
    var line := k + " = " + t;
    ConcatTrimmed(k, " = " + t);
    assert line == k + (" = " + t);
    TrimOfTrimmed(line);
    assert AllSpace(" ") && AllSpace("");
    TrimPadded("", k, " ");
    assert "" + k + " " == k + " ";
    TrimPadded(" ", t, "");
    assert " " + t + "" == " " + t;
  }

  /** A flat line is neither blank, a comment nor a header, and holds no line break. */
  lemma PairKind(k: string, t: string)
    requires PlainKey(k) && '\n' !in t
    ensures var line := k + " = " + t;
      line != "" && !StartsWith(line, "#") && !StartsWith(line, "[") && '\n' !in line
  {
    var line := k + " = " + t;
    assert line[..1] == [k[0]];
    assert line == k + (" = " + t);
  }

  /** A line that is already trimmed, neither blank, a comment nor a header,
      and holds `=`, is a key line with the trimmed halves around its first `=`. */
  lemma KeyLineOf(e: Engine, st: TState, line: string)
    requires Inv(st)
    requires Trim(line) == line && line != "" && !StartsWith(line, "#") && !StartsWith(line, "[")
    requires Contains(line, "=")
    ensures TomlLine(e, st, line) == KeyLine(e, st, Trim(Split(line, "=")[0]), Trim(Split(line, "=")[1]))
  {
  }

  /** Reading a flat line stores the entry's reread value in the current
      table, and moves nothing. */
  lemma EntryLine(e: Engine, st: TState, x: Entry)
    requires NumberFacts(e) && Inv(st) && st.current.At? && FlatEntry(x)
    requires Get(st.root, st.current.path).value.Obj?
    ensures var p := st.current.path;
      var r := TomlLine(e, st, FlatLine(e, x));
      && r.Ok? && r.value.current == st.current && r.value.arrayTable == st.arrayTable
      && r.value.root == SetAt(st.root, p, SetProp(Get(st.root, p).value, x.key, Reread(x.val)))
  {
    var k := x.key;
    var t := Formatted(e, x.val);
    var line := FlatLine(e, x);
    assert line == k + " = " + t;
    FlatValueText(e, x.val);
    PairSplit(k, t);
    PairTrims(k, t);
    PairKind(k, t);
    KeyLineOf(e, st, line);
    NotContainsHead(k, ".");
    PlainKeyLine(e, st, k, t);
  }

  /** The reader's state at the top level with the entries `acc` read so far. */
  function Top(acc: seq<Entry>): TState
  {
    TState(Obj(acc), At([]), None)
  }

  /** The keys of the first `j` reread entries are the document's first `j` keys. */
  lemma PrefixNoDup(fs: seq<Entry>, j: nat)
    requires FlatDoc(fs) && j <= |fs|
    ensures NoDup(Keys(RereadAll(fs)[..j]))
  {
    var p := RereadAll(fs)[..j];
    var ks := Keys(fs);
    forall a, b | 0 <= a < b < |p| ensures Keys(p)[a] != Keys(p)[b] {
      assert Keys(p)[a] == p[a].key == ks[a];
      assert Keys(p)[b] == p[b].key == ks[b];
    }
  }

  /** The first `j` reread entries hold no containers. */
  lemma PrefixPrimitive(fs: seq<Entry>, j: nat)
    requires FlatDoc(fs) && j <= |fs|
    ensures forall a :: 0 <= a < j ==> WellFormed(RereadAll(fs)[..j][a].val)
  {
    var p := RereadAll(fs)[..j];
    forall a | 0 <= a < |p| ensures WellFormed(p[a].val) {
      assert !IsContainer(p[a].val) by {
        assert FlatEntry(fs[a]);
      }
    }
  }

  /** The first `j` reread entries of a flat document, read so far, satisfy the invariant. */
  lemma FlatPrefixInv(fs: seq<Entry>, j: nat)
    requires FlatDoc(fs) && j <= |fs|
    ensures Inv(Top(RereadAll(fs)[..j]))
  {
    var p := RereadAll(fs)[..j];
    PrefixNoDup(fs, j);
    PrefixPrimitive(fs, j);
    assert WellFormed(Obj(p));
    assert Get(Obj(p), []) == Some(Obj(p));
  }

  /** Entry `j` of a flat document is not among the ones before it. */
  lemma FlatKeyNew(fs: seq<Entry>, j: nat)
    requires FlatDoc(fs) && j < |fs|
    ensures fs[j].key !in Keys(RereadAll(fs)[..j])
  {
    var p := RereadAll(fs)[..j];
    forall a | 0 <= a < j ensures Keys(p)[a] != fs[j].key {
      assert Keys(p)[a] == Keys(fs)[a];
      assert Keys(fs)[j] == fs[j].key;
    }
  }

  /** The line of entry `j` appends that entry, reread, to what was read before it. */
  lemma FlatLineStep(e: Engine, fs: seq<Entry>, j: nat)
    requires NumberFacts(e) && FlatDoc(fs) && j < |fs|
    ensures Inv(Top(RereadAll(fs)[..j]))
    ensures TomlLine(e, Top(RereadAll(fs)[..j]), FlatLine(e, fs[j])) == Ok(Top(RereadAll(fs)[..j + 1]))
  {
    var r := RereadAll(fs);
    var acc := r[..j];
    FlatPrefixInv(fs, j);
    assert FlatEntry(fs[j]);
    EntryLine(e, Top(acc), fs[j]);
    assert Get(Obj(acc), []) == Some(Obj(acc));
    FlatKeyNew(fs, j);
    PutNew(acc, fs[j].key, Reread(fs[j].val));
    TakeNext(r, j);
  }

  /** Reading the remaining lines of a flat document from its first `j` entries. */
  lemma {:induction false} RunFlat(e: Engine, fs: seq<Entry>, lines: seq<string>, j: nat)
    requires NumberFacts(e) && FlatDoc(fs) && j <= |fs|
    requires lines == FlatLines(e, fs) + [""]
    ensures Inv(Top(RereadAll(fs)[..j]))
    ensures Run(e, lines, j, Top(RereadAll(fs)[..j])) == Ok(Top(RereadAll(fs)))
    decreases |fs| - j
  {
    FlatPrefixInv(fs, j);
    var st := Top(RereadAll(fs)[..j]);
    if j == |fs| {
      TakeAll(RereadAll(fs));
      TrimOfTrimmed("");
      assert lines[j] == "";
      assert Run(e, lines, j + 1, st) == Ok(st);
    } else {
      FlatLineStep(e, fs, j);
      assert lines[j] == FlatLine(e, fs[j]);
      RunFlat(e, fs, lines, j + 1);
    }
  }

  /** The writer's text of an object that holds no object or array. */
  lemma FlatJson(e: Engine, fs: seq<Entry>)
    requires forall i :: 0 <= i < |fs| ==> !IsContainer(fs[i].val)
    ensures JsonToToml(e, Obj(fs)) == Unlines(FlatLines(e, fs))
  {
    FlatText(e, fs, Obj(fs));
  }

  /** Split at line breaks, the writer's text of a flat document is its
      lines and a last empty piece. */
  lemma FlatSplit(e: Engine, fs: seq<Entry>)
    requires NumberFacts(e) && FlatDoc(fs)
    ensures Split(JsonToToml(e, Obj(fs)), "\n") == FlatLines(e, fs) + [""]
  {
    var ls := FlatLines(e, fs);
    forall i | 0 <= i < |fs| ensures !IsContainer(fs[i].val) {
      assert FlatEntry(fs[i]);
    }
    FlatJson(e, fs);
    forall i | 0 <= i < |ls| ensures '\n' !in ls[i] {
      assert FlatEntry(fs[i]);
      FlatValueText(e, fs[i].val);
      PairKind(fs[i].key, Formatted(e, fs[i].val));
    }
    SplitUnlines(ls);
  }

  /** Without a `null`, rereading changes nothing. */
  lemma RereadNoNull(fs: seq<Entry>)
    requires forall i :: 0 <= i < |fs| ==> !fs[i].val.Null?
    ensures RereadAll(fs) == fs
  {
  }

  /** A flat document (plain, ordinary keys; `null`, boolean and string
      values without `=` or line breaks) written as TOML and read again comes
      back with every `null` turned into the string `"null"`, and otherwise
      unchanged. */
  lemma FlatRoundTrip(e: Engine, fs: seq<Entry>)
    requires NumberFacts(e) && FlatDoc(fs)
    requires forall i :: 0 <= i < |fs| ==> OrdinaryKey(e, fs[i].key)
    ensures ParseTomlSpec(e, JsonToToml(e, Obj(fs))) == Ok(Obj(RereadAll(fs)))
    ensures (forall i :: 0 <= i < |fs| ==> !fs[i].val.Null?) ==> ParseTomlSpec(e, JsonToToml(e, Obj(fs))) == Ok(Obj(fs))
  {
    FlatSplit(e, fs);
    RunFlat(e, fs, FlatLines(e, fs) + [""], 0);
    assert RereadAll(fs)[..0] == [];
    assert Top([]) == Start;
    if forall i :: 0 <= i < |fs| ==> !fs[i].val.Null? {
      RereadNoNull(fs);
    }
  }

  // ---- where the two disagree

  lemma RunOk(e: Engine, lines: seq<string>, j: nat, st: TState, st': TState)
    requires Inv(st) && j < |lines| && TomlLine(e, st, lines[j]) == Ok(st')
    ensures Inv(st') && Run(e, lines, j, st) == Run(e, lines, j + 1, st')
  {
  }

  /** A blank last line ends the reading with the state unchanged. */
  lemma RunBlankLast(e: Engine, lines: seq<string>, j: nat, st: TState)
    requires Inv(st) && j + 1 == |lines| && lines[j] == ""
    ensures Run(e, lines, j, st) == Ok(st)
  {
    TrimOfTrimmed("");
    assert Run(e, lines, j + 1, st) == Ok(st);
  }

  /** The header line `[k]` names the table `k`: its name splits into `[k]`. */
  predicate HeaderShape(line: string, k: string)
  {
    && StartsWith(Trim(line), "[") && !StartsWith(Trim(line), "[[")
    && Trim(Inner(Trim(line))) == k && Split(k, ".") == [k]
  }

  lemma HeaderText(k: string)
    requires PlainKey(k)
    ensures HeaderShape("[" + k + "]", k)
  {
    var line := "[" + k + "]";
    assert line[..1] == "[" && line[..2] == ['[', k[0]];
    assert line[|line| - 1] == ']';
    assert Inner(line) == k;
    TrimOfTrimmed(k);
    NotContainsHead(k, ".");
    SplitNone(k, ".");
    assert StartsWith(line, "[") && !StartsWith(line, "[[") && Trim(Inner(line)) == k;
    TrimOfTrimmed(line);
  }

  /** `[k]` for a name the result does not hold, wherever the current table
      is: `k = {}` is added to the result itself, and it becomes the current table. */
  lemma HeaderLine(e: Engine, st: TState, line: string, k: string, st': TState)
    requires Inv(st) && HeaderShape(line, k) && k !in Keys(st.root.fields)
    requires st' == TState(Obj(st.root.fields + [Entry(k, Obj([]))]), At([K(k)]), None)
    ensures TomlLine(e, st, line) == Ok(st')
  {
    assert [k][0] == k && [k][1..] == [];
    assert Lookup(st.root.fields, k).None?;
    FreshTableHeader(e, st, line);
    assert Steps([k]) == [K(k)];
    PutNew(st.root.fields, k, Obj([]));
  }

  lemma Unlines3(p: string, q: string, r: string)
    ensures Unlines([p, q, r]) == p + "\n" + (q + "\n" + (r + "\n"))
  {
    var ls := [p, q, r];
    assert ls[1..] == [q, r] && ls[1..][1..] == [r] && ls[1..][1..][1..] == [];
    assert Unlines([r]) == r + "\n" + "";
    assert Unlines([q, r]) == q + "\n" + Unlines([r]);
  }

  /** The text of `{a: {b: {c: x}}}` is the lines `[a]`, `[b]` and the line of `c`. */
  lemma NestedJson(e: Engine, a: string, b: string, x: Entry, v: Val)
    requires FlatEntry(x)
    requires v == Obj([Entry(a, Obj([Entry(b, Obj([x]))]))])
    ensures JsonToToml(e, v) == Unlines(["[" + a + "]", "[" + b + "]", FlatLine(e, x)])
  {
    var ls := ["[" + a + "]", "[" + b + "]", FlatLine(e, x)];
    var t1 := JsonToToml(e, Obj([x]));
    assert !IsContainer([x][0].val);
    FlatJson(e, [x]);
    assert FlatLines(e, [x]) == [FlatLine(e, x)];
    assert Unlines([FlatLine(e, x)]) == FlatLine(e, x) + "\n" + "";
    assert t1 == ls[2] + "\n";
    NestedTablesBare(e, a, b, [x]);
    assert "[" + a + "]\n" == ls[0] + "\n" && "[" + b + "]\n" == ls[1] + "\n";
    Unlines3(ls[0], ls[1], ls[2]);
  }

  /** Split at line breaks, that text is those three lines and a last empty piece. */
  lemma NestedText(e: Engine, a: string, b: string, x: Entry)
    requires NumberFacts(e) && PlainKey(a) && PlainKey(b) && FlatEntry(x)
    ensures Split(Unlines(["[" + a + "]", "[" + b + "]", FlatLine(e, x)]), "\n")
      == ["[" + a + "]", "[" + b + "]", FlatLine(e, x), ""]
  {
    FlatValueText(e, x.val);
    PairKind(x.key, Formatted(e, x.val));
    assert '\n' !in "[" + a + "]" && '\n' !in "[" + b + "]";
    SplitThree("[" + a + "]", "[" + b + "]", FlatLine(e, x));
  }

  lemma SplitThree(p: string, q: string, r: string)
    requires '\n' !in p && '\n' !in q && '\n' !in r
    ensures Split(Unlines([p, q, r]), "\n") == [p, q, r, ""]
  {
    var ls := [p, q, r];
    assert forall i :: 0 <= i < |ls| ==> '\n' !in ls[i];
    SplitUnlines(ls);
    assert ls + [""] == [p, q, r, ""];
  }

  /** The first header of the nested text adds `a = {}`. */
  lemma NestFirst(e: Engine, a: string, st: TState, st': TState)
    requires PlainKey(a) && st == Start
    requires st' == TState(Obj([Entry(a, Obj([]))]), At([K(a)]), None)
    ensures Inv(st) && TomlLine(e, st, "[" + a + "]") == Ok(st')
  {
    StartFacts(Entry(a, Obj([])));
    HeaderText(a);
    HeaderLine(e, st, "[" + a + "]", a, st');
  }

  /** The state after the first header. */
  lemma NestSecondState(a: string, b: string, st: TState, st': TState)
    requires a != b
    requires st == TState(Obj([Entry(a, Obj([]))]), At([K(a)]), None)
    requires st' == TState(Obj([Entry(a, Obj([])), Entry(b, Obj([]))]), At([K(b)]), None)
    ensures Inv(st) && b !in Keys(st.root.fields)
    ensures st' == TState(Obj(st.root.fields + [Entry(b, Obj([]))]), At([K(b)]), None)
  {
    assert Keys(st.root.fields) == [a];
    assert Keys([]) == [];
    assert WellFormed(st.root);
    assert Get(st.root, [K(a)]) == Some(Obj([]));
    assert st.root.fields + [Entry(b, Obj([]))] == st'.root.fields;
  }

  /** The second header is looked up from the result, not from `a`. */
  lemma NestSecond(e: Engine, a: string, b: string, st: TState, st': TState)
    requires PlainKey(a) && PlainKey(b) && a != b
    requires st == TState(Obj([Entry(a, Obj([]))]), At([K(a)]), None)
    requires st' == TState(Obj([Entry(a, Obj([])), Entry(b, Obj([]))]), At([K(b)]), None)
    ensures Inv(st) && TomlLine(e, st, "[" + b + "]") == Ok(st')
  {
    NestSecondState(a, b, st, st');
    HeaderText(b);
    HeaderLine(e, st, "[" + b + "]", b, st');
  }

  /** The state after both headers, and what storing into `b` makes of it. */
  lemma NestThirdState(a: string, b: string, k: string, v: Val, st: TState, root': Val)
    requires a != b
    requires st == TState(Obj([Entry(a, Obj([])), Entry(b, Obj([]))]), At([K(b)]), None)
    requires root' == Obj([Entry(a, Obj([])), Entry(b, Obj([Entry(k, v)]))])
    ensures Inv(st) && st.current.At? && Get(st.root, st.current.path) == Some(Obj([]))
    ensures SetAt(st.root, st.current.path, SetProp(Obj([]), k, v)) == root'
  {
    BothTables(a, b, st.root.fields);
    PutEmpty(k, v);
    StoreSecond(a, b, st.root.fields, Obj([Entry(k, v)]));
  }

  /** Replacing the table `b` of `{a: {}, b: {}}`. */
  lemma StoreSecond(a: string, b: string, fs: seq<Entry>, c: Val)
    requires a != b && fs == [Entry(a, Obj([])), Entry(b, Obj([]))]
    ensures SetAt(Obj(fs), [K(b)], c) == Obj([Entry(a, Obj([])), Entry(b, c)])
  {
    assert Keys(fs) == [a, b];
    assert Keys(fs)[1..] == [b];
    assert KeyIndex(Keys(fs), b) == Some(1);
    assert Put(fs, b, c) == fs[1 := Entry(b, c)];
    assert Lookup(fs, b) == Some(Obj([]));
    assert [K(b)][1..] == [];
  }

  lemma BothTables(a: string, b: string, fs: seq<Entry>)
    requires a != b && fs == [Entry(a, Obj([])), Entry(b, Obj([]))]
    ensures WellFormed(Obj(fs)) && Reaches(Obj(fs), [K(b)]) && Get(Obj(fs), [K(b)]) == Some(Obj([]))
  {
    assert Keys(fs) == [a, b];
    assert Lookup(fs, b) == Some(Obj([]));
  }

  /** The key line lands in the table `b` beside `a`. */
  lemma NestThird(e: Engine, a: string, b: string, x: Entry, st: TState, st': TState)
    requires NumberFacts(e) && a != b && FlatEntry(x)
    requires st == TState(Obj([Entry(a, Obj([])), Entry(b, Obj([]))]), At([K(b)]), None)
    requires st' == TState(Obj([Entry(a, Obj([])), Entry(b, Obj([Entry(x.key, Reread(x.val))]))]), At([K(b)]), None)
    ensures Inv(st) && TomlLine(e, st, FlatLine(e, x)) == Ok(st')
  {
    NestThirdState(a, b, x.key, Reread(x.val), st, st'.root);
    EntryLine(e, st, x);
  }

  /** Three lines, each read without a throw, and a blank last piece. */
  lemma RunThree(e: Engine, l0: string, l1: string, l2: string, lines: seq<string>, s0: TState, s1: TState, s2: TState, s3: TState)
    requires lines == [l0, l1, l2, ""]
    requires Inv(s0) && TomlLine(e, s0, l0) == Ok(s1)
    requires Inv(s1) && TomlLine(e, s1, l1) == Ok(s2)
    requires Inv(s2) && TomlLine(e, s2, l2) == Ok(s3)
    ensures Run(e, lines, 0, s0) == Ok(s3)
  {
    assert lines[0] == l0 && lines[1] == l1 && lines[2] == l2 && lines[3] == "";
    RunOk(e, lines, 0, s0, s1);
    RunFromSecond(e, lines, s1, s2, s3);
  }

  /** The last two of those lines and the blank piece. */
  lemma RunFromSecond(e: Engine, lines: seq<string>, s1: TState, s2: TState, s3: TState)
    requires |lines| == 4 && lines[3] == ""
    requires Inv(s1) && TomlLine(e, s1, lines[1]) == Ok(s2)
    requires Inv(s2) && TomlLine(e, s2, lines[2]) == Ok(s3)
    ensures Run(e, lines, 1, s1) == Ok(s3)
  {
    RunOk(e, lines, 1, s1, s2);
    RunFromThird(e, lines, s2, s3);
  }

  /** The last of those lines and the blank piece. */
  lemma RunFromThird(e: Engine, lines: seq<string>, s2: TState, s3: TState)
    requires |lines| == 4 && lines[3] == ""
    requires Inv(s2) && TomlLine(e, s2, lines[2]) == Ok(s3)
    ensures Run(e, lines, 2, s2) == Ok(s3)
  {
    RunOk(e, lines, 2, s2, s3);
    RunBlankLast(e, lines, 3, s3);
  }

  lemma Flattens(e: Engine, a: string, b: string, x: Entry, v: Val, w: Val)
    requires NumberFacts(e) && PlainKey(a) && PlainKey(b) && a != b && FlatEntry(x)
    requires v == Obj([Entry(a, Obj([Entry(b, Obj([x]))]))])
    requires w == Obj([Entry(a, Obj([])), Entry(b, Obj([Entry(x.key, Reread(x.val))]))])
    ensures ParseTomlSpec(e, JsonToToml(e, v)) == Ok(w)
  {
    var lines := ["[" + a + "]", "[" + b + "]", FlatLine(e, x), ""];
    var text := JsonToToml(e, v);
    NestedJson(e, a, b, x, v);
    NestedText(e, a, b, x);
    NestRun(e, a, b, x, lines, w);
    ParseOfLines(e, text, lines, TState(w, At([K(b)]), None));
  }

  /** The three lines of that text, read one after the other. */
  lemma NestRun(e: Engine, a: string, b: string, x: Entry, lines: seq<string>, w: Val)
    requires NumberFacts(e) && PlainKey(a) && PlainKey(b) && a != b && FlatEntry(x)
    requires lines == ["[" + a + "]", "[" + b + "]", FlatLine(e, x), ""]
    requires w == Obj([Entry(a, Obj([])), Entry(b, Obj([Entry(x.key, Reread(x.val))]))])
    ensures Run(e, lines, 0, Start) == Ok(TState(w, At([K(b)]), None))
  {
    var st1 := TState(Obj([Entry(a, Obj([]))]), At([K(a)]), None);
    var st2 := TState(Obj([Entry(a, Obj([])), Entry(b, Obj([]))]), At([K(b)]), None);
    var st3 := TState(w, At([K(b)]), None);
    NestFirst(e, a, Start, st1);
    NestSecond(e, a, b, st1, st2);
    NestThird(e, a, b, x, st2, st3);
    RunThree(e, "[" + a + "]", "[" + b + "]", FlatLine(e, x), lines, Start, st1, st2, st3);
  }

  /** The parse of a text whose lines run without a throw to `st`. */
  lemma ParseOfLines(e: Engine, text: string, lines: seq<string>, st: TState)
    requires Split(text, "\n") == lines && Run(e, lines, 0, Start) == Ok(st)
    ensures ParseTomlSpec(e, text) == Ok(st.root)
  {
  }

  /** Writing `{a: {b: {c: x}}}` and reading it back flattens it: the bare
      header `[b]` is looked up from the result, so `b` comes back beside
      `a`, and `a` is left empty. */
  lemma NestingFlattens(e: Engine, a: string, b: string, x: Entry)
    requires NumberFacts(e) && PlainKey(a) && PlainKey(b) && a != b && FlatEntry(x)
    requires OrdinaryKey(e, a) && OrdinaryKey(e, b) && OrdinaryKey(e, x.key)
    ensures ParseTomlSpec(e, JsonToToml(e, Obj([Entry(a, Obj([Entry(b, Obj([x]))]))])))
      == Ok(Obj([Entry(a, Obj([])), Entry(b, Obj([Entry(x.key, Reread(x.val))]))]))
  {
    Flattens(e, a, b, x, Obj([Entry(a, Obj([Entry(b, Obj([x]))]))]),
      Obj([Entry(a, Obj([])), Entry(b, Obj([Entry(x.key, Reread(x.val))]))]));
  }

  /** Splitting at the first `=`, found at index `i`. */
  lemma SplitAt(s: string, i: nat)
    requires i < |s| && s[i] == '=' && '=' !in s[..i]
    ensures Split(s, "=") == [s[..i]] + Split(s[i + 1..], "=")
  {
    assert s == s[..i] + "=" + s[i + 1..];
    assert "="[0] == '=';
    SplitFirst(s[..i], "=", s[i + 1..]);
  }

  /** The line of `{k: s1 + "=" + s2}` splits at the `=` inside the
      string too, so only its part before that `=` is taken as the value. */
  lemma CutSplit(k: string, s1: string, s2: string)
    requires '=' !in k && '=' !in s1
    ensures var pieces := Split(k + " = " + ("\"" + (s1 + "=" + s2) + "\""), "=");
      |pieces| >= 2 && pieces[0] == k + " " && pieces[1] == " " + ("\"" + s1)
  {
    var t := "\"" + (s1 + "=" + s2) + "\"";
    KeyCut(k, t);
    ValueCut(s1, s2, t);
  }

  /** A `key = ...` line with no `=` in the key splits first after `key `. */
  lemma KeyCut(k: string, t: string)
    requires '=' !in k
    ensures Split(k + " = " + t, "=") == [k + " "] + Split(" " + t, "=")
  {
    var line := k + " = " + t;
    var i := |k| + 1;
    assert line[..i] == k + " ";
    SplitAt(line, i);
    assert line[i + 1..] == " " + t;
  }

  /** The quoted text `"s1=s2"` splits first after `"s1`. */
  lemma ValueCut(s1: string, s2: string, t: string)
    requires '=' !in s1 && t == "\"" + (s1 + "=" + s2) + "\""
    ensures var pieces := Split(" " + t, "=");
      |pieces| >= 1 && pieces[0] == " " + ("\"" + s1)
  {
    var rest := " " + t;
    var j := |s1| + 2;
    assert rest[j] == '=';
    assert rest[..j] == " " + ("\"" + s1);
    SplitAt(rest, j);
  }

  /** A trimmed line the reader takes for `k = t`. */
  predicate KeyLineShape(line: string, k: string, t: string)
  {
    && Trim(line) == line && line != "" && !StartsWith(line, "#") && !StartsWith(line, "[")
    && Contains(line, "=") && |Split(line, "=")| >= 2
    && Trim(Split(line, "=")[0]) == k && Trim(Split(line, "=")[1]) == t
  }

  lemma CutLineFacts(k: string, s1: string, s2: string)
    requires PlainKey(k) && '=' !in s1 && IsTrimmed(s1) && '\n' !in s1 + "=" + s2
    ensures KeyLineShape(k + " = " + ("\"" + (s1 + "=" + s2) + "\""), k, "\"" + s1)
  {
    var t := "\"" + (s1 + "=" + s2) + "\"";
    assert t[0] == '"' && t[|t| - 1] == '"' && '\n' !in t;
    PairTrims(k, t);
    PairKind(k, t);
    CutPieces(k, s1, s2);
  }

  /** The two pieces of that line trim to the key and to `"s1`. */
  lemma CutPieces(k: string, s1: string, s2: string)
    requires PlainKey(k) && '=' !in s1 && IsTrimmed(s1)
    ensures var pieces := Split(k + " = " + ("\"" + (s1 + "=" + s2) + "\""), "=");
      |pieces| >= 2 && Trim(pieces[0]) == k && Trim(pieces[1]) == "\"" + s1
  {
    CutSplit(k, s1, s2);
    OpenQuoteTrimmed(s1);
    PaddedTrims(k, "\"" + s1);
  }

  lemma OpenQuoteTrimmed(s1: string)
    requires IsTrimmed(s1)
    ensures IsTrimmed("\"" + s1) && "\"" + s1 != []
  {
    var q := "\"" + s1;
    assert q[0] == '"' && (s1 != [] ==> q[|q| - 1] == s1[|s1| - 1]);
  }

  /** A key with a space after it, and a value with a space before it,
      trim to themselves. */
  lemma PaddedTrims(k: string, q: string)
    requires k != [] && IsTrimmed(k) && q != [] && IsTrimmed(q)
    ensures Trim(k + " ") == k && Trim(" " + q) == q
  {
    assert AllSpace(" ") && AllSpace("");
    TrimPadded("", k, " ");
    assert "" + k + " " == k + " ";
    TrimPadded(" ", q, "");
    assert " " + q + "" == " " + q;
  }

  /** What the cut-short text reads as: it holds no `=`, so it is not the
      original string. It does not start with `{`, so reading it does not throw. */
  lemma CutValue(e: Engine, s1: string, s2: string)
    requires '=' !in s1
    ensures ParseValue(e, "\"" + s1).Ok? && ParseValue(e, "\"" + s1).value != Str(s1 + "=" + s2)
  {
    var v := "\"" + s1;
    assert '=' !in v;
    assert v[..1] == "\"";
    assert '=' in s1 + "=" + s2 by {
      assert (s1 + "=" + s2)[|s1|] == '=';
    }
    if Wrapped(v, "\"") || Wrapped(v, "'") {
      var r := Inner(v);
      assert forall i :: 0 <= i < |r| ==> r[i] in v;
      assert '=' !in r;
    }
  }

  /** The text of `{k: s}` for a string without a line break is its one line. */
  lemma OneLineText(e: Engine, k: string, s: string, v: Val)
    requires PlainKey(k) && '\n' !in s && v == Obj([Entry(k, Str(s))])
    ensures Split(JsonToToml(e, v), "\n") == [k + " = " + ("\"" + s + "\""), ""]
  {
    var line := k + " = " + ("\"" + s + "\"");
    assert !IsContainer([Entry(k, Str(s))][0].val);
    FlatJson(e, [Entry(k, Str(s))]);
    assert FlatLines(e, [Entry(k, Str(s))]) == [line];
    PairKind(k, "\"" + s + "\"");
    SplitUnlines([line]);
  }

  /** A line of that shape is read as the key line `k = t`. */
  lemma ShapedKeyLine(e: Engine, st: TState, line: string, k: string, t: string)
    requires Inv(st) && KeyLineShape(line, k, t)
    ensures TomlLine(e, st, line) == KeyLine(e, st, k, t)
  {
    KeyLineOf(e, st, line);
  }

  /** A key line at the top level with an undotted key the result does not
      hold appends the key and the value's reading. */
  lemma TopKeyLine(e: Engine, st: TState, k: string, t: string, st': TState)
    requires Inv(st) && st.current == At([]) && k !in Keys(st.root.fields)
    requires !Contains(k, ".") && ParseValue(e, t).Ok?
    requires st' == TState(Obj(st.root.fields + [Entry(k, ParseValue(e, t).value)]), At([]), st.arrayTable)
    ensures KeyLine(e, st, k, t) == Ok(st')
  {
    PlainKeyLine(e, st, k, t);
    assert Get(st.root, []) == Some(st.root);
    PutNew(st.root.fields, k, ParseValue(e, t).value);
  }

  /** One line read without a throw, and a blank last piece. */
  lemma RunOne(e: Engine, l0: string, s0: TState, s1: TState)
    requires Inv(s0) && TomlLine(e, s0, l0) == Ok(s1)
    ensures Run(e, [l0, ""], 0, s0) == Ok(s1)
  {
    RunOk(e, [l0, ""], 0, s0, s1);
    RunBlankLast(e, [l0, ""], 1, s1);
  }

  /** The reader's starting state: an empty result that is the current table. */
  lemma StartFacts(x: Entry)
    ensures Inv(Start) && Start.current == At([]) && Start.arrayTable == None
    ensures x.key !in Keys(Start.root.fields) && Start.root.fields + [x] == [x]
  {
    assert Keys([]) == [];
    assert Get(Obj([]), []) == Some(Obj([]));
  }

  /** The same, as the first line of a document. */
  lemma StartKeyLine(e: Engine, k: string, t: string, st': TState)
    requires !Contains(k, ".") && ParseValue(e, t).Ok?
    requires st' == TState(Obj([Entry(k, ParseValue(e, t).value)]), At([]), None)
    ensures Inv(Start) && KeyLine(e, Start, k, t) == Ok(st')
  {
    StartFacts(Entry(k, ParseValue(e, t).value));
    TopKeyLine(e, Start, k, t, st');
  }

  /** Reading that line, then the blank piece after it. */
  lemma TruncRun(e: Engine, k: string, s1: string, s2: string, line: string, x: Val, w: Val)
    requires PlainKey(k) && '=' !in s1 && IsTrimmed(s1) && '\n' !in s1 + "=" + s2
    requires line == k + " = " + ("\"" + (s1 + "=" + s2) + "\"")
    requires ParseValue(e, "\"" + s1) == Ok(x) && w == Obj([Entry(k, x)])
    ensures Inv(Start) && Run(e, [line, ""], 0, Start) == Ok(TState(w, At([]), None))
  {
    var st1 := TState(w, At([]), None);
    CutValue(e, s1, s2);
    CutLineFacts(k, s1, s2);
    NotContainsHead(k, ".");
    StartKeyLine(e, k, "\"" + s1, st1);
    ShapedKeyLine(e, Start, line, k, "\"" + s1);
    RunOne(e, line, Start, st1);
  }

  lemma Truncates(e: Engine, k: string, s1: string, s2: string, v: Val, x: Val, w: Val)
    requires PlainKey(k) && '=' !in s1 && IsTrimmed(s1) && '\n' !in s1 + "=" + s2
    requires v == Obj([Entry(k, Str(s1 + "=" + s2))])
    requires ParseValue(e, "\"" + s1) == Ok(x) && w == Obj([Entry(k, x)])
    ensures ParseTomlSpec(e, JsonToToml(e, v)) == Ok(w)
  {
    var line := k + " = " + ("\"" + (s1 + "=" + s2) + "\"");
    OneLineText(e, k, s1 + "=" + s2, v);
    TruncRun(e, k, s1, s2, line, x, w);
    ParseOfLines(e, JsonToToml(e, v), [line, ""], TState(w, At([]), None));
  }

  /** Strings are written without escaping, so an `=` inside one cuts it
      short: `{k: s1 + "=" + s2}` comes back holding what the text `"s1`
      (opening quote included) reads as, which is never the original string. */
  lemma EqualsSignTruncates(e: Engine, k: string, s1: string, s2: string)
    requires PlainKey(k) && '=' !in s1 && IsTrimmed(s1) && '\n' !in s1 && '\n' !in s2
    ensures ParseValue(e, "\"" + s1).Ok?
    ensures ParseTomlSpec(e, JsonToToml(e, Obj([Entry(k, Str(s1 + "=" + s2))])))
      == Ok(Obj([Entry(k, ParseValue(e, "\"" + s1).value)]))
    ensures ParseValue(e, "\"" + s1).value != Str(s1 + "=" + s2)
  {
    CutValue(e, s1, s2);
    assert '\n' !in s1 + "=" + s2;
    var x := ParseValue(e, "\"" + s1).value;
    Truncates(e, k, s1, s2, Obj([Entry(k, Str(s1 + "=" + s2))]), x, Obj([Entry(k, x)]));
  }
}
