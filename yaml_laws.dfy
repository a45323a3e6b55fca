/** What the YAML reader does with `- item` lines, how the writer lays out
    its text, and which documents come back unchanged when the writer's
    text is read again. */
module YamlLaws {
  import opened Text
  import opened Values
  import opened Detect
  import opened YamlParse
  import opened YamlEmit
  import opened Js

  // ---- items

  /** A read of a key that only the last entry holds finds that entry. */
  lemma {:induction false} LookupLast(fs: seq<Entry>, k: string, v: Val)
    requires forall i :: 0 <= i < |fs| ==> fs[i].key != k
    ensures Lookup(fs + [Entry(k, v)], k) == Some(v)
  {
    var g := fs + [Entry(k, v)];
    if fs != [] {
      assert g[1..] == fs[1..] + [Entry(k, v)];
      LookupLast(fs[1..], k, v);
    }
  }

  /** The wrapping step before an item: a last value that is not an array
      becomes a one-element array. */
  lemma WrapScalarLast(fs: seq<Entry>, k: string, v: Val)
    requires forall i :: 0 <= i < |fs| ==> fs[i].key != k
    requires k != "" && !v.Arr?
    ensures WrapLast(fs + [Entry(k, v)]) == fs + [Entry(k, Arr([v], []))]
  {
    var g := fs + [Entry(k, v)];
    assert g[|g| - 1].key == k;
    LookupLast(fs, k, v);
    PutLast(fs, k, v, Arr([v], []));
  }

  lemma {:induction false} FirstArrayAt(fs: seq<Entry>, j: nat)
    requires j < |fs| && fs[j].val.Arr?
    requires forall i :: 0 <= i < j ==> !fs[i].val.Arr?
    ensures FirstArray(fs) == Some(j)
  {
  }

  /** An item under a key whose value is not an array turns that value
      into the first element of a new array and becomes the second. */
  lemma ItemAfterScalarKey(fs: seq<Entry>, k: string, v: Val, x: Val)
    requires forall i :: 0 <= i < |fs| ==> fs[i].key != k
    requires k != "" && !v.Arr?
    requires forall i :: 0 <= i < |fs| ==> !fs[i].val.Arr?
    ensures AddItem(Obj(fs + [Entry(k, v)]), x) == Ok(Obj(fs + [Entry(k, Arr([v, x], []))]))
  {
    WrapScalarLast(fs, k, v);
    FirstArrayLast(fs, k, [v]);
    PushAtLast(fs, k, [v], x);
    assert [v] + [x] == [v, x];
  }

  lemma FirstArrayLast(fs: seq<Entry>, k: string, a: seq<Val>)
    requires forall i :: 0 <= i < |fs| ==> !fs[i].val.Arr?
    ensures FirstArray(fs + [Entry(k, Arr(a, []))]) == Some(|fs|)
  {
    var w := fs + [Entry(k, Arr(a, []))];
    assert forall i :: 0 <= i < |fs| ==> w[i] == fs[i];
    FirstArrayAt(w, |fs|);
  }

  lemma PushAtLast(fs: seq<Entry>, k: string, a: seq<Val>, x: Val)
    ensures PushAt(fs + [Entry(k, Arr(a, []))], |fs|, x) == fs + [Entry(k, Arr(a + [x], []))]
  {
  }

  /** When an earlier key already holds an array, the item goes into the
      first such array, not under the last key; the last key's value is
      still wrapped. When that array owns a `push`, the call throws. */
  lemma ItemGoesToFirstArray(fs: seq<Entry>, j: nat, k: string, v: Val, x: Val)
    requires forall i :: 0 <= i < |fs| ==> fs[i].key != k
    requires k != "" && !v.Arr?
    requires j < |fs| && fs[j].val.Arr?
    requires forall i :: 0 <= i < j ==> !fs[i].val.Arr?
    ensures Lookup(fs[j].val.extras, "push").None? ==>
      AddItem(Obj(fs + [Entry(k, v)]), x)
        == Ok(Obj(fs[j := Entry(fs[j].key, Arr(fs[j].val.items + [x], fs[j].val.extras))] + [Entry(k, Arr([v], []))]))
    ensures Lookup(fs[j].val.extras, "push").Some? ==> AddItem(Obj(fs + [Entry(k, v)]), x) == Fail(TypeError)
  {
    WrapScalarLast(fs, k, v);
    FirstArrayBefore(fs, j, Entry(k, Arr([v], [])));
    PushAtBefore(fs, j, Entry(k, Arr([v], [])), x);
  }

  lemma FirstArrayBefore(fs: seq<Entry>, j: nat, last: Entry)
    requires j < |fs| && fs[j].val.Arr?
    requires forall i :: 0 <= i < j ==> !fs[i].val.Arr?
    ensures FirstArray(fs + [last]) == Some(j)
  {
    var w := fs + [last];
    assert forall i :: 0 <= i <= j ==> w[i] == fs[i];
    FirstArrayAt(w, j);
  }

  lemma PushAtBefore(fs: seq<Entry>, j: nat, last: Entry, x: Val)
    requires j < |fs| && fs[j].val.Arr?
    ensures PushAt(fs + [last], j, x) ==
      fs[j := Entry(fs[j].key, Arr(fs[j].val.items + [x], fs[j].val.extras))] + [last]
  {
  }

  /** With no key holding an array and no last key to wrap (the object is
      empty, or its last key is the empty string), an item is dropped. */
  lemma ItemDropped(fs: seq<Entry>, x: Val)
    requires forall i :: 0 <= i < |fs| ==> !fs[i].val.Arr?
    requires fs == [] || fs[|fs| - 1].key == ""
    ensures AddItem(Obj(fs), x) == Ok(Obj(fs))
  {
  }

  // ---- the writer's layout

  /** Text made of whole lines, possibly none. */
  predicate Lines(s: string)
  {
    s == "" || EndsWith(s, "\n")
  }

  lemma LinesConcat(a: string, b: string)
    requires Lines(b) && (a == "" || EndsWith(a, "\n"))
    ensures Lines(a + b)
  {
    if b != "" {
      assert (a + b)[|a + b| - 1..] == b[|b| - 1..];
    }
  }

  /** A prefix, the rest of a line, and whole lines are whole lines. */
  lemma LineThenLines(a: string, b: string, c: string)
    requires EndsWith(b, "\n") && Lines(c)
    ensures Lines(a + b + c)
  {
    assert (a + b)[|a + b| - 1..] == b[|b| - 1..];
    LinesConcat(a + b, c);
  }

  /** A line break followed by whole lines, or text followed by a line break, ends a line. */
  lemma TailEndsLine(x: string, y: string)
    ensures Lines(y) ==> EndsWith("\n" + y, "\n")
    ensures EndsWith(x + "\n", "\n")
  {
    assert (x + "\n")[|x + "\n"| - 1..] == "\n";
    if y != "" {
      assert ("\n" + y)[|"\n" + y| - 1..] == y[|y| - 1..];
    }
  }

  lemma {:induction false} ItemsTextEndsLine(e: Engine, items: seq<Val>, indent: nat, parent: Val)
    requires forall i :: 0 <= i < |items| ==> items[i] < parent
    ensures Lines(ItemsText(e, items, indent, parent))
    decreases parent, 0, |items|
  {
    if items != [] {
      ItemTailEndsLine(e, items[0], indent);
      ItemsTextEndsLine(e, items[1..], indent, parent);
      LineThenLines(Indent(indent) + "- ", ItemTail(e, items[0], indent), ItemsText(e, items[1..], indent, parent));
    }
  }

  lemma {:induction false} ItemTailEndsLine(e: Engine, x: Val, indent: nat)
    ensures EndsWith(ItemTail(e, x, indent), "\n")
    decreases x, 3
  {
    if IsContainer(x) {
      YamlOfEndsLine(e, x, indent + 1);
      TailEndsLine("", YamlOf(e, x, indent + 1));
    } else {
      TailEndsLine(ScalarText(e, x), "");
    }
  }

  lemma {:induction false} FieldsTextEndsLine(e: Engine, fs: seq<Entry>, indent: nat, parent: Val)
    requires forall i :: 0 <= i < |fs| ==> fs[i].val < parent
    ensures Lines(FieldsText(e, fs, indent, parent))
    decreases parent, 0, |fs|
  {
    if fs != [] {
      FieldTailEndsLine(e, fs[0].val, indent);
      FieldsTextEndsLine(e, fs[1..], indent, parent);
      LineThenLines(Indent(indent) + fs[0].key + ": ", FieldTail(e, fs[0].val, indent), FieldsText(e, fs[1..], indent, parent));
    }
  }

  lemma {:induction false} FieldTailEndsLine(e: Engine, v: Val, indent: nat)
    ensures EndsWith(FieldTail(e, v, indent), "\n")
    decreases v, 3
  {
    if v.Arr? {
      YamlOfEndsLine(e, v, indent);
      TailEndsLine("", YamlOf(e, v, indent));
    } else if v.Obj? {
      YamlOfEndsLine(e, v, indent + 1);
      TailEndsLine("", YamlOf(e, v, indent + 1));
    } else {
      TailEndsLine(ScalarText(e, v), "");
    }
  }

  /** The text of an object or an array is a sequence of whole lines, each
      ended by a line break; anything else is written as its JSON text. */
  lemma {:induction false} YamlOfEndsLine(e: Engine, v: Val, indent: nat)
    ensures IsContainer(v) ==> Lines(YamlOf(e, v, indent))
    ensures !IsContainer(v) ==> YamlOf(e, v, indent) == JsonScalar(e, v)
    decreases v, 2
  {
    if v.Arr? {
      assert YamlOf(e, v, indent) == ItemsText(e, v.items, indent, v);
      ItemsTextEndsLine(e, v.items, indent, v);
    } else if v.Obj? {
      assert YamlOf(e, v, indent) == FieldsText(e, v.fields, indent, v);
      FieldsTextEndsLine(e, v.fields, indent, v);
    }
  }

  /** The text of an object's entries does not depend on which object they
      are taken from. */
  lemma {:induction false} FieldsTextAnyParent(e: Engine, fs: seq<Entry>, indent: nat, p: Val, q: Val)
    requires forall i :: 0 <= i < |fs| ==> fs[i].val < p
    requires forall i :: 0 <= i < |fs| ==> fs[i].val < q
    ensures FieldsText(e, fs, indent, p) == FieldsText(e, fs, indent, q)
    decreases |fs|
  {
    if fs != [] {
      FieldsTextAnyParent(e, fs[1..], indent, p, q);
    }
  }

  /** The text of an array's elements does not depend on which array they
      are taken from. */
  lemma {:induction false} ItemsTextAnyParent(e: Engine, items: seq<Val>, indent: nat, p: Val, q: Val)
    requires forall i :: 0 <= i < |items| ==> items[i] < p
    requires forall i :: 0 <= i < |items| ==> items[i] < q
    ensures ItemsText(e, items, indent, p) == ItemsText(e, items, indent, q)
    decreases |items|
  {
    if items != [] {
      ItemsTextAnyParent(e, items[1..], indent, p, q);
    }
  }

  /** Each entry of an object opens a line with two spaces per level, the
      key and `: `; an array value goes on the next lines at the key's own
      level, an object value one level deeper, and a scalar ends the line.
      The remaining entries follow at the same level. */
  lemma EntryLayout(e: Engine, k: string, v: Val, rest: seq<Entry>, indent: nat)
    ensures var doc := YamlOf(e, Obj([Entry(k, v)] + rest), indent);
      var head := Indent(indent) + k + ": ";
      var after := YamlOf(e, Obj(rest), indent);
      && (v.Arr? ==> doc == head + "\n" + YamlOf(e, v, indent) + after)
      && (v.Obj? ==> doc == head + "\n" + YamlOf(e, v, indent + 1) + after)
      && (!IsContainer(v) ==> doc == head + ScalarText(e, v) + "\n" + after)
  {
    var fs := [Entry(k, v)] + rest;
    assert fs[1..] == rest;
    FieldsTextAnyParent(e, rest, indent, Obj(fs), Obj(rest));
    var head := Indent(indent) + k + ": ";
    var tail := FieldTail(e, v, indent);
    var after := YamlOf(e, Obj(rest), indent);
    assert YamlOf(e, Obj(fs), indent) == head + tail + after;
    if v.Arr? {
      Assoc(head, "\n", YamlOf(e, v, indent), after);
    } else if v.Obj? {
      Assoc(head, "\n", YamlOf(e, v, indent + 1), after);
    } else {
      Assoc(head, ScalarText(e, v), "\n", after);
    }
  }

  /** Each element of an array opens a line with two spaces per level and
      `- `; an object or array element goes on the next lines one level
      deeper, a scalar ends the line. The remaining elements follow at the
      same level. */
  lemma ItemLayout(e: Engine, x: Val, rest: seq<Val>, ex: seq<Entry>, indent: nat)
    ensures var doc := YamlOf(e, Arr([x] + rest, ex), indent);
      var head := Indent(indent) + "- ";
      var after := YamlOf(e, Arr(rest, ex), indent);
      && (IsContainer(x) ==> doc == head + "\n" + YamlOf(e, x, indent + 1) + after)
      && (!IsContainer(x) ==> doc == head + ScalarText(e, x) + "\n" + after)
  {
    var items := [x] + rest;
    assert items[1..] == rest;
    ItemsTextAnyParent(e, rest, indent, Arr(items, ex), Arr(rest, ex));
    var head := Indent(indent) + "- ";
    var tail := ItemTail(e, x, indent);
    var after := YamlOf(e, Arr(rest, ex), indent);
    assert YamlOf(e, Arr(items, ex), indent) == head + tail + after;
    if IsContainer(x) {
      Assoc(head, "\n", YamlOf(e, x, indent + 1), after);
    } else {
      Assoc(head, ScalarText(e, x), "\n", after);
    }
  }

  // ---- reading the writer's text back

  /** A string that the reader returns unchanged when it stands after
      `key: `: not empty, no surrounding white space, no line break, no
      `: `, not quoted, not numeric, and not a boolean word. */
  predicate PlainString(e: Engine, s: string)
  {
    && s != [] && IsTrimmed(s) && '\n' !in s && !Contains(s, ": ")
    && !(StartsWith(s, "\"") && EndsWith(s, "\""))
    && !(StartsWith(s, "'") && EndsWith(s, "'"))
    && !e.isNumeric(s)
    && LowerAscii(s) != "true" && LowerAscii(s) != "false"
  }

  /** An entry of a flat document: an ordinary `\w+` key and a boolean or a
      plain string. */
  predicate FlatEntry(e: Engine, x: Entry)
  {
    IsWord(x.key) && OrdinaryKey(e, x.key) && (x.val.Bool? || (x.val.Str? && PlainString(e, x.val.s)))
  }

  predicate FlatDoc(e: Engine, fs: seq<Entry>)
  {
    NoDup(Keys(fs)) && forall i :: 0 <= i < |fs| ==> FlatEntry(e, fs[i])
  }

  /** The line the writer produces for one entry of a flat document, without its line break. */
  function FlatLine(e: Engine, x: Entry): string
    requires FlatEntry(e, x)
  {
    x.key + ": " + ScalarText(e, x.val)
  }

  /** The lines the writer produces for a flat document. */
  function FlatLines(e: Engine, fs: seq<Entry>): (r: seq<string>)
    requires forall i :: 0 <= i < |fs| ==> FlatEntry(e, fs[i])
    ensures |r| == |fs|
    ensures forall i :: 0 <= i < |fs| ==> r[i] == FlatLine(e, fs[i])
  {
    if fs == [] then [] else [FlatLine(e, fs[0])] + FlatLines(e, fs[1..])
  }

  /** A boolean is written as `true` or `false`, which the reader turns back into it. */
  lemma BoolBack(e: Engine, b: bool)
    requires NumberFacts(e)
    ensures var t := ScalarText(e, Bool(b));
      t != [] && IsTrimmed(t) && '\n' !in t && !Contains(t, ": ") && Scalar(e, t) == Bool(b)
  {
    if b {
      WordBack(e, "true");
    } else {
      WordBack(e, "false");
    }
  }

  lemma WordBack(e: Engine, t: string)
    requires NumberFacts(e) && (t == "true" || t == "false")
    ensures t != [] && IsTrimmed(t) && '\n' !in t && !Contains(t, ": ") && Scalar(e, t) == Bool(t == "true")
  {
    BoolWordLower(t);
    WordTrimmed(t);
    WordHasNo(t, '\n');
    WordHasNo(t, ':');
    NotContainsHead(t, ": ");
    WordNotQuoted(t);
    LowerOfLower(t);
    BoolWordScalar(e, t);
  }

  lemma BoolWordScalar(e: Engine, t: string)
    requires !e.isNumeric(t) && t == LowerAscii(t) && (t == "true" || t == "false")
    requires !StartsWith(t, "\"") && !StartsWith(t, "'")
    ensures Scalar(e, t) == Bool(t == "true")
  {
  }

  lemma BoolWordLower(t: string)
    requires t == "true" || t == "false"
    ensures IsWord(t) && forall i :: 0 <= i < |t| ==> 'a' <= t[i] <= 'z'
  {
    if t == "true" {
      assert forall i :: 0 <= i < |t| ==> t[i] in "true";
    } else {
      assert forall i :: 0 <= i < |t| ==> t[i] in "false";
    }
  }

  lemma WordNotQuoted(t: string)
    requires IsWord(t)
    ensures !StartsWith(t, "\"") && !StartsWith(t, "'")
  {
    assert IsWordChar(t[0]);
    assert t[..1][0] == t[0];
  }

  /** Lower-casing text without capitals changes nothing. */
  lemma LowerOfLower(s: string)
    requires forall i :: 0 <= i < |s| ==> 'a' <= s[i] <= 'z'
    ensures LowerAscii(s) == s
  {
  }

  /** A plain string is written as it is, and read back as it is. */
  lemma PlainBack(e: Engine, s: string)
    requires PlainString(e, s)
    ensures Scalar(e, ScalarText(e, Str(s))) == Str(s)
  {
  }

  /** A boolean or plain string is written as text the reader turns back into it. */
  lemma ScalarBack(e: Engine, v: Val)
    requires NumberFacts(e)
    requires v.Bool? || (v.Str? && PlainString(e, v.s))
    ensures var t := ScalarText(e, v);
      t != [] && IsTrimmed(t) && '\n' !in t && !Contains(t, ": ") && Scalar(e, t) == v
  {
    if v.Bool? {
      BoolBack(e, v.b);
    } else {
      PlainBack(e, v.s);
    }
  }

  lemma WordHasNo(k: string, c: char)
    requires IsWord(k) && !IsWordChar(c)
    ensures c !in k
  {
  }

  /** No line of a flat document holds a line break. */
  lemma FlatLineHasNoBreak(e: Engine, x: Entry)
    requires NumberFacts(e) && FlatEntry(e, x)
    ensures '\n' !in FlatLine(e, x)
  {
    WordHasNo(x.key, '\n');
    ScalarBack(e, x.val);
    assert '\n' !in ": ";
  }

  /** The writer's text of a flat document is its first line, a line break and the rest. */
  lemma FlatFieldsCons(e: Engine, fs: seq<Entry>, parent: Val)
    requires fs != [] && FlatEntry(e, fs[0])
    requires forall i :: 0 <= i < |fs| ==> fs[i].val < parent
    ensures FieldsText(e, fs, 0, parent) == FlatLine(e, fs[0]) + "\n" + FieldsText(e, fs[1..], 0, parent)
  {
    var v := fs[0].val;
    var rest := FieldsText(e, fs[1..], 0, parent);
    var s := ScalarText(e, v);
    assert FieldsText(e, fs, 0, parent) == Indent(0) + fs[0].key + ": " + FieldTail(e, v, 0) + rest;
    assert Indent(0) + fs[0].key == fs[0].key;
    assert FieldTail(e, v, 0) == s + "\n";
    Assoc(fs[0].key + ": ", s, "\n", rest);
  }

  lemma Assoc<T>(a: seq<T>, b: seq<T>, c: seq<T>, d: seq<T>)
    ensures a + (b + c) + d == a + b + c + d
  {
  }

  /** The writer's text of a flat document is its lines, each ended by a line break. */
  lemma {:induction false} FlatText(e: Engine, fs: seq<Entry>, parent: Val)
    requires forall i :: 0 <= i < |fs| ==> FlatEntry(e, fs[i])
    requires forall i :: 0 <= i < |fs| ==> fs[i].val < parent
    ensures FieldsText(e, fs, 0, parent) == Unlines(FlatLines(e, fs))
  {
    if fs != [] {
      FlatFieldsCons(e, fs, parent);
      FlatText(e, fs[1..], parent);
      assert FlatLines(e, fs)[1..] == FlatLines(e, fs[1..]);
    }
  }

  /** Split at line breaks, the writer's text is its lines and a last empty piece. */
  lemma FlatSplit(e: Engine, fs: seq<Entry>, parent: Val)
    requires NumberFacts(e)
    requires forall i :: 0 <= i < |fs| ==> FlatEntry(e, fs[i])
    requires forall i :: 0 <= i < |fs| ==> fs[i].val < parent
    ensures Split(FieldsText(e, fs, 0, parent), "\n") == FlatLines(e, fs) + [""]
  {
    FlatText(e, fs, parent);
    var ls := FlatLines(e, fs);
    forall i | 0 <= i < |ls| ensures '\n' !in ls[i] {
      FlatLineHasNoBreak(e, fs[i]);
    }
    SplitUnlines(ls);
  }

  lemma Pair2<T>(a: T, b: T)
    ensures [a] + [b] == [a, b]
  {
  }

  /** A word has nothing to trim. */
  lemma WordTrimmed(k: string)
    requires IsWord(k)
    ensures IsTrimmed(k) && Trim(k) == k
  {
    assert IsWordChar(k[0]) && IsWordChar(k[|k| - 1]);
    TrimOfTrimmed(k);
  }

  /** A `key: value` line with a `\w+` key and an unpadded value has no
      indentation, nothing to trim, and is neither skipped nor an item. */
  lemma PairLineTrimmed(key: string, s: string, line: string)
    requires line == key + ": " + s
    requires IsWord(key) && s != [] && IsTrimmed(s)
    ensures Trim(line) == line && !Skipped(line) && Span(line, IsJsSpace) == 0
    ensures !StartsWith(line, "- ")
  {
    assert line[0] == key[0] && IsWordChar(line[0]);
    ConcatTrimmed(key + ": ", s);
    TrimOfTrimmed(line);
    WordStartNotSkipped(line);
    assert !StartsWith(line, "- ") by {
      assert |line| >= 2 ==> line[..2][0] == line[0];
    }
  }

  /** Such a line splits at `: ` into its key and its value. */
  lemma PairLineSplit(key: string, s: string)
    requires IsWord(key) && !Contains(s, ": ")
    ensures Split(key + ": " + s, ": ") == [key, s]
  {
    WordHasNo(key, ':');
    SplitFirst(key, ": ", s);
    SplitNone(s, ": ");
    Pair2(key, s);
  }

  /** How a `key: value` line with a `\w+` key and an unpadded value is read. */
  lemma PairLineShape(key: string, s: string, line: string)
    requires line == key + ": " + s
    requires IsWord(key) && s != [] && IsTrimmed(s) && !Contains(s, ": ")
    ensures Trim(line) == line && !Skipped(line) && Span(line, IsJsSpace) == 0
    ensures Classify(line) == Pair(key, s)
  {
    PairLineTrimmed(key, s, line);
    PairLineSplit(key, s);
    WordTrimmed(key);
    TrimOfTrimmed(s);
  }

  /** Reading a `key: value` line at the top level stores the value's reading under the key. */
  lemma PairLineStep(e: Engine, lines: seq<string>, j: nat, acc: seq<Entry>, key: string, s: string)
    requires j < |lines| && lines[j] == key + ": " + s
    requires IsWord(key) && s != [] && IsTrimmed(s) && !Contains(s, ": ")
    requires Inv(State(Obj(acc), [RootFrame]))
    ensures LineStep(e, lines, j, State(Obj(acc), [RootFrame])) == Ok(State(Obj(Put(acc, key, Scalar(e, s))), [RootFrame]))
  {
    PairLineShape(key, s, lines[j]);
    assert PopFrames([RootFrame], 0) == [RootFrame];
    var c := SetProp(Obj(acc), key, Scalar(e, s));
    assert c == Obj(Put(acc, key, Scalar(e, s)));
  }

  /** The first `j` entries of a flat document, read so far, satisfy the stack invariant. */
  lemma FlatPrefixInv(e: Engine, fs: seq<Entry>, j: nat)
    requires FlatDoc(e, fs) && j <= |fs|
    ensures Inv(State(Obj(fs[..j]), [RootFrame]))
  {
    var p := fs[..j];
    assert forall a :: 0 <= a < |p| ==> Keys(p)[a] == Keys(fs)[a];
    assert forall a :: 0 <= a < |p| ==> WellFormed(p[a].val) by {
      forall a | 0 <= a < |p| ensures WellFormed(p[a].val) {
        assert FlatEntry(e, fs[a]);
      }
    }
  }

  /** One more line of the reader's loop, read without a throw. */
  lemma RunStep(e: Engine, lines: seq<string>, j: nat, st: State)
    requires j < |lines| && Inv(st) && LineStep(e, lines, j, st).Ok?
    ensures Inv(LineStep(e, lines, j, st).value)
    ensures Run(e, lines, j, st) == Run(e, lines, j + 1, LineStep(e, lines, j, st).value)
  {
    LineStepKeepsInv(e, lines, j, st);
  }

  /** A line that is blank once trimmed leaves the state alone. */
  lemma SkippedLineStep(e: Engine, lines: seq<string>, j: nat, st: State)
    requires j < |lines| && Inv(st) && Skipped(Trim(lines[j]))
    ensures LineStep(e, lines, j, st) == Ok(st)
  {
  }

  /** Nothing is left to read at the end of the lines. */
  lemma RunEnd(e: Engine, lines: seq<string>, st: State)
    requires Inv(st)
    ensures Run(e, lines, |lines|, st) == Ok(st)
  {
  }

  /** A blank last line changes nothing. */
  lemma BlankLast(e: Engine, lines: seq<string>, j: nat, st: State)
    requires j + 1 == |lines| && lines[j] == "" && Inv(st)
    ensures Run(e, lines, j, st) == Ok(st)
  {
    TrimEmptyIffAllSpace("");
    SkippedLineStep(e, lines, j, st);
    RunStep(e, lines, j, st);
    RunEnd(e, lines, st);
  }

  /** Entry `j` of a flat document is not among the ones before it. */
  lemma FlatKeyNew(e: Engine, fs: seq<Entry>, j: nat)
    requires FlatDoc(e, fs) && j < |fs|
    ensures fs[j].key !in Keys(fs[..j])
  {
    var p := fs[..j];
    forall a | 0 <= a < j ensures Keys(p)[a] != fs[j].key {
      assert Keys(p)[a] == Keys(fs)[a];
      assert Keys(fs)[j] == fs[j].key;
    }
  }

  /** The line of a flat entry whose key is new appends the entry. */
  lemma EntryLineStep(e: Engine, lines: seq<string>, j: nat, acc: seq<Entry>, x: Entry)
    requires NumberFacts(e) && FlatEntry(e, x) && x.key !in Keys(acc)
    requires j < |lines| && lines[j] == FlatLine(e, x)
    requires Inv(State(Obj(acc), [RootFrame]))
    ensures LineStep(e, lines, j, State(Obj(acc), [RootFrame])) == Ok(State(Obj(acc + [x]), [RootFrame]))
  {
    ScalarBack(e, x.val);
    PairLineStep(e, lines, j, acc, x.key, ScalarText(e, x.val));
    PutNew(acc, x.key, x.val);
  }

  /** The line of entry `j` adds that entry to what was read before it. */
  lemma FlatLineStep(e: Engine, fs: seq<Entry>, lines: seq<string>, j: nat)
    requires NumberFacts(e) && FlatDoc(e, fs) && j < |fs|
    requires lines == FlatLines(e, fs) + [""]
    ensures Inv(State(Obj(fs[..j]), [RootFrame]))
    ensures LineStep(e, lines, j, State(Obj(fs[..j]), [RootFrame])) == Ok(State(Obj(fs[..j + 1]), [RootFrame]))
  {
    FlatPrefixInv(e, fs, j);
    assert FlatEntry(e, fs[j]);
    assert lines[j] == FlatLine(e, fs[j]);
    FlatKeyNew(e, fs, j);
    EntryLineStep(e, lines, j, fs[..j], fs[j]);
    TakeNext(fs, j);
  }

  /** Reading the remaining lines of a flat document from its first `j` entries. */
  lemma {:induction false} RunFlat(e: Engine, fs: seq<Entry>, lines: seq<string>, j: nat)
    requires NumberFacts(e) && FlatDoc(e, fs) && j <= |fs|
    requires lines == FlatLines(e, fs) + [""]
    ensures Inv(State(Obj(fs[..j]), [RootFrame]))
    ensures Run(e, lines, j, State(Obj(fs[..j]), [RootFrame])) == Ok(State(Obj(fs), [RootFrame]))
    decreases |fs| - j
  {
    FlatPrefixInv(e, fs, j);
    var st := State(Obj(fs[..j]), [RootFrame]);
    if j == |fs| {
      TakeAll(fs);
      BlankLast(e, lines, j, st);
    } else {
      FlatLineStep(e, fs, lines, j);
      RunStep(e, lines, j, st);
      RunFlat(e, fs, lines, j + 1);
    }
  }

  /** A flat document (ordinary `\w+` keys, boolean or plain string values) comes
      back unchanged from writing it as YAML and reading the text again. */
  lemma FlatRoundTrip(e: Engine, fs: seq<Entry>)
    requires NumberFacts(e) && FlatDoc(e, fs)
    ensures ParseYamlSpec(e, JsonToYaml(e, Obj(fs))) == Ok(Obj(fs))
  {
    var text := JsonToYaml(e, Obj(fs));
    assert text == FieldsText(e, fs, 0, Obj(fs));
    FlatSplit(e, fs, Obj(fs));
    RunFlat(e, fs, FlatLines(e, fs) + [""], 0);
    assert fs[..0] == [];
  }

  /** The word `null` is a plain string. */
  lemma NullWordPlain(e: Engine)
    requires NumberFacts(e)
    ensures PlainString(e, "null")
  {
    assert IsTrimmed("null");
    NotContainsHead("null", ": ");
    assert !StartsWith("null", "\"") && !StartsWith("null", "'");
    assert LowerAscii("null") == "null";
  }

  /** `null` and the string `"null"` are written alike. */
  lemma NullWrittenAsWord(e: Engine, k: string)
    ensures JsonToYaml(e, Obj([Entry(k, Null)])) == JsonToYaml(e, Obj([Entry(k, Str("null"))]))
  {
    var a := Obj([Entry(k, Null)]);
    var b := Obj([Entry(k, Str("null"))]);
    assert FieldTail(e, Null, 0) == "null" + "\n";
    assert FieldTail(e, Str("null"), 0) == "null" + "\n";
    assert FieldsText(e, [Entry(k, Null)], 0, a) == Indent(0) + k + ": " + ("null" + "\n") + "";
    assert FieldsText(e, [Entry(k, Str("null"))], 0, b) == Indent(0) + k + ": " + ("null" + "\n") + "";
  }

  /** `null` is written as the word `null`, which reads back as a string. */
  lemma NullReadsAsString(e: Engine, k: string)
    requires NumberFacts(e) && IsWord(k) && OrdinaryKey(e, k)
    ensures ParseYamlSpec(e, JsonToYaml(e, Obj([Entry(k, Null)]))) == Ok(Obj([Entry(k, Str("null"))]))
  {
    var fs := [Entry(k, Str("null"))];
    NullWordPlain(e);
    assert FlatEntry(e, fs[0]);
    assert Keys(fs) == [k];
    NullWrittenAsWord(e, k);
    FlatRoundTrip(e, fs);
  }

  // ---- `length`, `push` and the reader's faults

  /** A `length: v` line whose current container is an array sets the
      array's length: a value that is no valid length throws a `RangeError`
      (`length: abc`), one up to the array's size drops the elements from
      there on (`length: 1`), and a larger one would leave holes. */
  lemma LengthPairOnArray(e: Engine, v: string, indent: nat, nextIsItem: bool, root: Val, stack: seq<Frame>)
    requires Inv(State(root, stack)) && v != ""
    requires var t := stack[|stack| - 1].target; t.At? && Get(root, t.path).value.Arr?
    ensures var p := stack[|stack| - 1].target.path;
      var c := Get(root, p).value;
      Apply(e, Pair("length", v), indent, nextIsItem, root, stack)
        == (var n := LengthOf(e, Scalar(e, v));
            if n.None? then Fail(RangeError)
            else if n.value <= |c.items| then Ok(State(SetAt(root, p, Arr(c.items[..n.value], c.extras)), stack))
            else Fail(Holes))
  {
  }

  /** `length: 1` keeps only the first element of a non-empty array. */
  lemma LengthOneTruncates(e: Engine, indent: nat, nextIsItem: bool, root: Val, stack: seq<Frame>)
    requires NumberFacts(e) && Inv(State(root, stack))
    requires var t := stack[|stack| - 1].target; t.At? && Get(root, t.path).value.Arr?
    requires Get(root, stack[|stack| - 1].target.path).value.items != []
    ensures var p := stack[|stack| - 1].target.path;
      var c := Get(root, p).value;
      Apply(e, Pair("length", "1"), indent, nextIsItem, root, stack)
        == Ok(State(SetAt(root, p, Arr([c.items[0]], c.extras)), stack))
  {
    var c := Get(root, stack[|stack| - 1].target.path).value;
    ScalarOne(e);
    LengthOfOne(e);
    TakeOne(c.items);
    LengthPairCuts(e, "1", 1, indent, nextIsItem, root, stack);
  }

  lemma LengthOfOne(e: Engine)
    requires NumberFacts(e)
    ensures LengthOf(e, Num("1")) == Some(1)
  {
  }

  lemma TakeOne<T>(s: seq<T>)
    requires s != []
    ensures s[..1] == [s[0]]
  {
  }

  lemma LengthPairCuts(e: Engine, v: string, n: nat, indent: nat, nextIsItem: bool, root: Val, stack: seq<Frame>)
    requires Inv(State(root, stack)) && v != ""
    requires var t := stack[|stack| - 1].target; t.At? && Get(root, t.path).value.Arr?
    requires LengthOf(e, Scalar(e, v)) == Some(n) && n <= |Get(root, stack[|stack| - 1].target.path).value.items|
    ensures var p := stack[|stack| - 1].target.path;
      var c := Get(root, p).value;
      Apply(e, Pair("length", v), indent, nextIsItem, root, stack)
        == Ok(State(SetAt(root, p, Arr(c.items[..n], c.extras)), stack))
  {
    LengthPairOnArray(e, v, indent, nextIsItem, root, stack);
  }

  lemma ScalarOne(e: Engine)
    requires NumberFacts(e)
    ensures Scalar(e, "1") == Num("1")
  {
    assert "1"[..1] == "1" && "1"[0] == '1';
    assert !StartsWith("1", "\"") && !StartsWith("1", "'");
    assert !IsJsSpace('1');
    TrimOfTrimmed("1");
  }

  /** Opening `length` on an array: `length:` assigns `{}`, which is no
      valid length, and throws a `RangeError`; so does `length: ` before a
      line that is not an item. Before an item it assigns `[]`, which
      empties the array, and the frame it pushes holds the number `0`. */
  lemma LengthOpenedOnArray(e: Engine, indent: nat, nextIsItem: bool, root: Val, stack: seq<Frame>)
    requires Inv(State(root, stack))
    requires var t := stack[|stack| - 1].target; t.At? && Get(root, t.path).value.Arr?
    ensures Apply(e, Opener("length"), indent, nextIsItem, root, stack) == Fail(RangeError)
    ensures !nextIsItem ==> Apply(e, Pair("length", ""), indent, nextIsItem, root, stack) == Fail(RangeError)
    ensures var p := stack[|stack| - 1].target.path;
      var c := Get(root, p).value;
      NumberFacts(e) && nextIsItem ==>
      Apply(e, Pair("length", ""), indent, nextIsItem, root, stack)
        == Ok(State(SetAt(root, p, Arr([], c.extras)), stack + [Frame(Prim(Num("0")), indent)]))
  {
    var c := Get(root, stack[|stack| - 1].target.path).value;
    assert ToStr(e, Arr([], [])) == "";
    assert c.items[..0] == [];
    assert NatToString(0) == "0";
  }

  /** A `- value` line throws a `TypeError` when the current container is
      an array that owns a `push`. */
  lemma ItemOnArrayWithPush(e: Engine, v: string, indent: nat, nextIsItem: bool, root: Val, stack: seq<Frame>)
    requires Inv(State(root, stack))
    requires var t := stack[|stack| - 1].target;
      t.At? && Get(root, t.path).value.Arr? && Lookup(Get(root, t.path).value.extras, "push").Some?
    ensures Apply(e, Item(v), indent, nextIsItem, root, stack) == Fail(TypeError)
  {
  }

  /** Below a frame that holds `undefined` every line but an ignored one
      throws a `TypeError`; below a primitive, items and scalar pairs
      change nothing. */
  lemma OffTreeFrames(e: Engine, kind: LineKind, indent: nat, nextIsItem: bool, root: Val, stack: seq<Frame>)
    requires Inv(State(root, stack))
    ensures stack[|stack| - 1].target.Undef? ==>
      (Apply(e, kind, indent, nextIsItem, root, stack) == Fail(TypeError) <==> !kind.Ignored?)
    ensures stack[|stack| - 1].target.Prim? && (kind.Item? || (kind.Pair? && kind.value != "")) ==>
      Apply(e, kind, indent, nextIsItem, root, stack) == Ok(State(root, stack))
  {
  }

  /** A line whose pair or opener key is neither `length` nor `push`. */
  predicate FaultFreeLine(line: string)
  {
    var t := Trim(line);
    Skipped(t) || match Classify(t)
      case Pair(k, _) => k != "length" && k != "push"
      case Opener(k) => k != "length" && k != "push"
      case _ => true
  }

  /** No array inside `v` owns a `push`. */
  predicate PushFree(v: Val)
    decreases v
  {
    match v
    case Arr(items, ex) =>
      && Lookup(ex, "push").None?
      && (forall i :: 0 <= i < |items| ==> PushFree(items[i]))
      && (forall i :: 0 <= i < |ex| ==> PushFree(ex[i].val))
    case Obj(fs) => forall i :: 0 <= i < |fs| ==> PushFree(fs[i].val)
    case _ => true
  }

  /** Every frame holds a path, and no array of the result owns a `push`. */
  predicate Clean(st: State)
  {
    (forall k :: 0 <= k < |st.stack| ==> st.stack[k].target.At?) && PushFree(st.root)
  }

  lemma PushFreeLookup(fs: seq<Entry>, k: string)
    requires forall i :: 0 <= i < |fs| ==> PushFree(fs[i].val)
    requires Lookup(fs, k).Some?
    ensures PushFree(Lookup(fs, k).value)
  {
  }

  lemma PushFreePut(fs: seq<Entry>, k: string, x: Val)
    requires forall i :: 0 <= i < |fs| ==> PushFree(fs[i].val)
    requires PushFree(x)
    ensures forall i :: 0 <= i < |Put(fs, k, x)| ==> PushFree(Put(fs, k, x)[i].val)
  {
  }

  /** A write of a value without such arrays, under any name but an
      array's `push`, makes no array own a `push`. */
  lemma PushFreeSetProp(c: Val, k: string, x: Val)
    requires PushFree(c) && PushFree(x) && !(c.Arr? && k == "push")
    ensures PushFree(SetProp(c, k, x))
  {
    if IsContainer(c) {
      PushFreePut(Props(c), k, x);
    }
  }

  lemma {:induction false} PushFreeGet(v: Val, p: seq<Step>)
    requires PushFree(v) && Get(v, p).Some?
    ensures PushFree(Get(v, p).value)
    decreases |p|
  {
    if p != [] {
      var d := Child(v, p[0]).value;
      if p[0].K? {
        PushFreeLookup(Props(v), p[0].key);
      }
      PushFreeGet(d, p[1..]);
    }
  }

  lemma {:induction false} PushFreeSetAt(v: Val, p: seq<Step>, c: Val)
    requires PushFree(v) && PushFree(c)
    ensures PushFree(SetAt(v, p, c))
    decreases |p|
  {
    if p != [] && Child(v, p[0]).Some? {
      var d := Child(v, p[0]).value;
      if p[0].K? {
        PushFreeLookup(Props(v), p[0].key);
      }
      PushFreeSetAt(d, p[1..], c);
      var inner := SetAt(d, p[1..], c);
      match p[0]
      case K(k) =>
        PushFreeSetProp(v, k, inner);
      case I(i) =>
        var items := v.items[i := inner];
        assert forall j :: 0 <= j < |items| ==> PushFree(items[j]);
    }
  }

  lemma PushFreeWrapLast(fs: seq<Entry>)
    requires forall i :: 0 <= i < |fs| ==> PushFree(fs[i].val)
    ensures forall i :: 0 <= i < |WrapLast(fs)| ==> PushFree(WrapLast(fs)[i].val)
  {
    if fs != [] {
      var k := fs[|fs| - 1].key;
      assert Keys(fs)[|fs| - 1] == k;
      PushFreeLookup(fs, k);
      var prev := Lookup(fs, k).value;
      if k != "" && !prev.Arr? {
        assert PushFree(Arr([prev], []));
        PushFreePut(fs, k, Arr([prev], []));
      }
    }
  }

  /** On a container with no such array, an item line never throws and
      adds none. */
  lemma AddItemClean(c: Val, x: Val)
    requires IsContainer(c) && PushFree(c) && PushFree(x)
    ensures AddItem(c, x).Ok? && PushFree(AddItem(c, x).value)
  {
    match c
    case Arr(items, ex) =>
      PushFreeAppend(c, x);
    case Obj(fs) =>
      var w := WrapLast(fs);
      PushFreeWrapLast(fs);
      if FirstArray(w).Some? {
        var j := FirstArray(w).value;
        PushFreeAppend(w[j].val, x);
        PushFreePushAt(w, j, x);
      }
  }

  lemma PushFreeAppend(a: Val, x: Val)
    requires a.Arr? && PushFree(a) && PushFree(x)
    ensures PushFree(Arr(a.items + [x], a.extras))
  {
    var items := a.items + [x];
    assert forall i :: 0 <= i < |items| ==> PushFree(items[i]);
  }

  lemma PushFreePushAt(w: seq<Entry>, j: nat, x: Val)
    requires j < |w| && w[j].val.Arr?
    requires forall i :: 0 <= i < |w| ==> PushFree(w[i].val)
    requires PushFree(Arr(w[j].val.items + [x], w[j].val.extras))
    ensures forall i :: 0 <= i < |w| ==> PushFree(PushAt(w, j, x)[i].val)
  {
  }

  lemma ItemValueClean(v: string)
    ensures PushFree(ItemValue(v))
  {
    var r := ItemValue(v);
    if r.Obj? {
      assert PushFree(r.fields[0].val);
    }
  }

  /** A line whose key is neither `length` nor `push`, read in a clean
      state, never throws and leaves the state clean. */
  lemma ApplyClean(e: Engine, kind: LineKind, indent: nat, nextIsItem: bool, root: Val, stack: seq<Frame>)
    requires Inv(State(root, stack)) && Clean(State(root, stack))
    requires kind.Pair? || kind.Opener? ==> kind.key != "length" && kind.key != "push"
    ensures var r := Apply(e, kind, indent, nextIsItem, root, stack);
      r.Ok? && Clean(r.value)
  {
    var top := stack[|stack| - 1];
    assert top.target.At?;
    var p := top.target.path;
    var current := Get(root, p).value;
    PushFreeGet(root, p);
    match kind
    case Item(v) =>
      ItemValueClean(v);
      AddItemClean(current, ItemValue(v));
      PushFreeSetAt(root, p, AddItem(current, ItemValue(v)).value);
    case Pair(k, v) =>
      if v == "" {
        var made := if nextIsItem then Arr([], []) else Obj([]);
        PushFreeSetProp(current, k, made);
        PushFreeSetAt(root, p, SetProp(current, k, made));
        CleanPush(root, stack, Frame(At(p + [K(k)]), indent), SetAt(root, p, SetProp(current, k, made)));
      } else {
        PushFreeSetProp(current, k, Scalar(e, v));
        PushFreeSetAt(root, p, SetProp(current, k, Scalar(e, v)));
      }
    case Opener(k) =>
      PushFreeSetProp(current, k, Obj([]));
      PushFreeSetAt(root, p, SetProp(current, k, Obj([])));
      CleanPush(root, stack, Frame(At(p + [K(k)]), indent), SetAt(root, p, SetProp(current, k, Obj([]))));
    case Ignored =>
  }

  lemma CleanPush(root: Val, stack: seq<Frame>, f: Frame, root': Val)
    requires Clean(State(root, stack)) && f.target.At? && PushFree(root')
    ensures Clean(State(root', stack + [f]))
  {
    var s := stack + [f];
    assert forall k :: 0 <= k < |stack| ==> s[k] == stack[k];
  }

  lemma LineStepClean(e: Engine, lines: seq<string>, i: nat, st: State)
    requires i < |lines| && Inv(st) && Clean(st) && FaultFreeLine(lines[i])
    ensures LineStep(e, lines, i, st).Ok? && Clean(LineStep(e, lines, i, st).value)
  {
    var t := Trim(lines[i]);
    if !Skipped(t) {
      var indent := Span(lines[i], IsJsSpace);
      PopKeepsInv(st, indent);
      PopClean(st, indent);
      var stack := PopFrames(st.stack, indent);
      var nextIsItem := i + 1 < |lines| && StartsWith(Trim(lines[i + 1]), "- ");
      var kind := Classify(t);
      assert kind.Pair? || kind.Opener? ==> kind.key != "length" && kind.key != "push";
      ApplyClean(e, kind, indent, nextIsItem, st.root, stack);
      assert LineStep(e, lines, i, st) == Apply(e, kind, indent, nextIsItem, st.root, stack);
    }
  }

  lemma PopClean(st: State, indent: int)
    requires |st.stack| >= 1 && Clean(st)
    ensures Clean(State(st.root, PopFrames(st.stack, indent)))
  {
    var r := PopFrames(st.stack, indent);
    assert forall k :: 0 <= k < |r| ==> r[k] == st.stack[k];
  }

  lemma RunClean(e: Engine, lines: seq<string>, i: nat, st: State)
    requires i <= |lines| && Inv(st) && Clean(st)
    requires forall j :: i <= j < |lines| ==> FaultFreeLine(lines[j])
    ensures Run(e, lines, i, st).Ok?
  {
    var j, s := i, st;
    while j < |lines|
      invariant i <= j <= |lines| && Inv(s) && Clean(s)
      invariant Run(e, lines, i, st) == Run(e, lines, j, s)
      decreases |lines| - j
    {
      RunCleanStep(e, lines, j, s);
      j, s := j + 1, LineStep(e, lines, j, s).value;
    }
    RunEnd(e, lines, s);
  }

  /** One clean line of the run. */
  lemma RunCleanStep(e: Engine, lines: seq<string>, i: nat, st: State)
    requires i < |lines| && Inv(st) && Clean(st) && FaultFreeLine(lines[i])
    ensures var next := LineStep(e, lines, i, st);
      && next.Ok? && Inv(next.value) && Clean(next.value)
      && Run(e, lines, i, st) == Run(e, lines, i + 1, next.value)
  {
    LineStepClean(e, lines, i, st);
    RunStep(e, lines, i, st);
  }

  /** The reader throws only through a key `length` or `push`: a text none
      of whose pair or opener lines has such a key always reads. */
  lemma ReadsWithoutFault(e: Engine, text: string)
    requires forall line :: line in Split(text, "\n") ==> FaultFreeLine(line)
    ensures ParseYamlSpec(e, text).Ok?
  {
    var lines := Split(text, "\n");
    StartInv();
    assert Clean(Start) by {
      assert PushFree(Obj([]));
    }
    forall j | 0 <= j < |lines| ensures FaultFreeLine(lines[j]) {
      assert lines[j] in lines;
    }
    RunClean(e, lines, 0, Start);
  }
}
