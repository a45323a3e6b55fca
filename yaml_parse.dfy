/** The YAML reader (`parseYaml`, script.js:426-536): a single pass over the
    lines with a stack of open containers, each remembered with the
    indentation of the line that opened it.

    The source keeps references to the open containers; here a frame holds
    what its reference denotes: the path from the result to a container, a
    primitive read out of the result, or `undefined`. The paths agree with
    the references because every write goes into the container of the
    topmost frame or into one of its direct children, and no frame above
    the top stands for such a child (a line pops every frame whose
    indentation is not smaller than its own before it writes). A frame
    points at a primitive only after a line named an array's `length`,
    which reads back as a number. */
module YamlParse {
  import opened Text
  import opened Values
  import opened Detect
  import opened Js

  /** What a line that is neither blank nor a comment is, read from its
      trimmed text in the order the source tests it. */
  datatype LineKind =
    | Item(value: string)               // `- value`
    | Pair(key: string, value: string)  // `key: value`
    | Opener(key: string)               // `key:`
    | Ignored                           // anything else

  function Classify(t: string): (r: LineKind)
    ensures r.Item? <==> StartsWith(t, "- ")
    ensures r.Pair? <==> !StartsWith(t, "- ") && Contains(t, ": ")
    ensures r.Opener? <==> !StartsWith(t, "- ") && !Contains(t, ": ") && EndsWith(t, ":")
  {
    if StartsWith(t, "- ") then Item(Trim(t[2..]))
    else if Contains(t, ": ") then
      var parts := Split(t, ": ");
      Pair(Trim(parts[0]), Trim(parts[1]))
    else if EndsWith(t, ":") then Opener(Trim(t[..|t| - 1]))
    else Ignored
  }

  /** An open container: what the frame's reference denotes, and the
      indentation of the line that opened it (`-1` for the result itself). */
  datatype Frame = Frame(target: Target, indent: int)

  /** The result built so far and the stack of open containers. */
  datatype State = State(root: Val, stack: seq<Frame>)

  const RootFrame := Frame(At([]), -1)

  const Start := State(Obj([]), [RootFrame])

  /** The stack invariant: the result's own frame stays at the bottom,
      indentations strictly increase upwards, the frames with a path reach
      containers, sit on frames with a path and extend the paths below
      them, and the result is an object with no repeated keys anywhere. */
  predicate Inv(st: State)
  {
    && |st.stack| >= 1
    && st.stack[0] == RootFrame
    && st.root.Obj?
    && WellFormed(st.root)
    && (forall k :: 0 <= k < |st.stack| && st.stack[k].target.At? ==> Reaches(st.root, st.stack[k].target.path))
    && (forall j, k :: 0 <= j < k < |st.stack| ==> st.stack[j].indent < st.stack[k].indent)
    && (forall j, k :: 0 <= j < k < |st.stack| && st.stack[k].target.At? ==>
          st.stack[j].target.At? && st.stack[j].target.path < st.stack[k].target.path)
  }

  /** The popping loop (script.js:440-442): drop frames while more than one
      is left and the top one is indented at least as deeply as the line. */
  function PopFrames(stack: seq<Frame>, indent: int): (r: seq<Frame>)
    requires |stack| >= 1
    ensures 1 <= |r| <= |stack| && r == stack[..|r|]
    ensures |r| == 1 || r[|r| - 1].indent < indent
    ensures |r| < |stack| ==> indent <= stack[|r|].indent
  {
    if |stack| > 1 && indent <= stack[|stack| - 1].indent then PopFrames(stack[..|stack| - 1], indent)
    else stack
  }

  /** The value a `key: value` line stores (script.js:501-520): the inside
      of a quoted value, a number, a boolean (compared case-insensitively),
      or the text as it is. */
  function Scalar(e: Engine, v: string): Val
  {
    if (StartsWith(v, "\"") && EndsWith(v, "\"")) || (StartsWith(v, "'") && EndsWith(v, "'")) then
      Str(JsSubstring(v, 1, |v| - 1))
    else if e.isNumeric(v) && Trim(v) != "" then Num(v)
    else if LowerAscii(v) == "true" || LowerAscii(v) == "false" then Bool(LowerAscii(v) == "true")
    else Str(v)
  }

  /** What a `- value` line appends (script.js:455-460, 474-475): a
      one-key object when the value holds `: `, else the value as a string. */
  function ItemValue(v: string): (r: Val)
    ensures WellFormed(r)
    ensures !Contains(v, ": ") ==> r == Str(v)
    ensures r.Str? || (r.Obj? && |r.fields| == 1 && r.fields[0].val.Str?)
  {
    if Contains(v, ": ") then
      var parts := Split(v, ": ");
      var fs := [Entry(Trim(parts[0]), Str(Trim(parts[1])))];
      assert Keys(fs) == [fs[0].key];
      Obj(fs)
    else Str(v)
  }

  /** `const key = Object.keys(current).pop(); if (key && !Array.isArray(current[key]))
      current[key] = [current[key]]` (script.js:447-453). */
  function WrapLast(fs: seq<Entry>): (r: seq<Entry>)
    ensures Keys(r) == Keys(fs)
  {
    if fs == [] then fs
    else
      var k := fs[|fs| - 1].key;
      assert Keys(fs)[|fs| - 1] == k;
      var prev := Lookup(fs, k).value;
      if k != "" && !prev.Arr? then Put(fs, k, Arr([prev], [])) else fs
  }

  /** The position the `for..in` search stops at: the first entry holding an array. */
  function FirstArray(fs: seq<Entry>): (r: Option<nat>)
    ensures r.None? <==> forall i :: 0 <= i < |fs| ==> !fs[i].val.Arr?
    ensures r.Some? ==> r.value < |fs| && fs[r.value].val.Arr?
    ensures r.Some? ==> forall i :: 0 <= i < r.value ==> !fs[i].val.Arr?
  {
    if fs == [] then None
    else if fs[0].val.Arr? then Some(0)
    else match FirstArray(fs[1..])
      case None => None
      case Some(j) => Some(j + 1)
  }

  /** `fs[j].val.push(x)` on the array held at position `j`. */
  function PushAt(fs: seq<Entry>, j: nat, x: Val): (r: seq<Entry>)
    requires j < |fs| && fs[j].val.Arr?
    ensures |r| == |fs| && Keys(r) == Keys(fs)
    ensures r[j].val == Arr(fs[j].val.items + [x], fs[j].val.extras)
    ensures forall i :: 0 <= i < |fs| && i != j ==> r[i] == fs[i]
  {
    fs[j := Entry(fs[j].key, Arr(fs[j].val.items + [x], fs[j].val.extras))]
  }

  /** The current container after a `- value` line (script.js:446-478): an
      array takes the item; an object first has its last key's value
      wrapped in an array unless it is one already, and then its first
      array-valued key takes the item; with no such key it is dropped. The
      `push` call throws a `TypeError` when the array it is made on owns a
      `push` of its own, which an earlier `push: ...` line wrote and which
      is never a function. */
  function AddItem(c: Val, x: Val): (r: Outcome<Val>)
    ensures r.Fail? ==> r == Fail(TypeError)
    ensures c.Arr? ==> (r.Fail? <==> Lookup(c.extras, "push").Some?)
    ensures c.Arr? && r.Ok? ==> r.value == Arr(c.items + [x], c.extras)
    ensures r.Ok? ==> r.value.Obj? == c.Obj? && r.value.Arr? == c.Arr?
  {
    match c
    case Arr(items, ex) => if Lookup(ex, "push").Some? then Fail(TypeError) else Ok(Arr(items + [x], ex))
    case Obj(fs) =>
      var w := WrapLast(fs);
      (match FirstArray(w)
       case None => Ok(Obj(w))
       case Some(j) =>
         if Lookup(w[j].val.extras, "push").Some? then Fail(TypeError) else Ok(Obj(PushAt(w, j, x))))
    case _ => Ok(c)
  }

  /** What the reference `current[key]` denotes when `current` is the
      primitive `v`. */
  function ReadTarget(v: Val, k: string): (r: Target)
    ensures r.Prim? <==> ReadProp(v, k).Some?
  {
    match ReadProp(v, k)
    case Some(x) => Prim(x)
    case None => Undef
  }

  /** `current[key] = made; stack.push({obj: current[key], indent})` on the
      container of the top frame (script.js:494-500, 527-531): the write,
      and a frame for what the key reads afterwards, the new container,
      or, for an array's `length`, the number it now holds. */
  function Open(e: Engine, root: Val, stack: seq<Frame>, k: string, made: Val, indent: nat): (r: Outcome<State>)
    requires Inv(State(root, stack)) && stack[|stack| - 1].target.At?
  {
    var p := stack[|stack| - 1].target.path;
    var current := Get(root, p).value;
    match WriteProp(e, current, k, made)
    case Fail(f) => Fail(f)
    case Ok(c) =>
      var read := if IsLength(current, k) then Prim(Num(NatToString(|c.items|))) else At(p + [K(k)]);
      Ok(State(SetAt(root, p, c), stack + [Frame(read, indent)]))
  }

  /** One line that is neither blank nor a comment, once the stack has been
      popped to `stack` and the line's kind, indentation and whether the
      next line is an item are known (script.js:444-533). On a primitive
      every write is silently lost and an opened key reads the primitive's
      property; on `undefined` every line but an ignored one throws. */
  function Apply(e: Engine, kind: LineKind, indent: nat, nextIsItem: bool, root: Val, stack: seq<Frame>): (r: Outcome<State>)
    requires Inv(State(root, stack))
  {
    var top := stack[|stack| - 1];
    match top.target
    case Undef => if kind.Ignored? then Ok(State(root, stack)) else Fail(TypeError)
    case Prim(v) =>
      (match kind
       case Pair(k, x) =>
         if x == "" then Ok(State(root, stack + [Frame(ReadTarget(v, k), indent)])) else Ok(State(root, stack))
       case Opener(k) => Ok(State(root, stack + [Frame(ReadTarget(v, k), indent)]))
       case _ => Ok(State(root, stack)))
    case At(p) =>
      var current := Get(root, p).value;
      match kind
      case Item(v) =>
        (match AddItem(current, ItemValue(v))
         case Fail(f) => Fail(f)
         case Ok(c) => Ok(State(SetAt(root, p, c), stack)))
      case Pair(k, v) =>
        if v == "" then Open(e, root, stack, k, if nextIsItem then Arr([], []) else Obj([]), indent)
        else
          (match WriteProp(e, current, k, Scalar(e, v))
           case Fail(f) => Fail(f)
           case Ok(c) => Ok(State(SetAt(root, p, c), stack)))
      case Opener(k) => Open(e, root, stack, k, Obj([]), indent)
      case Ignored => Ok(State(root, stack))
  }

  /** The loop body for line `i` (script.js:431-534). */
  function LineStep(e: Engine, lines: seq<string>, i: nat, st: State): Outcome<State>
    requires i < |lines| && Inv(st)
  {
    var line := lines[i];
    var t := Trim(line);
    if Skipped(t) then Ok(st)
    else
      var indent := Span(line, IsJsSpace);
      var stack := PopFrames(st.stack, indent);
      PopKeepsInv(st, indent);
      var nextIsItem := i + 1 < |lines| && StartsWith(Trim(lines[i + 1]), "- ");
      Apply(e, Classify(t), indent, nextIsItem, st.root, stack)
  }

  /** The state after lines `i..` have been read from `st`, or the fault
      that ends the loop. */
  function Run(e: Engine, lines: seq<string>, i: nat, st: State): (r: Outcome<State>)
    requires i <= |lines| && Inv(st)
    ensures r.Ok? ==> Inv(r.value)
    decreases |lines| - i
  {
    if i == |lines| then Ok(st)
    else
      LineStepKeepsInv(e, lines, i, st);
      match LineStep(e, lines, i, st)
      case Fail(f) => Fail(f)
      case Ok(next) => Run(e, lines, i + 1, next)
  }

  /** `parseYaml(text)`, as a function of the text: the result, or the
      fault it throws. */
  function ParseYamlSpec(e: Engine, text: string): (r: Outcome<Val>)
    ensures r.Ok? ==> r.value.Obj? && WellFormed(r.value)
  {
    StartInv();
    match Run(e, Split(text, "\n"), 0, Start)
    case Fail(f) => Fail(f)
    case Ok(st) => Ok(st.root)
  }

  // ---- the stack invariant

  lemma StartInv()
    ensures Inv(Start)
  {
    assert Get(Obj([]), []) == Some(Obj([]));
  }

  lemma PopKeepsInv(st: State, indent: int)
    requires Inv(st)
    ensures Inv(State(st.root, PopFrames(st.stack, indent)))
  {
    var r := PopFrames(st.stack, indent);
    assert forall k :: 0 <= k < |r| ==> r[k] == st.stack[k];
  }

  /** Replacing the top frame's container by a well-formed one of the same
      kind keeps the invariant. */
  lemma ReplaceTopKeepsInv(root: Val, stack: seq<Frame>, c: Val)
    requires Inv(State(root, stack)) && stack[|stack| - 1].target.At?
    requires var cur := Get(root, stack[|stack| - 1].target.path).value;
      c.Obj? == cur.Obj? && c.Arr? == cur.Arr?
    requires WellFormed(c)
    ensures Inv(State(SetAt(root, stack[|stack| - 1].target.path, c), stack))
  {
    var p := stack[|stack| - 1].target.path;
    var root' := SetAt(root, p, c);
    forall k | 0 <= k < |stack| && stack[k].target.At?
      ensures Reaches(root', stack[k].target.path)
    {
      if k < |stack| - 1 {
        assert stack[k].target.path < p;
      }
      ReplaceReaches(root, p, stack[k].target.path, c);
    }
    SetAtWellFormed(root, p, c);
  }

  /** Pushing a frame above the top one by indentation keeps the invariant
      when it points at a primitive or `undefined`, or reaches a container
      along a path that extends the top frame's. */
  lemma PushedKeepsInv(root: Val, stack: seq<Frame>, f: Frame)
    requires Inv(State(root, stack))
    requires stack[|stack| - 1].indent < f.indent
    requires f.target.At? ==>
      && stack[|stack| - 1].target.At?
      && Reaches(root, f.target.path)
      && stack[|stack| - 1].target.path < f.target.path
    ensures Inv(State(root, stack + [f]))
  {
    var s := stack + [f];
    var n := |stack|;
    assert forall k :: 0 <= k < n ==> s[k] == stack[k];
    forall j | 0 <= j < n ensures s[j].indent < s[n].indent {
    }
    if f.target.At? {
      var q := stack[n - 1].target.path;
      forall j | 0 <= j < n ensures s[j].target.At? && s[j].target.path < f.target.path {
        if j < n - 1 {
          assert stack[j].target.path < q;
          assert stack[j].target.path == f.target.path[..|stack[j].target.path|];
        }
      }
    }
  }

  /** A line that opens a key under a primitive pushes a frame that is
      not a path. */
  lemma PushReadKeepsInv(root: Val, stack: seq<Frame>, t: Target, indent: int)
    requires Inv(State(root, stack)) && !t.At?
    requires stack[|stack| - 1].indent < indent
    ensures Inv(State(root, stack + [Frame(t, indent)]))
  {
    PushedKeepsInv(root, stack, Frame(t, indent));
  }

  /** Opening a key in the top frame's container keeps the invariant. */
  lemma OpenKeepsInv(e: Engine, root: Val, stack: seq<Frame>, k: string, made: Val, indent: nat)
    requires Inv(State(root, stack)) && stack[|stack| - 1].target.At?
    requires (made == Arr([], []) || made == Obj([])) && stack[|stack| - 1].indent < indent
    ensures Open(e, root, stack, k, made, indent).Ok? ==> Inv(Open(e, root, stack, k, made, indent).value)
  {
    var top := stack[|stack| - 1];
    var p := top.target.path;
    var current := Get(root, p).value;
    var w := WriteProp(e, current, k, made);
    if w.Ok? {
      var c := w.value;
      GetWellFormed(root, p);
      WritePropWellFormed(e, current, k, made);
      ReplaceTopKeepsInv(root, stack, c);
      var root' := SetAt(root, p, c);
      if IsLength(current, k) {
        PushReadKeepsInv(root', stack, Prim(Num(NatToString(|c.items|))), indent);
      } else {
        SetPropReaches(root, p, k, made);
        PushedKeepsInv(root', stack, Frame(At(p + [K(k)]), indent));
      }
    }
  }

  lemma PushAtWellFormed(fs: seq<Entry>, j: nat, x: Val)
    requires j < |fs| && fs[j].val.Arr?
    requires forall i :: 0 <= i < |fs| ==> WellFormed(fs[i].val)
    requires WellFormed(x)
    ensures forall i :: 0 <= i < |fs| ==> WellFormed(PushAt(fs, j, x)[i].val)
  {
    var a := fs[j].val;
    var items := a.items + [x];
    assert forall i :: 0 <= i < |items| ==> WellFormed(items[i]) by {
      assert forall i :: 0 <= i < |a.items| ==> items[i] == a.items[i];
    }
    assert WellFormed(Arr(items, a.extras));
  }

  lemma WrapLastWellFormed(fs: seq<Entry>)
    requires forall i :: 0 <= i < |fs| ==> WellFormed(fs[i].val)
    ensures forall i :: 0 <= i < |WrapLast(fs)| ==> WellFormed(WrapLast(fs)[i].val)
  {
    if fs != [] {
      var k := fs[|fs| - 1].key;
      assert Keys(fs)[|fs| - 1] == k;
      LookupWellFormed(fs, k);
      var prev := Lookup(fs, k).value;
      if k != "" && !prev.Arr? {
        assert WellFormed(Arr([prev], []));
        PutWellFormed(fs, k, Arr([prev], []));
      }
    }
  }

  lemma AddItemWellFormed(c: Val, x: Val)
    requires WellFormed(c) && WellFormed(x) && AddItem(c, x).Ok?
    ensures WellFormed(AddItem(c, x).value)
  {
    match c
    case Arr(items, ex) =>
      assert forall i :: 0 <= i < |items| ==> (items + [x])[i] == items[i];
    case Obj(fs) =>
      var w := WrapLast(fs);
      WrapLastWellFormed(fs);
      if FirstArray(w).Some? {
        PushAtWellFormed(w, FirstArray(w).value, x);
      }
    case _ =>
  }

  lemma ApplyKeepsInv(e: Engine, kind: LineKind, indent: nat, nextIsItem: bool, root: Val, stack: seq<Frame>)
    requires Inv(State(root, stack))
    requires stack[|stack| - 1].indent < indent
    ensures Apply(e, kind, indent, nextIsItem, root, stack).Ok? ==> Inv(Apply(e, kind, indent, nextIsItem, root, stack).value)
  {
    var top := stack[|stack| - 1];
    match top.target
    case Undef =>
    case Prim(v) =>
      match kind {
        case Pair(k, x) =>
          if x == "" {
            PushReadKeepsInv(root, stack, ReadTarget(v, k), indent);
          }
        case Opener(k) =>
          PushReadKeepsInv(root, stack, ReadTarget(v, k), indent);
        case _ =>
      }
    case At(p) =>
      var current := Get(root, p).value;
      GetWellFormed(root, p);
      match kind
      case Item(v) =>
        if AddItem(current, ItemValue(v)).Ok? {
          AddItemWellFormed(current, ItemValue(v));
          ReplaceTopKeepsInv(root, stack, AddItem(current, ItemValue(v)).value);
        }
      case Pair(k, v) =>
        if v == "" {
          OpenKeepsInv(e, root, stack, k, if nextIsItem then Arr([], []) else Obj([]), indent);
        } else if WriteProp(e, current, k, Scalar(e, v)).Ok? {
          WritePropWellFormed(e, current, k, Scalar(e, v));
          ReplaceTopKeepsInv(root, stack, WriteProp(e, current, k, Scalar(e, v)).value);
        }
      case Opener(k) =>
        OpenKeepsInv(e, root, stack, k, Obj([]), indent);
      case Ignored =>
  }

  lemma LineStepKeepsInv(e: Engine, lines: seq<string>, i: nat, st: State)
    requires i < |lines| && Inv(st)
    ensures LineStep(e, lines, i, st).Ok? ==> Inv(LineStep(e, lines, i, st).value)
  {
    var line := lines[i];
    if !Skipped(Trim(line)) {
      var indent := Span(line, IsJsSpace);
      PopKeepsInv(st, indent);
      var stack := PopFrames(st.stack, indent);
      assert stack[|stack| - 1].indent < indent by {
        if |stack| == 1 {
          assert stack[0] == RootFrame;
        }
      }
      var nextIsItem := i + 1 < |lines| && StartsWith(Trim(lines[i + 1]), "- ");
      ApplyKeepsInv(e, Classify(Trim(line)), indent, nextIsItem, st.root, stack);
    }
  }
}
