/** The imperative reader: `parseYaml` with its loops, each proved to compute
    the corresponding function of `YamlParse`. */
module YamlReader {
  import opened Text
  import opened Values
  import opened Detect
  import opened YamlParse
  import opened Js

  /** The keys that pair and opener lines write are ordinary property names. */
  predicate LineKeyOrdinary(e: Engine, line: string)
  {
    var t := Trim(line);
    Skipped(t) || match Classify(t)
      case Pair(k, _) => OrdinaryKey(e, k)
      case Opener(k) => OrdinaryKey(e, k)
      case _ => true
  }

  predicate KeysOrdinary(e: Engine, text: string)
  {
    forall line :: line in Split(text, "\n") ==> LineKeyOrdinary(e, line)
  }

  /** The popping loop (script.js:440-442). */
  method Pop(stack: seq<Frame>, indent: int) returns (r: seq<Frame>)
    requires |stack| >= 1
    ensures r == PopFrames(stack, indent)
  {
    r := stack;
    while |r| > 1 && indent <= r[|r| - 1].indent
      invariant 1 <= |r|
      invariant PopFrames(r, indent) == PopFrames(stack, indent)
    {
      r := r[..|r| - 1];
    }
  }

  /** The `for..in` search of script.js:464-469 and 477-482 for the first
      key holding an array. */
  method FindArray(fs: seq<Entry>) returns (r: Option<nat>)
    ensures r == FirstArray(fs)
  {
    var j := 0;
    while j < |fs|
      invariant 0 <= j <= |fs|
      invariant forall m :: 0 <= m < j ==> !fs[m].val.Arr?
    {
      if fs[j].val.Arr? {
        return Some(j);
      }
      j := j + 1;
    }
    return None;
  }

  /** A `- value` line on the current container `c` (script.js:446-478). */
  method AddItemTo(c: Val, x: Val) returns (r: Outcome<Val>)
    requires IsContainer(c)
    ensures r == AddItem(c, x)
  {
    if c.Arr? {
      if Lookup(c.extras, "push").Some? {
        return Fail(TypeError);
      }
      return Ok(Arr(c.items + [x], c.extras));
    }
    var fs := WrapLast(c.fields);
    var found := FindArray(fs);
    match found
    case None => r := Ok(Obj(fs));
    case Some(j) =>
      if Lookup(fs[j].val.extras, "push").Some? {
        r := Fail(TypeError);
      } else {
        r := Ok(Obj(PushAt(fs, j, x)));
      }
  }

  /** `current[key] = x` through the top frame's reference (script.js:519):
      lost on a primitive, a `TypeError` on `undefined`. */
  method Assign(e: Engine, root: Val, stack: seq<Frame>, key: string, x: Val) returns (r: Outcome<State>)
    requires Inv(State(root, stack))
    ensures var top := stack[|stack| - 1];
      && (top.target.Undef? ==> r == Fail(TypeError))
      && (top.target.Prim? ==> r == Ok(State(root, stack)))
      && (top.target.At? ==>
            var p := top.target.path;
            var w := WriteProp(e, Get(root, p).value, key, x);
            r == if w.Ok? then Ok(State(SetAt(root, p, w.value), stack)) else Fail(w.why))
  {
    var top := stack[|stack| - 1];
    match top.target
    case Undef => r := Fail(TypeError);
    case Prim(_) => r := Ok(State(root, stack));
    case At(p) =>
      var w := WriteProp(e, Get(root, p).value, key, x);
      if w.Fail? {
        return Fail(w.why);
      }
      r := Ok(State(SetAt(root, p, w.value), stack));
  }

  /** `current[key] = made; stack.push({obj: current[key], indent})`
      through the top frame's reference (script.js:494-500, 527-531). */
  method OpenKey(e: Engine, root: Val, stack: seq<Frame>, key: string, made: Val, indent: nat) returns (r: Outcome<State>)
    requires Inv(State(root, stack))
    ensures var top := stack[|stack| - 1];
      && (top.target.Undef? ==> r == Fail(TypeError))
      && (top.target.Prim? ==> r == Ok(State(root, stack + [Frame(ReadTarget(top.target.v, key), indent)])))
      && (top.target.At? ==> r == Open(e, root, stack, key, made, indent))
  {
    var top := stack[|stack| - 1];
    match top.target
    case Undef => r := Fail(TypeError);
    case Prim(v) =>
      var read := ReadProp(v, key);
      var t := if read.Some? then Prim(read.value) else Undef;
      r := Ok(State(root, stack + [Frame(t, indent)]));
    case At(p) =>
      var current := Get(root, p).value;
      var w := WriteProp(e, current, key, made);
      if w.Fail? {
        return Fail(w.why);
      }
      var c := w.value;
      var t := if IsLength(current, key) then Prim(Num(NatToString(|c.items|))) else At(p + [K(key)]);
      r := Ok(State(SetAt(root, p, c), stack + [Frame(t, indent)]));
  }

  /** A `- value` line (script.js:446-489). */
  method ApplyItem(e: Engine, value: string, indent: nat, nextIsItem: bool, root: Val, stack: seq<Frame>)
    returns (r: Outcome<State>)
    requires Inv(State(root, stack))
    ensures r == Apply(e, Item(value), indent, nextIsItem, root, stack)
  {
    var top := stack[|stack| - 1];
    match top.target
    case Undef => r := Fail(TypeError);
    case Prim(_) => r := Ok(State(root, stack));
    case At(p) =>
      var c := AddItemTo(Get(root, p).value, ItemValue(value));
      if c.Fail? {
        return Fail(c.why);
      }
      r := Ok(State(SetAt(root, p, c.value), stack));
  }

  /** A `key: value` line (script.js:491-521). */
  method ApplyPair(e: Engine, key: string, value: string, indent: nat, nextIsItem: bool, root: Val, stack: seq<Frame>)
    returns (r: Outcome<State>)
    requires Inv(State(root, stack))
    ensures r == Apply(e, Pair(key, value), indent, nextIsItem, root, stack)
  {
    if value == "" && nextIsItem {
      r := OpenKey(e, root, stack, key, Arr([], []), indent);
    } else if value == "" {
      r := OpenKey(e, root, stack, key, Obj([]), indent);
    } else {
      r := Assign(e, root, stack, key, Scalar(e, value));
    }
  }

  /** What one line that is neither blank nor a comment does once the stack
      has been popped (script.js:444-533). */
  method ApplyLine(e: Engine, trimmed: string, indent: nat, nextIsItem: bool, root: Val, stack: seq<Frame>)
    returns (r: Outcome<State>)
    requires Inv(State(root, stack))
    ensures r == Apply(e, Classify(trimmed), indent, nextIsItem, root, stack)
  {
    if StartsWith(trimmed, "- ") {
      var value := Trim(trimmed[2..]);
      assert Classify(trimmed) == Item(value);
      r := ApplyItem(e, value, indent, nextIsItem, root, stack);
    } else if Contains(trimmed, ": ") {
      var parts := Split(trimmed, ": ");
      var key := Trim(parts[0]);
      var value := Trim(parts[1]);
      assert Classify(trimmed) == Pair(key, value);
      r := ApplyPair(e, key, value, indent, nextIsItem, root, stack);
    } else if EndsWith(trimmed, ":") {
      var key := Trim(trimmed[..|trimmed| - 1]);
      assert Classify(trimmed) == Opener(key);
      r := OpenKey(e, root, stack, key, Obj([]), indent);
    } else {
      r := Ok(State(root, stack));
    }
  }

  /** The loop body for line `i` (script.js:431-534). */
  method ReadLine(e: Engine, lines: seq<string>, i: nat, root: Val, stack: seq<Frame>)
    returns (r: Outcome<State>)
    requires i < |lines| && Inv(State(root, stack))
    ensures r == LineStep(e, lines, i, State(root, stack))
  {
    var line := lines[i];
    var trimmed := Trim(line);
    if trimmed == "" || StartsWith(trimmed, "#") {
      return Ok(State(root, stack));
    }
    var indent := Span(line, IsJsSpace);
    var popped := Pop(stack, indent);
    PopKeepsInv(State(root, stack), indent);
    var nextIsItem := i + 1 < |lines| && StartsWith(Trim(lines[i + 1]), "- ");
    r := ApplyLine(e, trimmed, indent, nextIsItem, root, popped);
  }

  /** `parseYaml(yamlText)`: the result, or the fault it throws. */
  method ParseYaml(e: Engine, text: string) returns (r: Outcome<Val>)
    requires KeysOrdinary(e, text)
    ensures r == ParseYamlSpec(e, text)
  {
    var lines := Split(text, "\n");
    var root := Obj([]);
    var stack := [RootFrame];
    StartInv();
    ParseOfRun(e, text);
    ghost var run := Run(e, lines, 0, Start);
    var i := 0;
    while i < |lines|
      invariant 0 <= i <= |lines|
      invariant Inv(State(root, stack))
      invariant Run(e, lines, i, State(root, stack)) == run
    {
      var next := ReadLine(e, lines, i, root, stack);
      RunOfLine(e, lines, i, State(root, stack));
      if next.Fail? {
        return Fail(next.why);
      }
      root, stack := next.value.root, next.value.stack;
      i := i + 1;
    }
    return Ok(root);
  }

  /** What the reader returns, in terms of the run of its loop. */
  lemma ParseOfRun(e: Engine, text: string)
    ensures Inv(Start)
    ensures var run := Run(e, Split(text, "\n"), 0, Start);
      && (run.Fail? ==> ParseYamlSpec(e, text) == Fail(run.why))
      && (run.Ok? ==> ParseYamlSpec(e, text) == Ok(run.value.root))
  {
    StartInv();
  }

  /** One turn of the loop: a line that throws ends the run with its fault;
      otherwise the run goes on from the next state. */
  lemma RunOfLine(e: Engine, lines: seq<string>, i: nat, st: State)
    requires i < |lines| && Inv(st)
    ensures var next := LineStep(e, lines, i, st);
      && (next.Fail? ==> Run(e, lines, i, st) == Fail(next.why))
      && (next.Ok? ==> Inv(next.value) && Run(e, lines, i, st) == Run(e, lines, i + 1, next.value))
  {
    LineStepKeepsInv(e, lines, i, st);
  }
}
