/** The structural validators (`validateYaml`, script.js:293-331;
    `validateToml`, script.js:333-367) and the decision logic of
    `validateInput` (script.js:208-291), without its status-line writes. */
module Validate {
  import opened Text
  import opened Values
  import opened Patterns
  import opened Detect
  import Js

  /** One of the eight patterns of `validateYaml`, tested on the raw line. */
  predicate YamlLineShape(line: string)
  {
    || DashKeyValue(line)
    || DashKeyOpen(line)
    || DashItem(line)
    || DashAlone(line)
    || HashAfterSpace(line)
    || AllSpace(line)
    || IndentedKeyValue(line)
    || IndentedItem(line)
  }

  /** One of the six patterns of `validateToml`, tested on the trimmed line. */
  predicate TomlLineShape(t: string)
  {
    || WordAssign(t, ValidatorValueStart)
    || TableHeader(t)
    || ArrayTableHeader(t)
    || StartsWith(t, "#")
    || QuotedKeyAssign(t, '"')
    || QuotedKeyAssign(t, '\'')
  }

  predicate YamlLineAccepted(line: string)
  {
    Skipped(Trim(line)) || YamlLineShape(line)
  }

  predicate TomlLineAccepted(line: string)
  {
    Skipped(Trim(line)) || TomlLineShape(Trim(line))
  }

  /** The loop shared by both validators: it returns `false` at the first
      line that is not accepted, and `true` once every line has been seen.
      A line is accepted when it is skipped or matches a pattern, so a
      skipped line never stops the loop. */
  function CheckLines(lines: seq<string>, accepted: string -> bool): bool
  {
    if lines == [] then true
    else if !accepted(lines[0]) then false
    else CheckLines(lines[1..], accepted)
  }

  /** `validateYaml(text)` */
  function ValidateYaml(text: string): bool
  {
    CheckLines(Split(text, "\n"), YamlLineAccepted)
  }

  /** `validateToml(text)` */
  function ValidateToml(text: string): bool
  {
    CheckLines(Split(text, "\n"), TomlLineAccepted)
  }

  lemma {:induction false} CheckLinesIff(lines: seq<string>, accepted: string -> bool)
    ensures CheckLines(lines, accepted) <==> forall i :: 0 <= i < |lines| ==> accepted(lines[i])
  {
    if lines != [] {
      CheckLinesIff(lines[1..], accepted);
      assert forall i :: 1 <= i < |lines| ==> lines[i] == lines[1..][i - 1];
    }
  }

  /** `validateYaml` accepts a text exactly when every line that is not blank
      or a comment, taken as it stands, matches one of its patterns. */
  lemma ValidateYamlIff(text: string, lines: seq<string>)
    requires lines == Split(text, "\n")
    ensures ValidateYaml(text) <==> forall i :: 0 <= i < |lines| ==> YamlLineAccepted(lines[i])
  {
    CheckLinesIff(lines, YamlLineAccepted);
  }

  /** `validateToml` accepts a text exactly when every line that is not blank
      or a comment matches one of its patterns once trimmed. */
  lemma ValidateTomlIff(text: string, lines: seq<string>)
    requires lines == Split(text, "\n")
    ensures ValidateToml(text) <==> forall i :: 0 <= i < |lines| ==> TomlLineAccepted(lines[i])
  {
    CheckLinesIff(lines, TomlLineAccepted);
  }

  lemma IsWordHasNoNewline(k: string)
    requires IsWord(k)
    ensures '\n' !in k
  {
    assert forall i :: 0 <= i < |k| ==> k[i] != '\n';
  }

  /** A one-line text is accepted exactly when its only line is. */
  lemma OneLine(line: string, accepted: string -> bool)
    requires '\n' !in line
    ensures CheckLines(Split(line, "\n"), accepted) == accepted(line)
  {
    NotContainsHead(line, "\n");
    SplitNone(line, "\n");
  }

  /** A line that starts with a word character and is not blank after
      trimming is neither skipped nor a header, a comment or a quoted key. */
  lemma WordStartNotOtherShape(t: string)
    requires t != [] && IsWordChar(t[0])
    ensures !TableHeader(t) && !ArrayTableHeader(t) && !StartsWith(t, "#")
    ensures !QuotedKeyAssign(t, '"') && !QuotedKeyAssign(t, '\'')
  {
    WordStartNotSkipped(t);
  }

  /** After the key, ` = v` with `v` opening on a non-space character is
      accepted exactly when that character may open a value. */
  lemma AssignTailSpaced(value: string, start: char -> bool)
    requires value != [] && !IsJsSpace(value[0])
    ensures AssignTail(" = " + value, start) == start(value[0])
  {
    var rest := " = " + value;
    assert rest == " " + ("= " + value);
    SpanAfter(" ", "= " + value, IsJsSpace);
    var after := rest[2..];
    assert after == " " + value;
    SpanAfter(" ", value, IsJsSpace);
  }

  /** The line `key = value` has nothing to trim and is not skipped. */
  lemma AssignLineTrimmed(key: string, value: string, line: string)
    requires IsWord(key)
    requires value != [] && IsTrimmed(value)
    requires line == key + " = " + value
    ensures IsTrimmed(line) && !Skipped(line)
  {
    ConcatTrimmed(key + " = ", value);
    WordStartNotSkipped(line);
  }

  /** ... and it is an assignment exactly when the value opens as one may. */
  lemma AssignLineShape(key: string, value: string, line: string)
    requires IsWord(key)
    requires value != [] && IsTrimmed(value)
    requires line == key + " = " + value
    ensures TomlLineShape(line) <==> ValidatorValueStart(value[0])
  {
    assert line == key + (" = " + value);
    WordStartNotOtherShape(line);
    SpanAfter(key, " = " + value, IsWordChar);
    assert line[|key|..] == " = " + value;
    AssignTailSpaced(value, ValidatorValueStart);
  }

  lemma AssignLineOneLine(key: string, value: string, line: string)
    requires IsWord(key) && '\n' !in value
    requires line == key + " = " + value
    ensures ValidateToml(line) <==> TomlLineAccepted(line)
  {
    IsWordHasNoNewline(key);
    assert " = " == [' ', '=', ' '];
    OneLine(line, TomlLineAccepted);
  }

  /** A key followed by ` = ` and a value that opens with anything but a
      quote, a digit, `[`, `{` or `-` matches no TOML pattern. */
  lemma AssignRejected(key: string, value: string)
    requires IsWord(key)
    requires value != [] && IsTrimmed(value) && '\n' !in value
    requires !ValidatorValueStart(value[0])
    ensures !ValidateToml(key + " = " + value)
  {
    var line := key + " = " + value;
    AssignLineOneLine(key, value, line);
    AssignLineTrimmed(key, value, line);
    TrimOfTrimmed(line);
    AssignLineShape(key, value, line);
  }

  /** A bare boolean is rejected: `flag = false` matches no TOML pattern. */
  lemma BareBooleanRejected(key: string, word: string)
    requires IsWord(key)
    requires word == "true" || word == "false"
    ensures !ValidateToml(key + " = " + word)
  {
    AssignRejected(key, word);
  }

  /** A dotted key is rejected: `a.b = 1` matches no TOML pattern, because
      the key of an assignment is `\w+`. */
  lemma DottedKeyRejected(a: string, b: string, value: string)
    requires IsWord(a) && IsWord(b)
    requires value != [] && IsTrimmed(value) && '\n' !in value
    ensures !ValidateToml(a + "." + b + " = " + value)
  {
    var rest := "." + b + " = " + value;
    var line := a + rest;
    assert line == a + "." + b + " = " + value;
    DottedLineTrimmed(a, rest, line);
    DottedLineShape(a, rest, line);
    DottedOneLine(a, b, value, rest);
  }

  lemma DottedLineTrimmed(a: string, rest: string, line: string)
    requires IsWord(a) && rest != [] && IsTrimmed(rest)
    requires line == a + rest
    ensures Trim(line) == line
  {
    ConcatTrimmed(a, rest);
    TrimOfTrimmed(line);
  }

  /** A word followed by `.` is no TOML line shape. */
  lemma DottedLineShape(a: string, rest: string, line: string)
    requires IsWord(a) && rest != [] && rest[0] == '.'
    requires line == a + rest
    ensures !TomlLineShape(line)
  {
    WordStartNotOtherShape(line);
    SpanAfter(a, rest, IsWordChar);
    assert line[|a|..] == rest;
    SpanAfter([], rest, IsJsSpace);
  }

  lemma DottedOneLine(a: string, b: string, value: string, rest: string)
    requires IsWord(a) && IsWord(b) && '\n' !in value
    requires rest == "." + b + " = " + value
    ensures ValidateToml(a + rest) <==> TomlLineAccepted(a + rest)
  {
    IsWordHasNoNewline(a);
    IsWordHasNoNewline(b);
    assert '\n' !in "." && '\n' !in " = ";
    OneLine(a + rest, TomlLineAccepted);
  }

  /** The format selector: `'auto'` or one of the four formats. */
  datatype Declared = Auto | Chosen(format: Format)

  /** The errors a format check throws (script.js:239, 250, 257, 267); the
      message of a failed `JSON.parse` is the engine's own. */
  datatype Reason = JsonSyntax | BadYamlStructure | MissingTag | BadXmlStructure | BadTomlStructure

  /** What `validateInput` reports: `true` for `Accepted`, and `false` with
      the status line "No input data", "Unknown format" or "Invalid ...". */
  datatype Status = Accepted(format: Format) | NoInput | UnknownFormat | Rejected(format: Format, reason: Reason)

  /** The format `validateInput` and the conversion work with. */
  function Resolve(e: Js.Engine, raw: string, declared: Declared): Detected
  {
    match declared
    case Auto => DetectFormat(e, Trim(raw))
    case Chosen(f) => Known(f)
  }

  /** The check of one format on the trimmed input, `None` when it passes. */
  function FormatProblem(e: Js.Engine, f: Format, data: string): Option<Reason>
  {
    match f
    case Json => if e.jsonParse(data).None? then Some(JsonSyntax) else None
    case Yaml => if !ValidateYaml(data) then Some(BadYamlStructure) else None
    case Xml =>
      if !StartsWith(data, "<?xml") && !StartsWith(data, "<") then Some(MissingTag)
      else if e.xmlRejected(data) then Some(BadXmlStructure)
      else None
    case Toml => if !ValidateToml(data) then Some(BadTomlStructure) else None
  }

  /** `validateInput()` on the text area's content `raw` and the selector. */
  function ValidateInput(e: Js.Engine, raw: string, declared: Declared): (r: Status)
    ensures r == NoInput <==> AllSpace(raw)
    ensures r == UnknownFormat ==> declared == Auto
    ensures r.Accepted? || r.Rejected? ==> Resolve(e, raw, declared) == Known(r.format)
  {
    TrimEmptyIffAllSpace(raw);
    var data := Trim(raw);
    if data == "" then NoInput
    else
      match Resolve(e, raw, declared)
      case Unknown => UnknownFormat
      case Known(f) =>
        match FormatProblem(e, f, data)
        case None => Accepted(f)
        case Some(why) => Rejected(f, why)
  }

  /** What each format demands of the trimmed input, stated line by line. */
  predicate Conforms(e: Js.Engine, f: Format, data: string)
  {
    match f
    case Json => e.jsonParse(data).Some?
    case Yaml => forall i :: 0 <= i < |Split(data, "\n")| ==> YamlLineAccepted(Split(data, "\n")[i])
    case Xml => StartsWith(data, "<") && !e.xmlRejected(data)
    case Toml => forall i :: 0 <= i < |Split(data, "\n")| ==> TomlLineAccepted(Split(data, "\n")[i])
  }

  /** The XML check's first test, "neither `<?xml` nor `<`", is just "not `<`". */
  lemma XmlPrefixTest(data: string)
    ensures (!StartsWith(data, "<?xml") && !StartsWith(data, "<")) <==> !StartsWith(data, "<")
  {
    if StartsWith(data, "<?xml") {
      assert data[..1] == data[..5][..1];
    }
  }

  lemma FormatProblemIff(e: Js.Engine, f: Format, data: string)
    ensures FormatProblem(e, f, data).None? <==> Conforms(e, f, data)
  {
    match f
    case Json =>
    case Yaml => ValidateYamlIff(data, Split(data, "\n"));
    case Xml => XmlPrefixTest(data);
    case Toml => ValidateTomlIff(data, Split(data, "\n"));
  }

  /** The input is accepted as `f` exactly when it is not blank, the selector
      (or, on `auto`, the detector) names `f`, and the trimmed input conforms to `f`. */
  lemma AcceptedIff(e: Js.Engine, raw: string, declared: Declared, f: Format)
    ensures ValidateInput(e, raw, declared) == Accepted(f) <==>
      !AllSpace(raw) && Resolve(e, raw, declared) == Known(f) && Conforms(e, f, Trim(raw))
  {
    FormatProblemIff(e, f, Trim(raw));
  }

  /** On `auto`, text detected as JSON or XML always passes validation: the
      detector already ran the same parser on the same text. */
  lemma DetectedJsonXmlAccepted(e: Js.Engine, raw: string, f: Format)
    requires f == Json || f == Xml
    requires DetectFormat(e, Trim(raw)) == Known(f)
    ensures ValidateInput(e, raw, Auto) == Accepted(f)
  {
    var data := Trim(raw);
    TrimOfTrimmed(data);
    ProbesDecide(e, data);
    assert data != "";
    if f == Xml {
      XmlPrefixTest(data);
    }
    PassesWhenProbed(e, f, data);
    AcceptedWhenPasses(e, raw, Auto, f);
  }

  lemma PassesWhenProbed(e: Js.Engine, f: Format, data: string)
    requires f == Json ==> e.jsonParse(data).Some?
    requires f == Xml ==> StartsWith(data, "<") && !e.xmlRejected(data)
    requires f == Json || f == Xml
    ensures FormatProblem(e, f, data) == None
  {
  }

  lemma AcceptedWhenPasses(e: Js.Engine, raw: string, declared: Declared, f: Format)
    requires Trim(raw) != ""
    requires Resolve(e, raw, declared) == Known(f)
    requires FormatProblem(e, f, Trim(raw)) == None
    ensures ValidateInput(e, raw, declared) == Accepted(f)
  {
  }
}
