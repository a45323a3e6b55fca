/** The format guesser (`detectFormat`, script.js:134-195): a JSON probe, an
    XML probe, and otherwise a per-line tally of YAML-looking against
    TOML-looking lines. */
module Detect {
  import opened Text
  import opened Values
  import opened Patterns
  import Js

  datatype Format = Json | Yaml | Xml | Toml

  /** What `detectFormat` answers: one of the four formats, or `'unknown'`. */
  datatype Detected = Known(format: Format) | Unknown

  /** A line that neither tally looks at: empty once trimmed, or a comment. */
  predicate Skipped(trimmed: string)
  {
    trimmed == "" || StartsWith(trimmed, "#")
  }

  /** A line that opens with a word character is not skipped. */
  lemma WordStartNotSkipped(t: string)
    requires t != [] && IsWordChar(t[0])
    ensures !Skipped(t)
  {
    assert !StartsWith(t, "#") by {
      if |t| >= 1 {
        assert t[..1][0] == t[0];
      }
    }
  }

  /** The YAML tests, applied to the line as it stands. */
  predicate YamlLooking(line: string)
  {
    DashKeyValue(line) || DashItem(line) || IndentedKeyValue(line)
  }

  /** The TOML tests, applied to the trimmed line. */
  predicate TomlLooking(trimmed: string)
  {
    WordAssign(trimmed, DetectorValueStart) || ArrayTableHeader(trimmed) || TableHeader(trimmed)
  }

  predicate CountsForYaml(line: string)
  {
    !Skipped(Trim(line)) && YamlLooking(line)
  }

  predicate CountsForToml(line: string)
  {
    !Skipped(Trim(line)) && TomlLooking(Trim(line))
  }

  /** A counter that the loop increments on every line satisfying `p`, after it has seen `lines`. */
  function Tally(lines: seq<string>, p: string -> bool): nat
  {
    if lines == [] then 0
    else Tally(lines[..|lines| - 1], p) + (if p(lines[|lines| - 1]) then 1 else 0)
  }

  /** The counter `yamlScore` after the loop has seen `lines`. */
  function YamlScore(lines: seq<string>): nat
  {
    Tally(lines, CountsForYaml)
  }

  /** The counter `tomlScore` after the loop has seen `lines`. */
  function TomlScore(lines: seq<string>): nat
  {
    Tally(lines, CountsForToml)
  }

  /** The decision after the tally (script.js:188-194). `y > 0.2 * n` is
      `5 * y > n` exactly for the integers involved. */
  function Verdict(yaml: nat, toml: nat, lineCount: nat): (r: Detected)
    ensures r == Known(Yaml) <==> yaml > toml && 5 * yaml > lineCount
    ensures r == Known(Toml) <==> toml > yaml && 5 * toml > lineCount
    ensures r.Known? ==> r.format == Yaml || r.format == Toml
  {
    if yaml > toml && 5 * yaml > lineCount then Known(Yaml)
    else if toml > yaml && 5 * toml > lineCount then Known(Toml)
    else Unknown
  }

  predicate JsonShaped(t: string)
  {
    (StartsWith(t, "{") && EndsWith(t, "}")) || (StartsWith(t, "[") && EndsWith(t, "]"))
  }

  predicate XmlShaped(t: string)
  {
    StartsWith(t, "<?xml") || (StartsWith(t, "<") && Contains(t, "</"))
  }

  /** `detectFormat(data)` */
  function DetectFormat(e: Js.Engine, data: string): Detected
  {
    var trimmed := Trim(data);
    if trimmed == "" then Unknown
    else if JsonShaped(trimmed) && e.jsonParse(trimmed).Some? then Known(Json)
    else if XmlShaped(trimmed) && !e.xmlRejected(trimmed) then Known(Xml)
    else TallyVerdict(trimmed)
  }

  /** The tally path, on the trimmed text: it never answers JSON or XML. */
  function TallyVerdict(trimmed: string): (r: Detected)
    ensures r.Known? ==> r.format == Yaml || r.format == Toml
  {
    var lines := Split(trimmed, "\n");
    Verdict(YamlScore(lines), TomlScore(lines), |lines|)
  }

  /** The positions of the lines satisfying `p`. */
  function Positions(lines: seq<string>, p: string -> bool): set<nat>
  {
    set i: nat | i < |lines| && p(lines[i])
  }

  /** A tally is the number of lines that pass its test. */
  lemma {:induction false} TallyCounts(lines: seq<string>, p: string -> bool)
    ensures Tally(lines, p) == |Positions(lines, p)|
  {
    if lines != [] {
      var front := lines[..|lines| - 1];
      TallyCounts(front, p);
      var last := |lines| - 1;
      if p(lines[last]) {
        assert Positions(lines, p) == Positions(front, p) + {last};
      } else {
        assert Positions(lines, p) == Positions(front, p);
      }
    }
  }

  /** Which lines the YAML tally counts, as a set of positions. */
  function YamlLines(lines: seq<string>): set<nat>
  {
    Positions(lines, CountsForYaml)
  }

  function TomlLines(lines: seq<string>): set<nat>
  {
    Positions(lines, CountsForToml)
  }

  /** Text that is empty after trimming is never recognised. */
  lemma BlankIsUnknown(e: Js.Engine, data: string)
    requires AllSpace(data)
    ensures DetectFormat(e, data) == Unknown
  {
    TrimEmptyIffAllSpace(data);
  }

  /** On the tally path: the answer is YAML exactly when more lines look like
      YAML than like TOML and they are more than a fifth of all lines of the
      trimmed text (blank and comment lines included); symmetrically for
      TOML; a tie is never recognised. */
  lemma TallyDecides(e: Js.Engine, data: string)
    requires Trim(data) != ""
    requires !(JsonShaped(Trim(data)) && e.jsonParse(Trim(data)).Some?)
    requires !(XmlShaped(Trim(data)) && !e.xmlRejected(Trim(data)))
    ensures var lines := Split(Trim(data), "\n");
      var y := |YamlLines(lines)|;
      var t := |TomlLines(lines)|;
      && (DetectFormat(e, data) == Known(Yaml) <==> y > t && 5 * y > |lines|)
      && (DetectFormat(e, data) == Known(Toml) <==> t > y && 5 * t > |lines|)
      && (y == t ==> DetectFormat(e, data) == Unknown)
      && DetectFormat(e, data) != Known(Json) && DetectFormat(e, data) != Known(Xml)
  {
    var lines := Split(Trim(data), "\n");
    TallyCounts(lines, CountsForYaml);
    TallyCounts(lines, CountsForToml);
  }

  /** JSON and XML are reported only after the engine's parser accepted the
      trimmed text. */
  lemma ProbesDecide(e: Js.Engine, data: string)
    ensures DetectFormat(e, data) == Known(Json) ==>
      JsonShaped(Trim(data)) && e.jsonParse(Trim(data)).Some?
    ensures DetectFormat(e, data) == Known(Xml) ==>
      XmlShaped(Trim(data)) && !e.xmlRejected(Trim(data))
  {
  }
}
