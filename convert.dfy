/** The conversion (`convertData`, script.js:811-906): the validation gate,
    the same-format shortcut and the parse-then-write dispatch, without the
    loader, the timer and the status-line writes. */
module Convert {
  import opened Text
  import opened Values
  import opened Detect
  import opened Validate
  import Js
  import YamlParse
  import YamlLaws
  import YamlEmit
  import XmlJson
  import XmlEmit
  import TomlParse
  import TomlEmit

  /** What a step of the conversion can throw: "Cannot detect input format",
      a `JSON.parse` syntax error, reading `nodeName` of a missing root
      element, and the `TypeError` or `RangeError` with which `parseYaml`
      or `parseToml` stops. */
  datatype Failure = CannotDetect | JsonRejected | NoRootElement | ReaderThrew(fault: Js.Fault)

  /** What the conversion leaves in the output area: the "Cannot convert"
      notice when validation fails, the converted text, or the failure
      notice for what was thrown. `Lengthened` stands for a YAML or TOML
      text that lengthens an array through its `length`: the holes that
      leaves have no value in this model, which follows that conversion no
      further. */
  datatype Conversion = InvalidInput | Converted(output: string) | Failed(why: Failure) | Lengthened

  datatype Parsed = Parsed(value: Val) | NotParsed(why: Failure) | LeftHoles

  /** A reader's outcome as the parse switch sees it. */
  function FromReader(o: Js.Outcome<Val>): (r: Parsed)
    ensures r.Parsed? <==> o.Ok?
    ensures r.Parsed? ==> r.value == o.value
    ensures r.NotParsed? <==> o.Fail? && o.why != Js.Holes
    ensures r.NotParsed? ==> r.why == ReaderThrew(o.why)
  {
    match o
    case Ok(v) => Parsed(v)
    case Fail(Holes) => LeftHoles
    case Fail(f) => NotParsed(ReaderThrew(f))
  }

  /** The parse switch (script.js:864-880). */
  function ParseAs(e: Js.Engine, f: Format, input: string): (r: Parsed)
    ensures r.NotParsed? ==>
      (f == Json && r.why == JsonRejected) || (f == Xml && r.why == NoRootElement)
      || ((f == Yaml || f == Toml) && r.why.ReaderThrew? && r.why.fault != Js.Holes)
    ensures r.NotParsed? && f == Json ==> e.jsonParse(input).None?
    ensures r.LeftHoles? ==> f == Yaml || f == Toml
    ensures f == Yaml ==> (r.Parsed? <==> YamlParse.ParseYamlSpec(e, input).Ok?)
    ensures f == Toml ==> (r.Parsed? <==> TomlParse.ParseTomlSpec(e, input).Ok?)
  {
    match f
    case Json =>
      (match e.jsonParse(input)
       case None => NotParsed(JsonRejected)
       case Some(v) => Parsed(v))
    case Yaml => FromReader(YamlParse.ParseYamlSpec(e, input))
    case Xml =>
      (match XmlJson.XmlToJson(e, input)
       case None => NotParsed(NoRootElement)
       case Some(v) => Parsed(v))
    case Toml => FromReader(TomlParse.ParseTomlSpec(e, input))
  }

  /** The write switch (script.js:885-900). */
  function EmitAs(e: Js.Engine, f: Format, v: Val): string
  {
    match f
    case Json => e.jsonPretty(v)
    case Yaml => YamlEmit.JsonToYaml(e, v)
    case Xml => XmlEmit.JsonToXml(e, v)
    case Toml => TomlEmit.JsonToToml(e, v)
  }

  /** The same-format shortcut (script.js:837-859): JSON is re-printed,
      XML goes through the engine's serializer, YAML and TOML are copied. */
  function SameFormat(e: Js.Engine, f: Format, input: string): (r: Conversion)
    ensures f == Yaml || f == Toml ==> r == Converted(input)
    ensures r.Failed? ==> f == Json && r.why == JsonRejected && e.jsonParse(input).None?
  {
    match f
    case Json =>
      (match e.jsonParse(input)
       case None => Failed(JsonRejected)
       case Some(v) => Converted(e.jsonPretty(v)))
    case Yaml => Converted(input)
    case Xml => Converted(e.xmlSerialize(input))
    case Toml => Converted(input)
  }

  /** `convertData()` on the input area's content `raw`, the input selector
      and the output format. The selector and the text are read once: the
      gate and the conversion see the same values. */
  function ConvertData(e: Js.Engine, raw: string, declared: Declared, to: Format): (r: Conversion)
    ensures r == InvalidInput <==> !ValidateInput(e, raw, declared).Accepted?
    ensures AllSpace(raw) ==> r == InvalidInput
    ensures r != Failed(CannotDetect) && r != Failed(JsonRejected)
    ensures r.Failed? ==> var from := ValidateInput(e, raw, declared).format;
      (from == Xml && r.why == NoRootElement)
      || ((from == Yaml || from == Toml) && r.why.ReaderThrew? && r.why.fault != Js.Holes)
    ensures r.Lengthened? ==> ValidateInput(e, raw, declared).format in {Yaml, Toml}
  {
    var status := ValidateInput(e, raw, declared);
    if !status.Accepted? then InvalidInput
    else
      var input := Trim(raw);
      match Resolve(e, raw, declared)
      case Unknown => Failed(CannotDetect)
      case Known(from) =>
        if from == to then SameFormat(e, from, input)
        else
          match ParseAs(e, from, input)
          case NotParsed(why) => Failed(why)
          case LeftHoles => Lengthened
          case Parsed(v) => Converted(EmitAs(e, to, v))
  }

  /** YAML to YAML and TOML to TOML hand back the trimmed input. */
  lemma SameFormatVerbatim(e: Js.Engine, raw: string, declared: Declared, f: Format)
    requires f == Yaml || f == Toml
    requires ValidateInput(e, raw, declared) == Accepted(f)
    ensures ConvertData(e, raw, declared, f) == Converted(Trim(raw))
  {
  }

  /** Text that passed validation as JSON always converts: the gate already
      ran `JSON.parse` on it. */
  lemma JsonConverts(e: Js.Engine, raw: string, declared: Declared, to: Format)
    requires ValidateInput(e, raw, declared) == Accepted(Json)
    ensures ConvertData(e, raw, declared, to).Converted?
  {
  }

  /** Text that passed validation as YAML converts unless one of its pair
      or opener lines has the key `length` or `push`. */
  lemma YamlConverts(e: Js.Engine, raw: string, declared: Declared, to: Format)
    requires ValidateInput(e, raw, declared) == Accepted(Yaml)
    requires forall line :: line in Split(Trim(raw), "\n") ==> YamlLaws.FaultFreeLine(line)
    ensures ConvertData(e, raw, declared, to).Converted?
  {
    YamlLaws.ReadsWithoutFault(e, Trim(raw));
  }

  /** What a reader throws is what the conversion shows. */
  lemma ThrownIsShown(e: Js.Engine, raw: string, declared: Declared, from: Format, to: Format, why: Failure)
    requires ValidateInput(e, raw, declared) == Accepted(from) && from != to
    requires ParseAs(e, from, Trim(raw)) == NotParsed(why)
    ensures ConvertData(e, raw, declared, to) == Failed(why)
  {
  }

  /** A conversion into another format writes what the source format's
      reader made of the trimmed input; into XML, that text opens with the
      declaration line. */
  lemma ConvertedIsWritten(e: Js.Engine, raw: string, declared: Declared, from: Format, to: Format, v: Val)
    requires ValidateInput(e, raw, declared) == Accepted(from) && from != to
    requires ParseAs(e, from, Trim(raw)) == Parsed(v)
    ensures ConvertData(e, raw, declared, to) == Converted(EmitAs(e, to, v))
    ensures to == Xml ==> StartsWith(ConvertData(e, raw, declared, to).output, XmlEmit.Declaration + "\n")
  {
    var out := EmitAs(e, to, v);
    if to == Xml {
      var d := XmlEmit.Declaration + "\n";
      assert out == d + XmlEmit.BuildXml(e, v, "data");
      assert out[..|d|] == d;
    }
  }
}
