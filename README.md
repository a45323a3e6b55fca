# Universal data translator, modelled in Dafny

The translator is a single browser script, `script.js`. It converts text between
JSON, YAML, XML and TOML. This project models its core without the page around it:

- the detector that guesses the input format;
- the line validators and the validation gate;
- the hand-written YAML and TOML readers;
- the XML reader, over the element tree a DOM parser builds;
- the three hand-written writers (YAML, XML, TOML);
- the conversion's parse-then-write dispatch.

The model follows the code as written, including its quirks, and proves what
the code guarantees and where it falls short.

- **Values** (`values.dfy`). `Val` stands for a JavaScript value the readers build:
  - `Null`, `Bool`, `Num(lit)` (the number `Number(lit)` denotes), `Str`;
  - `Arr(items, extras)`: an array's elements plus the named properties assigned
    onto it. `parseToml` stores keys onto the array it pushes for each `[[name]]`;
  - `Obj(fields)`: keys unique and kept in insertion order; assigning an existing
    key overwrites it in place (`Put`).
  
  `ForIn` is the `for..in` enumeration that the XML and TOML writers use: indices,
  then named properties. References into the tree are paths (`seq<Step>`), read
  with `Get` and replaced with `SetAt`.
- **Property access** (`engine.dfy`). `Js.ReadProp` is `v[k]` for an own
  property; every array and string owns a `length`. `Js.WriteProp` is `c[k] = x`:
  on an array, `length` is set rather than stored, so a value that is no valid
  length throws a `RangeError` and a smaller one drops elements. A reader ends
  with `Fail(TypeError)`, `Fail(RangeError)`, or `Fail(Holes)` when it lengthens
  an array, which the value model cannot hold.
- **Engine built-ins** (`engine.dfy`). `JSON.parse`/`JSON.stringify`, `Number`
  coercion, `DOMParser`, `XMLSerializer` and prototype lookup are always fields
  of an `Engine` record of functions, passed as a parameter. They are never
  re-implemented. `Dom.XNode` is the element tree the parser hands the XML reader.
- **Text** (`text.dfy`, `patterns.dfy`). The text helpers are `String.prototype.trim`
  (JavaScript white space), `split`, `substring`, `toLowerCase` on ASCII, and
  `indexOf`. Each regular expression of the detector and the validators is written
  out as a character-level predicate, with `\w` as `[A-Za-z0-9_]`.
- **Detector** (`detect.dfy`): `detectFormat`. The JSON and XML probes go through
  the engine; the YAML/TOML line tally is modelled in full.
- **Validation** (`validate.dfy`): `validateYaml`, `validateToml`, and the decision
  logic of `validateInput` as a `Status`.
- **YAML**. `yaml_parse.dfy` states `parseYaml` as functions on a state of root
  value and frame stack. A frame holds a path, a primitive (what an opened
  `length` reads) or `undefined`. `yaml_reader.dfy` is the imperative reader with its
  loops, and each method is proved equal to the corresponding function.
  `yaml_emit.dfy` is `jsonToYaml`, and `yaml_laws.dfy` holds the properties.
- **XML**. `xml_json.dfy` is `xmlToJson`, `xml_emit.dfy` is `jsonToXml`/`buildXml`,
  and `xml_laws.dfy` holds the properties, including a round trip.
- **TOML**. `toml_parse.dfy` states `parseToml` as functions on a state of result,
  current table and array table. A reference becomes one of three things: a path,
  a truthy primitive that silently ignores writes, or `undefined`, whose next write
  throws a `TypeError`. `toml_reader.dfy` is the imperative reader, proved equal
  to those functions. `toml_emit.dfy` is `jsonToToml`. `toml_laws.dfy` and
  `toml_trip.dfy` hold the properties, including where writer and reader disagree.
- **Conversion** (`convert.dfy`): the body of the `convertData` callback. It covers
  the validation gate, the `unknown` error, the same-format shortcut, the parse
  switch, the write switch (XML root `data`), and the error that ends in the
  output area.

The code does not always do what its names suggest; the model follows the code:

- After trimming, a YAML `key:` line never contains `': '`, so it always opens an
  object (script.js:528-531). The "array start" branch (script.js:496-499) is
  reached only by a `key: ` piece whose value is empty after the split.
- YAML list items are stored uncoerced: as the string, or as a one-entry object
  holding a string (script.js:461-489).
- TOML `[[name]]` pushes an empty *array*, not a table (script.js:689-691).
  The keys that follow become named properties of that array, except `length`,
  which sets the array's length.
- `jsonToToml` always recurses with the prefix `''` (script.js:787, 799), so
  headers are never dotted.

## Model

| member | source | states |
|---|---|---|
| Values.Put | script.js:524 | assigning a key keeps the key order (appends only a new key), makes the key read back the new value, and leaves every other key's value as it was |
| Values.ForIn | script.js:646 | `for..in` on an object visits its fields in order; on an array, the indices `"0".."n-1"` with the elements, then the named properties; on a primitive, nothing that is a container |
| Values.SetAtCompose | script.js:672-702 | writing through a reference obtained from another reference is writing at the concatenated path |
| Text.Trim | script.js:135 | the result has no JavaScript white space at either end, and what was cut off is white space only |
| Text.TrimEmptyIffAllSpace | script.js:137 | trimming gives the empty string exactly when the text is all white space |
| Text.SplitPieces | script.js:428 | the pieces of `split(sep)` joined with `sep` give the text back, and no piece holds `sep` |
| Text.SplitUnlines | script.js:671 | splitting lines that each end in a line break gives those lines and one empty last piece |
| Text.JsSubstring | script.js:513 | `substring(start, end)` with both indices in range is the slice between them, taken in either order (every call in the translator is in range) |
| Detect.Verdict | script.js:188-194 | YAML exactly when its score beats TOML's and five times it exceeds the line count; TOML symmetrically; only YAML or TOML are ever returned |
| Detect.TallyCounts | script.js:165-186 | the score is the number of lines the line test accepts |
| Detect.BlankIsUnknown | script.js:137 | white-space-only input gives `unknown` |
| Detect.ProbesDecide | script.js:139-162 | `json` is reported only when the trimmed text is `{..}`/`[..]`-shaped and `JSON.parse` accepts it; `xml` only for `<..>`-shaped text without a `parsererror` |
| Detect.TallyDecides | script.js:164-194 | past the probes: YAML iff more YAML-looking lines than TOML-looking ones and more than a fifth of all lines (blank and `#` lines counted); TOML symmetrically; a tie gives `unknown`; never JSON or XML |
| Detect.WordStartNotSkipped | script.js:173 | a line starting with a word character is neither blank nor a comment |
| Validate.CheckLinesIff | script.js:298-330 | the early-exit loop returns true iff every line is accepted |
| Validate.ValidateYamlIff | script.js:293-331 | `validateYaml` is true iff every raw line is blank, a comment, or matches one of the YAML patterns |
| Validate.ValidateTomlIff | script.js:333-367 | `validateToml` is true iff every trimmed line is blank, a comment, or matches one of the TOML patterns |
| Validate.AssignRejected | script.js:344-351 | `key = value` with a word key is rejected when the value does not start with a quote, digit, `[`, `{` or `-` |
| Validate.BareBooleanRejected | script.js:344-351 | `key = true` and `key = false` are rejected |
| Validate.DottedKeyRejected | script.js:344-351 | a dotted key `a.b = value` is rejected |
| Validate.ValidateInput | script.js:208-291 | "No input data" iff the text is all white space; "Unknown format" only on `auto`; otherwise the verdict is about the selected or detected format |
| Validate.XmlPrefixTest | script.js:249 | "starts with neither `<?xml` nor `<`" is "does not start with `<`" |
| Validate.FormatProblemIff | script.js:229-282 | the check of a format passes iff the trimmed text conforms to it line by line (or is accepted by the engine) |
| Validate.AcceptedIff | script.js:208-291 | accepted as `f` iff not blank, resolved to `f`, and conforming to `f` |
| Validate.DetectedJsonXmlAccepted | script.js:139-162 | on `auto`, text detected as JSON or XML always passes validation |
| YamlParse.Classify | script.js:450-532 | a trimmed line is an item iff it starts with `- `; a pair iff not an item and it holds `: `; an opener iff neither and it ends with `:` |
| YamlParse.PopFrames | script.js:443-445 | the pop keeps a prefix of the stack, never pops the root frame, and stops at the first frame whose indent is below the line's |
| YamlParse.ItemValue | script.js:451-489 | an item is the string itself, or a one-entry object holding a string; it is never a number or a boolean |
| YamlParse.WrapLast | script.js:452-458 | wrapping the last key's value changes no key |
| YamlParse.FirstArray | script.js:469-474 | finds the first field holding an array, or none when no field does |
| YamlParse.PushAt | script.js:471 | pushing onto that array changes nothing else |
| YamlParse.AddItem | script.js:450-490 | an item on an array is appended, and throws a `TypeError` exactly when the array owns a `push`; it never changes a container's kind |
| YamlParse.ParseYamlSpec | script.js:426-536 | the reader, when it does not throw, returns an object with unique keys throughout |
| YamlParse.LineStepKeepsInv | script.js:432-533 | each line keeps the stack's frames pointing at containers along increasing paths, with the root frame at the bottom |
| YamlReader.Pop | script.js:443-445 | the popping loop computes `PopFrames` |
| YamlReader.FindArray | script.js:469-474 | the `for..in` search computes `FirstArray` |
| YamlReader.AddItemTo | script.js:450-490 | an item line on the current container computes `AddItem` |
| YamlReader.Assign | script.js:506-524 | `current[key] = finalValue` throws on `undefined`, changes nothing on a primitive, and is `WriteProp` on a container |
| YamlReader.OpenKey | script.js:494-503 | `current[key] = made` and the pushed frame: a `TypeError` on `undefined`; on a primitive, a frame for what the key reads; on a container, `Open` |
| YamlReader.ApplyItem | script.js:450-490 | the item branch computes `Apply` on an item line |
| YamlReader.ApplyPair | script.js:492-526 | the pair branch computes `Apply` on a pair line |
| YamlReader.ApplyLine | script.js:447-532 | one line's branch computes `Apply` |
| YamlReader.ReadLine | script.js:433-533 | the loop body computes `LineStep` |
| YamlReader.ParseYaml | script.js:426-536 | the reader computes `ParseYamlSpec`, its result or the fault it throws |
| YamlLaws.WrapScalarLast | script.js:454-457 | a last key holding a non-array is wrapped into a one-element array |
| YamlLaws.ItemAfterScalarKey | script.js:450-488 | with no array yet, `- x` after `k: v` makes `k` hold `[v, x]` |
| YamlLaws.ItemGoesToFirstArray | script.js:450-488 | when an earlier key holds an array, the item goes there and the last key is still wrapped |
| YamlLaws.ItemDropped | script.js:450-488 | with no array-valued key and no last key to wrap, the item is dropped |
| YamlLaws.EntryLayout | script.js:560-574 | an entry opens a line of 2·indent spaces, the key and `: `; an array value follows at the key's level, an object one level deeper, a scalar ends the line |
| YamlLaws.ItemLayout | script.js:544-556 | an element opens a `- ` line; a container follows one level deeper, a scalar ends the line |
| YamlLaws.YamlOfEndsLine | script.js:539-576 | an object's or array's text is whole lines; a bare scalar is its `JSON.stringify` text with no line break |
| YamlLaws.PlainBack | script.js:506-524 | a plain string written after `key: ` reads back as the same string |
| YamlLaws.FlatRoundTrip | script.js:426-577 | a flat document (ordinary word keys; booleans and plain strings) written as YAML reads back unchanged |
| YamlLaws.NullWrittenAsWord | script.js:572 | `null` and the string `"null"` are written alike |
| YamlLaws.NullReadsAsString | script.js:506-524 | so `{k: null}` comes back as `{k: "null"}` |
| YamlLaws.LengthPairOnArray | script.js:506-524 | `length: v` on an array sets its length: a `RangeError` when `v` reads as no valid length, the first `n` elements when `n` is at most the size, holes when larger |
| YamlLaws.LengthPairCuts | script.js:524 | `length: v` reading as a length `n` no larger than the array keeps its first `n` elements and the stack |
| YamlLaws.LengthOneTruncates | script.js:524 | `length: 1` keeps only the first element of a non-empty array |
| YamlLaws.LengthOpenedOnArray | script.js:494-532 | `length:` on an array assigns `{}` and throws a `RangeError`, as does `length: ` before a non-item line; before an item `[]` empties the array and the pushed frame holds `0` |
| YamlLaws.ItemOnArrayWithPush | script.js:465-480 | an item line throws a `TypeError` when the current array owns a `push` |
| YamlLaws.OffTreeFrames | script.js:447-532 | below a frame holding `undefined`, a line throws a `TypeError` iff it is not ignored; below a primitive, items and scalar pairs change nothing |
| YamlLaws.ReadsWithoutFault | script.js:426-536 | a text none of whose pair or opener lines has the key `length` or `push` always reads, without a fault |
| XmlJson.AttrFieldsLookup | script.js:587-593 | every attribute is stored under its name with the value of the last attribute of that name; no name twice |
| XmlJson.ReadChildrenText | script.js:599-621 | the loop sees an element iff there is an element child; without one, `#text` holds the last non-blank trimmed text |
| XmlJson.NodeShape | script.js:623-628 | an element reads as a string iff it has no element child and some non-blank text, and then as the last such text; otherwise as an object |
| XmlJson.SecondSameTag | script.js:606-613 | a second child with the same tag turns the stored value into a two-element array |
| XmlJson.SameTagAppends | script.js:606-613 | later children with that tag are appended in order |
| XmlJson.RepeatedTag | script.js:583-628 | an element whose children all share one tag reads as that tag holding the array of the children's readings |
| XmlJson.ParseNodeWellFormed | script.js:583-628 | the reading of an element has unique keys throughout |
| XmlLaws.TextLeafReads | script.js:623-626 | an element holding only non-blank text reads as that text, attributes dropped |
| XmlLaws.DistinctChildrenRead | script.js:599-614 | children with distinct tags are stored under their tags in document order |
| XmlLaws.BuildXmlFrame | script.js:640-662 | every element written opens with `<name>` and closes with `</name>` |
| XmlLaws.JsonToXmlFrame | script.js:665 | the output is the XML declaration, a line break, then the `data` element |
| XmlLaws.AttributesSkipped | script.js:647-649 | `@attributes` entries write nothing |
| XmlLaws.TextWrittenRaw | script.js:650-651 | `#text` is inserted as it is, without escaping |
| XmlLaws.StringWrittenRaw | script.js:640-641 | a string is written between the tags as it is, without escaping |
| XmlLaws.ArrayMember | script.js:652-655 | an array-valued key writes one element per item, each named by the key |
| XmlLaws.RepeatedAppend | script.js:653-655 | the items' elements follow one another in order |
| XmlLaws.XmlRoundTrip | script.js:579-666 | a simple document (no attributes; each element either one trimmed text or only child elements with distinct tags) read and written again gives its own serialization inside `data` |
| Js.ReadProp | script.js:699-702 | `v[k]` is an object's field, an array's named property, or the `length` of an array or string; nothing else |
| Js.WriteProp | script.js:767 | `c[k] = x` stores the property, except an array's `length`: a `RangeError` iff `x` is no valid length, holes iff it exceeds the size, else the array cut to that length |
| TomlParse.Descend | script.js:698-702 | one step of a walk: a missing or falsy name gets `{}` (on an array's `length`, a `RangeError` when that count is 0); a truthy one is entered, an array's `length` as the number; from a primitive the next target is the property it reads or `undefined`; from `undefined` it throws |
| TomlParse.Walk | script.js:698-703 | a walk never lengthens an array; a `RangeError` needs a name `length`; a `TypeError` comes at once from `undefined`, needs two names from a primitive and three from an object or array; a successful walk stays below where it started |
| TomlParse.Store | script.js:767 | the last assignment is `WriteProp` on a table (so an array's `length` is set or throws), is ignored on a primitive, and throws on `undefined` |
| TomlParse.ArrayItem | script.js:733-738 | an array item is a number when numeric; otherwise `"x"` reads as `x` (a lone `"` stays itself), and text without surrounding double quotes reads as itself |
| TomlParse.InlineFields | script.js:746-750 | an inline table throws iff some pair lacks `=`; otherwise the fields have unique keys |
| TomlParse.ParseValue | script.js:716-754 | a quoted value reads as its inside; only a `{..}` value can throw; the reading has unique keys |
| TomlParse.InlineTable | script.js:742-751 | a `{..}` value throws iff a pair lacks `=`, else reads as an object |
| TomlParse.ArrayHeader | script.js:683-691 | an array-table header keeps the state well-formed |
| TomlParse.TableHeader | script.js:692-705 | a table header keeps the state well-formed and clears the array table |
| TomlParse.KeyLine | script.js:709-768 | a key line moves neither the current table nor the array table |
| TomlParse.ParseTomlSpec | script.js:668-772 | the reader, when it does not throw, returns an object with unique keys throughout |
| TomlReader.WalkParts | script.js:698-703 | the walking loop computes `Walk` |
| TomlReader.ReadPairs | script.js:746-750 | the pair loop computes `InlineFields` |
| TomlReader.ReadValue | script.js:713-754 | the value chain computes `ParseValue` |
| TomlReader.ReadArrayHeader | script.js:683-691 | the `[[name]]` branch computes `ArrayHeader` |
| TomlReader.ReadTableHeader | script.js:692-705 | the `[name]` branch computes `TableHeader` |
| TomlReader.ReadKeyLine | script.js:710-768 | the key branch computes `KeyLine` |
| TomlReader.ReadLine | script.js:676-768 | the loop body computes `TomlLine` |
| TomlReader.ParseToml | script.js:668-772 | the reader computes `ParseTomlSpec` |
| TomlLaws.FreshTableHeader | script.js:694-704 | `[a.b.c]` without a truthy `a` gives the result `a = {b: {c: {}}}` and makes the innermost table current, whatever the current table was |
| TomlLaws.HeaderFromRoot | script.js:682-706 | a header line depends on the result only; a `[..]` header clears the array table |
| TomlLaws.ArrayHeaderPushes | script.js:685-691 | `[[n]]` makes `n` keep its elements and gain an empty array, which becomes current and the array table; nothing else changes; a truthy non-array makes it throw |
| TomlLaws.ArrayTableKeyLine | script.js:689-767 | a key line after `[[n]]` stores a named property on the pushed array; `length = v` there throws a `RangeError` for no valid length, leaves the state for `0` and lengthens it otherwise |
| TomlLaws.ArrayTableLength | script.js:689-767 | `length = v` right after `[[n]]`, whatever `n` held before: a `RangeError` for no valid length, no change for `0`, holes otherwise |
| TomlLaws.PlainKeyLine | script.js:756-767 | an undotted key throws on `undefined`, is lost on a primitive, and otherwise is `WriteProp` of its value's reading on the current table, which for a key other than an array's `length` stores it and moves nothing |
| TomlLaws.HeaderThroughString | script.js:694-702 | `[a.length]` with `a` a non-empty string makes the string's length the current table and leaves the result unchanged, so later key lines are lost |
| TomlLaws.DottedKeyFresh | script.js:756-767 | `a.b.c = v` without a truthy `a` gives the current table `a = {b: {c: v}}` |
| TomlLaws.EmptyArrayIsZero | script.js:730-739 | `[]` reads as `[0]` |
| TomlLaws.EmptyInlineTableThrows | script.js:742-750 | `{}` throws |
| TomlLaws.FalseIsBoolean | script.js:726-727 | `false` and `FALSE` both read as the boolean `false` |
| TomlTrip.StringWrittenRaw | script.js:803-804 | a string is written between double quotes without escaping |
| TomlTrip.OneTable | script.js:797-799 | a nested object is written as `[k]` and then its own text |
| TomlTrip.NestedTablesBare | script.js:797-799 | nested tables are written with bare headers `[a]`, `[b]`, never `[a.b]` |
| TomlTrip.TableArrayOfTwo | script.js:784-788 | an array of objects is written as one `[[k]]` block per item; the array's named properties are not written |
| TomlTrip.NullFirstTableArray | script.js:784-788 | an array starting with `null` is written as empty `[[k]]` blocks, losing its items |
| TomlTrip.StringArrayLine | script.js:790-794 | an array of strings is written on one line, each item quoted, joined with `, ` |
| TomlTrip.StringArrayRoundTrip | script.js:727-739 | a non-empty array of strings without `,`, `=` or a line break, written by `jsonToToml` and read back, is the same strings in order; its named properties are gone |
| TomlTrip.FlatRoundTrip | script.js:668-809 | a flat document (plain keys; `null`, booleans, strings without `=` or line break) comes back with `null` turned into `"null"`, otherwise unchanged |
| TomlTrip.NestingFlattens | script.js:694-702 | `{a: {b: {x}}}` comes back flattened as `{a: {}, b: {x}}` |
| TomlTrip.EqualsSignTruncates | script.js:711 | a string holding `=` comes back cut at the `=`, and is never the original string |
| Convert.ParseAs | script.js:864-880 | JSON fails only when `JSON.parse` does, XML only without a root element, YAML and TOML only by what their readers throw; YAML and TOML parse iff their readers return |
| Convert.SameFormat | script.js:837-859 | YAML and TOML are copied verbatim; only JSON can fail |
| Convert.ConvertData | script.js:811-906 | "Cannot convert" iff validation fails; blank input never converts; an accepted input is never `unknown` and never fails `JSON.parse`; a failure is a missing XML root or a `TypeError` or `RangeError` of the YAML or TOML reader |
| Convert.SameFormatVerbatim | script.js:843-855 | YAML to YAML and TOML to TOML hand back the trimmed input |
| Convert.JsonConverts | script.js:813-906 | accepted JSON input always converts |
| Convert.YamlConverts | script.js:813-906 | accepted YAML input converts when none of its pair or opener lines has the key `length` or `push` |
| Convert.ThrownIsShown | script.js:862-905 | what the source format's reader throws is the failure the conversion shows |
| Convert.ConvertedIsWritten | script.js:862-905 | a conversion writes what the reader made of the trimmed input; XML output opens with the declaration line |

## Left out

- The page: element lookups, listeners, character counters, messages, the format
  swap, the clipboard, style injection and the status-line and `innerHTML`
  writes. No state of the page is modelled.
- Timers and `async`: the loader delay only postpones the callback. The model
  assumes the selector and the text do not change between the gate and the
  callback, so both read the same values.
- The engine built-ins `JSON.parse`, `JSON.stringify`, `Number`/`isNaN`,
  `DOMParser`, `XMLSerializer` and prototype lookup are parameters (`Js.Engine`),
  not definitions. Properties that need facts about `Number` state them as
  `NumberFacts` and `OpeningNotNumeric`.
- Floating point: a number is the text it was read from. Properties about numbers
  use the engine's `isNumeric`/`numTruthy`/`numString` only.
- Strings are sequences of Unicode characters, while the engine counts UTF-16
  code units. `toLowerCase` is modelled on ASCII letters only.
- Integer-like keys, which the engine enumerates first, and keys found on the
  object prototype (`constructor`, `toString`, `__proto__`, ...) are read and
  written in the model as ordinary own properties, which they are not in the
  engine. `YamlReader.ParseYaml` requires `KeysOrdinary`, and the round trips
  `YamlLaws.FlatRoundTrip`, `TomlTrip.FlatRoundTrip`, `TomlTrip.StringArrayRoundTrip`
  and `XmlLaws.XmlRoundTrip` (root tag and, through `Simple`, every child tag),
  `TomlTrip.NestingFlattens` and `YamlLaws.NullReadsAsString` require
  `Js.OrdinaryKey` of their keys or tag names. The other statements about
  the readers hold for the engine only on texts whose keys are ordinary.
- Js.ReadProp: reads of a primitive other than a string's `length` give
  `undefined`: string indices (`"xyz"["0"]`) and the methods of the `String`,
  `Number` and `Boolean` prototypes are not modelled, nor an array's integer-like
  keys, which the model stores as named properties.
- Lengthening an array through `length` leaves holes, which `Val` cannot hold:
  the readers stop with `Fail(Holes)` there and the conversion with
  `Lengthened`, where the engine goes on with a longer array.
- The texts of the error messages are left out. A failure is one of the
  `Convert.Failure` or `Validate.Reason` cases.
- The `default` branches of the switches (script.js:280-281, 856-857, 878-879,
  898-899) cannot be reached, because the format types have four cases. They are
  left out.
- YamlLaws.FlatRoundTrip: covers documents of booleans and plain strings only.
  Numbers are left out because their text round trip depends on the engine's
  number printing.
- TomlTrip.FlatRoundTrip: covers `null`, booleans and strings without `=` or a
  line break. Numbers are left out for the same reason; `EqualsSignTruncates` and
  `NestingFlattens` show what happens outside this class.
- XmlLaws.XmlRoundTrip: covers documents without attributes. `AttributesSkipped`
  and `TextLeafReads` show that attributes are lost.
- Walk: the contract bounds when a walk throws (a `RangeError` needs a name
  `length`, a `TypeError` needs `undefined` or enough names to reach it) but does
  not characterise the throwing walks exactly; the function's definition does,
  one `Descend` per name.
- The imperative readers work on values and paths, not on shared references.
  In `parseYaml` and `parseToml`, no two live references alias different places
  of the tree, so updating through a path is the same as mutating in place.
- The `examples` fixtures (script.js:21-73) are not modelled.
