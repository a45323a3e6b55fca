/** The regular expressions of the detector and of the two line validators,
    each written out over characters. `\w` is `[A-Za-z0-9_]`, `\s` is
    `Text.IsJsSpace`, `\d` is `[0-9]`, `.` is any character but a line
    terminator, and `^` and `$` anchor at the ends of the tested string. */
module Patterns {
  import opened Text

  /** `[\w-]` */
  predicate IsKeyChar(c: char)
  {
    IsWordChar(c) || c == '-'
  }

  /** `[\w\._]` (and `[\w\.]`, the same set) */
  predicate IsTableChar(c: char)
  {
    IsWordChar(c) || c == '.'
  }

  /** `/^[\w-]+:\s*\S/`: a run of key characters, a colon, then something
      other than white space somewhere after it. */
  predicate DashKeyValue(s: string)
  {
    var n := Span(s, IsKeyChar);
    1 <= n < |s| && s[n] == ':' && !AllSpace(s[n + 1..])
  }

  /** `/^[\w-]+:\s*$/` */
  predicate DashKeyOpen(s: string)
  {
    var n := Span(s, IsKeyChar);
    1 <= n < |s| && s[n] == ':' && AllSpace(s[n + 1..])
  }

  /** `/^\w+:\s*\S/` */
  predicate WordKeyValue(s: string)
  {
    var n := Span(s, IsWordChar);
    1 <= n < |s| && s[n] == ':' && !AllSpace(s[n + 1..])
  }

  /** `/^-\s+\S/` */
  predicate DashItem(s: string)
  {
    |s| >= 2 && s[0] == '-' && IsJsSpace(s[1]) && !AllSpace(s[1..])
  }

  /** `/^-\s*$/` */
  predicate DashAlone(s: string)
  {
    |s| >= 1 && s[0] == '-' && AllSpace(s[1..])
  }

  /** `/^\s*#/` */
  predicate HashAfterSpace(s: string)
  {
    var m := Span(s, IsJsSpace);
    m < |s| && s[m] == '#'
  }

  /** `/^\s+\w+:\s*\S/` */
  predicate IndentedKeyValue(s: string)
  {
    var m := Span(s, IsJsSpace);
    m >= 1 && WordKeyValue(s[m..])
  }

  /** `/^\s+-\s+\S/` */
  predicate IndentedItem(s: string)
  {
    var m := Span(s, IsJsSpace);
    m >= 1 && DashItem(s[m..])
  }

  /** The characters that may open a value in the validator's key line: `["'\d\[\{\-]`. */
  predicate ValidatorValueStart(c: char)
  {
    c == '"' || c == '\'' || IsDigit(c) || c == '[' || c == '{' || c == '-'
  }

  /** The characters that may open a value in the detector's key line: `["'\d\[\{]`. */
  predicate DetectorValueStart(c: char)
  {
    c == '"' || c == '\'' || IsDigit(c) || c == '[' || c == '{'
  }

  /** `/^\s*=\s*X/`: what must follow the key of an assignment line. */
  predicate AssignTail(rest: string, start: char -> bool)
  {
    var a := Span(rest, IsJsSpace);
    a < |rest| && rest[a] == '=' &&
    var after := rest[a + 1..];
    var b := Span(after, IsJsSpace);
    b < |after| && start(after[b])
  }

  /** `/^\w+\s*=\s*X/` where `X` is the character class `start`. */
  predicate WordAssign(s: string, start: char -> bool)
  {
    var n := Span(s, IsWordChar);
    n >= 1 && AssignTail(s[n..], start)
  }

  /** `/^\[[\w\._]+\]/` */
  predicate TableHeader(s: string)
  {
    |s| >= 1 && s[0] == '[' &&
    var n := Span(s[1..], IsTableChar);
    n >= 1 && 1 + n < |s| && s[1 + n] == ']'
  }

  /** `/^\[\[[\w\._]+\]\]/` */
  predicate ArrayTableHeader(s: string)
  {
    |s| >= 2 && s[0] == '[' && s[1] == '[' &&
    var n := Span(s[2..], IsTableChar);
    n >= 1 && 3 + n < |s| && s[2 + n] == ']' && s[3 + n] == ']'
  }

  predicate NoLineTerminator(s: string)
  {
    forall i :: 0 <= i < |s| ==> !IsLineTerminator(s[i])
  }

  // The quote at `j` can close the quoted key of the pattern /^q.*q\s*=\s*.*/ below.
  predicate ClosesQuotedKey(s: string, q: char, j: int)
  {
    1 <= j < |s| && s[j] == q && NoLineTerminator(s[1..j]) &&
    var rest := s[j + 1..];
    var a := Span(rest, IsJsSpace);
    a < |rest| && rest[a] == '='
  }

  // /^".*"\s*=\s*.*/ for q == '"', and /^'.*'\s*=\s*.*/ for q == '\''.
  predicate QuotedKeyAssign(s: string, q: char)
  {
    |s| >= 1 && s[0] == q && exists j | 1 <= j < |s| :: ClosesQuotedKey(s, q, j)
  }
}
