/**
 The .env printer and parser of the environment editor (panel/public/assets/components.js): rows of keys
 and values to text, and pasted text back to a map. Characters stand for UTF-16 code units.
 */
module EnvText {
  import opened Basics

  datatype Row = Row(k: string, v: string)

  // ---------------------------------------------------------------- character classes

  /** What \s matches. */
  predicate IsSpace(c: char) {
    || '\t' <= c <= '\r' || c == ' ' || c == '\U{A0}' || c == '\U{1680}' || '\U{2000}' <= c <= '\U{200A}'
    || c == '\U{2028}' || c == '\U{2029}' || c == '\U{202F}' || c == '\U{205F}' || c == '\U{3000}' || c == '\U{FEFF}'
  }

  /** What a dot does not match. */
  predicate IsLineEnd(c: char) {
    c == '\n' || c == '\r' || c == '\U{2028}' || c == '\U{2029}'
  }

  predicate IsKeyStart(c: char) {
    'A' <= c <= 'Z' || 'a' <= c <= 'z' || c == '_'
  }

  predicate IsKeyChar(c: char) {
    IsKeyStart(c) || '0' <= c <= '9'
  }

  /** Characters that make a value be written in quotes. */
  predicate IsSpecial(c: char) {
    IsSpace(c) || c == '#' || c == '"' || c == '\'' || c == '\\'
  }

  // ---------------------------------------------------------------- printing

  function ReplaceChar(s: string, c: char, sub: string): string {
    if s == "" then ""
    else (if s[0] == c then sub else [s[0]]) + ReplaceChar(s[1..], c, sub)
  }

  /** Every line feed, with the carriage return right before it if there is one, replaced. */
  function ReplaceBreaks(s: string, sub: string): string {
    if s == "" then ""
    else if s[0] == '\n' then sub + ReplaceBreaks(s[1..], sub)
    else if s[0] == '\r' && |s| > 1 && s[1] == '\n' then sub + ReplaceBreaks(s[2..], sub)
    else [s[0]] + ReplaceBreaks(s[1..], sub)
  }

  function Escape(v: string): string {
    ReplaceBreaks(ReplaceChar(ReplaceChar(v, '\\', "\\\\"), '"', "\\\""), "\\n")
  }

  predicate NeedsQuotes(v: string) {
    exists i :: 0 <= i < |v| && IsSpecial(v[i])
  }

  function Quote(v: string): string {
    if NeedsQuotes(v) then "\"" + Escape(v) + "\"" else v
  }

  function LineOf(r: Row): string {
    r.k + "=" + Quote(r.v)
  }

  function LinesOf(rows: seq<Row>): seq<string> {
    if rows == [] then []
    else (if rows[0].k != "" then [LineOf(rows[0])] else []) + LinesOf(rows[1..])
  }

  function Join(lines: seq<string>): string {
    if lines == [] then ""
    else if |lines| == 1 then lines[0]
    else lines[0] + "\n" + Join(lines[1..])
  }

  function TextOf(rows: seq<Row>): string {
    Join(LinesOf(rows))
  }

  // ---------------------------------------------------------------- parsing

  /** Where the first line feed is, or the length. */
  function BreakAt(s: string): (i: nat)
    ensures i <= |s|
    ensures i < |s| ==> s[i] == '\n'
    ensures forall k | 0 <= k < i :: s[k] != '\n'
  {
    if s == "" || s[0] == '\n' then 0 else 1 + BreakAt(s[1..])
  }

  function WithoutReturn(s: string): string {
    if s != "" && s[|s| - 1] == '\r' then s[..|s| - 1] else s
  }

  /** text.split(/\r?\n/) */
  function SplitLines(s: string): seq<string> {
    var i := BreakAt(s);
    if i == |s| then [s] else [WithoutReturn(s[..i])] + SplitLines(s[i + 1..])
  }

  function TrimLeft(s: string): (r: string)
    ensures |r| <= |s|
  {
    if s != "" && IsSpace(s[0]) then TrimLeft(s[1..]) else s
  }

  function TrimRight(s: string): (r: string)
    ensures |r| <= |s|
  {
    if s != "" && IsSpace(s[|s| - 1]) then TrimRight(s[..|s| - 1]) else s
  }

  /** How many key characters `s` starts with. */
  function KeyLength(s: string): (n: nat)
    ensures n <= |s|
    ensures forall i | 0 <= i < n :: IsKeyChar(s[i])
    ensures n < |s| ==> !IsKeyChar(s[n])
  {
    if s != "" && IsKeyChar(s[0]) then 1 + KeyLength(s[1..]) else 0
  }

  /** key, blanks, "=", blanks, value, blanks */
  function ReadPair(s: string): Option<Row> {
    var n := KeyLength(s);
    if n == 0 || !IsKeyStart(s[0]) then None
    else
      var rest := TrimLeft(s[n..]);
      if rest == "" || rest[0] != '=' then None
      else
        var value := TrimRight(TrimLeft(rest[1..]));
        if exists i :: 0 <= i < |value| && IsLineEnd(value[i]) then None else Some(Row(s[..n], value))
  }

  const EXPORT: string := "export"

  /** One line of the file: blanks, perhaps "export" and blanks, then a pair. */
  function ReadLine(line: string): Option<Row> {
    var s := TrimLeft(line);
    var exported := if |s| > 6 && s[..6] == EXPORT && IsSpace(s[6]) then ReadPair(TrimLeft(s[6..])) else None;
    if exported.Some? then exported else ReadPair(s)
  }

  /** Backslash and any character but a line end: a line feed for n, else the character. */
  function Unescape(s: string): string {
    if |s| < 2 then s
    else if s[0] == '\\' && !IsLineEnd(s[1]) then [if s[1] == 'n' then '\n' else s[1]] + Unescape(s[2..])
    else [s[0]] + Unescape(s[1..])
  }

  function Unquote(v: string): string {
    if |v| >= 2 && v[0] == '"' && v[|v| - 1] == '"' then Unescape(v[1..|v| - 1])
    else if |v| >= 2 && v[0] == '\'' && v[|v| - 1] == '\'' then v[1..|v| - 1]
    else v
  }

  /** Lines in order, a later one winning. */
  function ReadLines(lines: seq<string>): map<string, string> {
    if lines == [] then map[]
    else
      var m := ReadLines(lines[..|lines| - 1]);
      var r := ReadLine(lines[|lines| - 1]);
      if r.Some? then m[r.value.k := Unquote(r.value.v)] else m
  }

  method ParseEnvPaste(text: string) returns (out: map<string, string>)
    ensures out == ReadLines(SplitLines(text))
  {
    out := map[];
    var lines := SplitLines(text);
    for i := 0 to |lines|
      invariant out == ReadLines(lines[..i])
    {
      assert lines[..i + 1][..i] == lines[..i];
      var mt := ReadLine(lines[i]);
      if mt.Some? {
        out := out[mt.value.k := Unquote(mt.value.v)];
      }
    }
    assert lines[..|lines|] == lines;
  }

  /** What the editor hands out: rows with a key, a later one winning. */
  function Entries(rows: seq<Row>): map<string, string> {
    if rows == [] then map[]
    else
      var m, r := Entries(rows[..|rows| - 1]), rows[|rows| - 1];
      if r.k != "" then m[r.k := r.v] else m
  }

  method Get(rows: seq<Row>) returns (out: map<string, string>)
    ensures out == Entries(rows)
  {
    out := map[];
    for i := 0 to |rows|
      invariant out == Entries(rows[..i])
    {
      assert rows[..i + 1][..i] == rows[..i];
      if rows[i].k != "" {
        out := out[rows[i].k := rows[i].v];
      }
    }
    assert rows[..|rows|] == rows;
  }
}
