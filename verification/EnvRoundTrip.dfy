/** When the environment editor reads back the text it prints. */
module EnvRoundTrip {
  import opened Basics
  import opened EnvText

  // ---------------------------------------------------------------- what survives

  /** Line breaks as the editor's text writes them: CRLF is one line feed. */
  function Normal(v: string): string {
    ReplaceBreaks(v, "\n")
  }

  /** No carriage return but in a CRLF, and no Unicode line or paragraph separator. */
  predicate Clean(v: string) {
    v == "" ||
    if v[0] == '\r' then |v| > 1 && v[1] == '\n' && Clean(v[2..])
    else v[0] != '\U{2028}' && v[0] != '\U{2029}' && Clean(v[1..])
  }

  predicate IsIdentifier(k: string) {
    k != "" && IsKeyStart(k[0]) && forall i | 0 <= i < |k| :: IsKeyChar(k[i])
  }

  /** What the editor's key box lets through, in either case. */
  predicate IsKeyText(k: string) {
    forall i | 0 <= i < |k| :: IsKeyChar(k[i])
  }

  ghost predicate NoneEnds(s: string) {
    forall i | 0 <= i < |s| :: !IsLineEnd(s[i])
  }

  /** Only line feeds among the line ends. */
  ghost predicate OnlyFeeds(s: string) {
    forall i | 0 <= i < |s| :: IsLineEnd(s[i]) ==> s[i] == '\n'
  }

  lemma {:induction false} CleanIsOnlyFeeds(v: string)
    ensures Clean(v) <==> OnlyFeeds(Normal(v))
  {
    if v != "" {
      var n := if v[0] == '\r' && |v| > 1 && v[1] == '\n' then 2 else 1;
      CleanIsOnlyFeeds(v[n..]);
      var head := if v[0] == '\n' || n == 2 then "\n" else [v[0]];
      assert Normal(v) == head + Normal(v[n..]);
      if OnlyFeeds(Normal(v)) {
        assert Normal(v)[0] == head[0];
        forall i | 0 <= i < |Normal(v[n..])| ensures IsLineEnd(Normal(v[n..])[i]) ==> Normal(v[n..])[i] == '\n' {
          assert Normal(v)[1 + i] == Normal(v[n..])[i];
        }
      }
    }
  }

  // ---------------------------------------------------------------- escaping and unescaping

  /** The escape of one character that is not part of a line break. */
  function EscapeChar(c: char): string {
    if c == '\\' then "\\\\" else if c == '"' then "\\\"" else [c]
  }

  /** The three replacements in one pass. */
  function EscapeOnce(v: string): string {
    if v == "" then ""
    else if v[0] == '\n' then "\\n" + EscapeOnce(v[1..])
    else if v[0] == '\r' && |v| > 1 && v[1] == '\n' then "\\n" + EscapeOnce(v[2..])
    else EscapeChar(v[0]) + EscapeOnce(v[1..])
  }

  function EscapeMarks(v: string): string {
    ReplaceChar(ReplaceChar(v, '\\', "\\\\"), '"', "\\\"")
  }

  lemma {:induction false} ReplaceCharConcat(s: string, t: string, c: char, to: string)
    ensures ReplaceChar(s + t, c, to) == ReplaceChar(s, c, to) + ReplaceChar(t, c, to)
  {
    if s == "" {
      assert s + t == t;
    } else {
      assert (s + t)[1..] == s[1..] + t;
      ReplaceCharConcat(s[1..], t, c, to);
    }
  }

  lemma EscapeMarksStep(v: string)
    requires v != ""
    ensures EscapeMarks(v) == EscapeChar(v[0]) + EscapeMarks(v[1..])
  {
    var c := v[0];
    var one := if c == '\\' then "\\\\" else [c];
    assert ReplaceChar(v, '\\', "\\\\") == one + ReplaceChar(v[1..], '\\', "\\\\");
    ReplaceCharConcat(one, ReplaceChar(v[1..], '\\', "\\\\"), '"', "\\\"");
    assert ReplaceChar(one, '"', "\\\"") == EscapeChar(c) by {
      if c == '\\' {
        assert one[1..] == ['\\'];
      }
    }
  }

  /** Replacing line breaks leaves a piece without line ends alone, whatever follows it. */
  lemma {:induction false} BreaksAfter(p: string, s: string, to: string)
    requires forall i | 0 <= i < |p| :: p[i] != '\n' && p[i] != '\r'
    ensures ReplaceBreaks(p + s, to) == p + ReplaceBreaks(s, to)
  {
    if p == "" {
      assert p + s == s;
    } else {
      assert (p + s)[1..] == p[1..] + s;
      BreaksAfter(p[1..], s, to);
    }
  }

  lemma {:induction false} EscapeIsOnce(v: string)
    ensures Escape(v) == EscapeOnce(v)
    decreases |v|
  {
    if v != "" {
      EscapeMarksStep(v);
      var rest := EscapeMarks(v[1..]);
      EscapeIsOnce(v[1..]);
      if v[0] == '\n' {
        assert EscapeMarks(v)[1..] == rest;
      } else if v[0] == '\r' {
        assert EscapeMarks(v) == ['\r'] + rest && EscapeMarks(v)[1..] == rest;
        if |v| > 1 {
          EscapeMarksStep(v[1..]);
          EscapeIsOnce(v[2..]);
          assert rest == EscapeChar(v[1]) + EscapeMarks(v[2..]);
          if v[1] == '\n' {
            assert EscapeMarks(v)[2..] == EscapeMarks(v[2..]);
          }
        }
      } else {
        BreaksAfter(EscapeChar(v[0]), rest, "\\n");
      }
    }
  }

  lemma {:induction false} UnescapeEscaped(v: string)
    ensures Unescape(EscapeOnce(v)) == Normal(v)
    decreases |v|
  {
    if v != "" {
      if v[0] == '\n' {
        UnescapeEscaped(v[1..]);
        assert EscapeOnce(v)[2..] == EscapeOnce(v[1..]);
      } else if v[0] == '\r' && |v| > 1 && v[1] == '\n' {
        UnescapeEscaped(v[2..]);
        assert EscapeOnce(v)[2..] == EscapeOnce(v[2..]);
      } else {
        UnescapeEscaped(v[1..]);
        var e := EscapeChar(v[0]);
        assert EscapeOnce(v)[|e|..] == EscapeOnce(v[1..]);
      }
    }
  }

  /** Escaping takes every line feed away, and leaves no line end at all exactly when the value is clean. */
  lemma {:induction false} EscapedEnds(v: string)
    ensures forall i | 0 <= i < |EscapeOnce(v)| :: EscapeOnce(v)[i] != '\n'
    ensures NoneEnds(EscapeOnce(v)) <==> Clean(v)
    decreases |v|
  {
    if v != "" {
      var n := if v[0] == '\r' && |v| > 1 && v[1] == '\n' then 2 else 1;
      var head := if v[0] == '\n' || n == 2 then "\\n" else EscapeChar(v[0]);
      EscapedEnds(v[n..]);
      assert EscapeOnce(v) == head + EscapeOnce(v[n..]);
      EndsOfConcat(head, EscapeOnce(v[n..]));
      assert NoneEnds(head) <==> v[0] == '\n' || n == 2 || !IsLineEnd(v[0]) by {
        if v[0] != '\n' && n == 1 {
          if IsLineEnd(v[0]) {
            assert head[0] == v[0];
          }
        }
      }
    }
  }

  lemma EndsOfConcat(s: string, t: string)
    ensures NoneEnds(s + t) <==> NoneEnds(s) && NoneEnds(t)
  {
    if NoneEnds(s + t) {
      forall i | 0 <= i < |s| ensures !IsLineEnd(s[i]) {
        assert (s + t)[i] == s[i];
      }
      forall i | 0 <= i < |t| ensures !IsLineEnd(t[i]) {
        assert (s + t)[|s| + i] == t[i];
      }
    }
  }

  lemma {:induction false} PlainIsNormal(v: string)
    requires !NeedsQuotes(v)
    ensures Clean(v) && Normal(v) == v
  {
    if v != "" {
      assert !IsSpecial(v[0]);
      forall i | 0 <= i < |v[1..]| ensures !IsSpecial(v[1..][i]) {
        assert v[1..][i] == v[i + 1];
      }
      PlainIsNormal(v[1..]);
    }
  }

  // ---------------------------------------------------------------- one line

  lemma QuotedShape(v: string)
    ensures NeedsQuotes(v) ==> Quote(v) == "\"" + EscapeOnce(v) + "\""
    ensures forall i | 0 <= i < |Quote(v)| :: Quote(v)[i] != '\n'
    ensures Quote(v) != "" ==> !IsSpace(Quote(v)[0]) && !IsSpace(Quote(v)[|Quote(v)| - 1])
    ensures NoneEnds(Quote(v)) <==> Clean(v)
  {
    if NeedsQuotes(v) {
      EscapeIsOnce(v);
      EscapedEnds(v);
      EndsOfConcat("\"" + EscapeOnce(v), "\"");
      EndsOfConcat("\"", EscapeOnce(v));
    } else {
      PlainIsNormal(v);
      forall i | 0 <= i < |v| ensures !IsSpecial(v[i]) {
      }
    }
  }

  /** Quoting and unquoting gives any value back, line breaks normalised. */
  lemma UnquoteQuote(v: string)
    ensures Unquote(Quote(v)) == Normal(v)
  {
    QuotedShape(v);
    if NeedsQuotes(v) {
      UnescapeEscaped(v);
      assert Quote(v)[1..|Quote(v)| - 1] == EscapeOnce(v);
    } else {
      PlainIsNormal(v);
      if v != "" {
        assert !IsSpecial(v[0]);
      }
    }
  }

  lemma TrimNothing(s: string)
    requires s != "" ==> !IsSpace(s[0]) && !IsSpace(s[|s| - 1])
    ensures TrimLeft(s) == s && TrimRight(s) == s
  {
  }

  lemma {:induction false} KeyLengthIs(k: string, rest: string)
    requires IsKeyText(k) && (rest != "" ==> !IsKeyChar(rest[0]))
    ensures KeyLength(k + rest) == |k|
  {
    if k == "" {
      assert k + rest == rest;
    } else {
      assert (k + rest)[1..] == k[1..] + rest;
      forall i | 0 <= i < |k[1..]| ensures IsKeyChar(k[1..][i]) {
        assert k[1..][i] == k[i + 1];
      }
      KeyLengthIs(k[1..], rest);
    }
  }

  lemma ReadPairOf(k: string, v: string)
    requires IsKeyText(k) && k != ""
    ensures ReadPair(k + ("=" + Quote(v))) == if IsIdentifier(k) && Clean(v) then Some(Row(k, Quote(v))) else None
  {
    var rest := "=" + Quote(v);
    var s := k + rest;
    KeyLengthIs(k, rest);
    assert s[..|k|] == k && s[|k|..] == rest && rest[1..] == Quote(v);
    QuotedShape(v);
    TrimNothing(Quote(v));
  }

  /** A printed line is read back exactly when its key is an identifier and its value is clean. */
  lemma ReadLineOf(r: Row)
    requires IsKeyText(r.k) && r.k != ""
    ensures ReadLine(LineOf(r)) == if IsIdentifier(r.k) && Clean(r.v) then Some(Row(r.k, Quote(r.v))) else None
  {
    hide ReadPair, Quote, Clean, IsIdentifier;
    var line := LineOf(r);
    assert line == r.k + ("=" + Quote(r.v));
    assert line[0] == r.k[0] && !IsSpace(line[0]);
    assert TrimLeft(line) == line;
    ReadPairOf(r.k, r.v);
    NotExport(r.k, Quote(r.v));
  }

  lemma NotExport(k: string, v: string)
    requires IsKeyText(k)
    ensures var line := k + ("=" + v); !(|line| > 6 && line[..6] == EXPORT && IsSpace(line[6]))
  {
    var line := k + ("=" + v);
    if |line| > 6 {
      if |k| < 6 {
        assert line[..6][|k|] == '=';
      } else if |k| > 6 {
        assert line[6] == k[6];
      } else {
        assert line[6] == '=';
      }
    }
  }

  lemma LineShape(r: Row)
    requires IsKeyText(r.k)
    ensures forall i | 0 <= i < |LineOf(r)| :: LineOf(r)[i] != '\n'
    ensures WithoutReturn(LineOf(r)) == LineOf(r)
  {
    QuotedShape(r.v);
    var line := LineOf(r);
    assert line == r.k + "=" + Quote(r.v);
    if Quote(r.v) != "" {
      assert line[|line| - 1] == Quote(r.v)[|Quote(r.v)| - 1];
    } else {
      assert line[|line| - 1] == '=';
    }
  }

  // ---------------------------------------------------------------- all lines

  ghost predicate IsLine(s: string) {
    (forall i | 0 <= i < |s| :: s[i] != '\n') && WithoutReturn(s) == s
  }

  lemma SplitFirst(line: string, rest: string)
    requires IsLine(line)
    ensures SplitLines(line + "\n" + rest) == [line] + SplitLines(rest)
  {
    var s, n := line + "\n" + rest, |line|;
    var b := BreakAt(s);
    assert s[n] == '\n';
    assert forall i | 0 <= i < n :: s[i] == line[i];
    assert b == n && s[..n] == line && s[n + 1..] == rest;
  }

  lemma {:induction false} SplitJoin(lines: seq<string>)
    requires lines != [] && forall i | 0 <= i < |lines| :: IsLine(lines[i])
    ensures SplitLines(Join(lines)) == lines
  {
    if |lines| == 1 {
      SplitLast(lines[0]);
      assert lines == [lines[0]];
    } else {
      hide SplitLines, IsLine;
      forall i | 0 <= i < |lines[1..]| ensures IsLine(lines[1..][i]) {
        assert lines[1..][i] == lines[i + 1];
      }
      SplitJoin(lines[1..]);
      SplitFirst(lines[0], Join(lines[1..]));
      assert lines == [lines[0]] + lines[1..];
    }
  }

  lemma SplitLast(line: string)
    requires IsLine(line)
    ensures SplitLines(line) == [line]
  {
  }

  predicate Readable(r: Row) {
    IsIdentifier(r.k) && Clean(r.v)
  }

  /** What reading the printed rows back gives: the readable ones, in order. */
  function ReadBack(rows: seq<Row>): map<string, string> {
    if rows == [] then map[]
    else
      var m, r := ReadBack(rows[..|rows| - 1]), rows[|rows| - 1];
      if Readable(r) then m[r.k := Normal(r.v)] else m
  }

  ghost predicate KeysFromEditor(rows: seq<Row>) {
    forall i | 0 <= i < |rows| :: IsKeyText(rows[i].k)
  }

  lemma {:induction false} LinesOfConcat(s: seq<Row>, t: seq<Row>)
    ensures LinesOf(s + t) == LinesOf(s) + LinesOf(t)
  {
    if s == [] {
      assert s + t == t;
    } else {
      assert (s + t)[1..] == s[1..] + t;
      LinesOfConcat(s[1..], t);
    }
  }

  lemma {:induction false} LinesAreLines(rows: seq<Row>)
    requires KeysFromEditor(rows)
    ensures forall i | 0 <= i < |LinesOf(rows)| :: IsLine(LinesOf(rows)[i])
  {
    if rows != [] {
      LineShape(rows[0]);
      LinesAreLines(rows[1..]);
    }
  }

  lemma {:induction false} ReadLinesOf(rows: seq<Row>)
    requires KeysFromEditor(rows)
    ensures ReadLines(LinesOf(rows)) == ReadBack(rows)
  {
    if rows != [] {
      var before, r := rows[..|rows| - 1], rows[|rows| - 1];
      assert rows == before + [r];
      LinesOfConcat(before, [r]);
      ReadLinesOf(before);
      if r.k != "" {
        assert LinesOf([r]) == [LineOf(r)];
        assert LinesOf(rows)[..|LinesOf(rows)| - 1] == LinesOf(before);
        ReadLineOf(r);
        if Readable(r) {
          UnquoteQuote(r.v);
        }
      } else {
        assert LinesOf(rows) == LinesOf(before);
      }
    }
  }

  lemma ParsePrinted(rows: seq<Row>)
    requires KeysFromEditor(rows)
    ensures ReadLines(SplitLines(TextOf(rows))) == ReadBack(rows)
  {
    ReadLinesOf(rows);
    LinesAreLines(rows);
    if LinesOf(rows) == [] {
      assert SplitLines("") == [""];
      assert ReadLine("") == None;
      assert [""][..0] == [];
    } else {
      SplitJoin(LinesOf(rows));
    }
  }

  // ---------------------------------------------------------------- the round trip

  /** Every key the editor hands out is an identifier, and the value that counts for it is clean. */
  ghost predicate AllReadable(m: map<string, string>) {
    forall k | k in m :: Readable(Row(k, m[k]))
  }

  lemma {:induction false} ReadBackFacts(rows: seq<Row>)
    ensures forall k | k in ReadBack(rows) :: k in Entries(rows) && IsIdentifier(k) && OnlyFeeds(ReadBack(rows)[k])
    ensures forall k | k in Entries(rows) && Readable(Row(k, Entries(rows)[k])) ::
              k in ReadBack(rows) && ReadBack(rows)[k] == Normal(Entries(rows)[k])
  {
    if rows != [] {
      var r := rows[|rows| - 1];
      ReadBackFacts(rows[..|rows| - 1]);
      CleanIsOnlyFeeds(r.v);
    }
  }

  /**
   Printing the rows and reading the text back gives the editor's own map, line breaks normalised,
   exactly when every key in that map is an identifier and every value in it is clean. Quotes,
   backslashes, a literal backslash-n, hash signs, blank values and repeated keys all survive; a key
   starting with a digit, a lone carriage return and U+2028 or U+2029 do not.
   */
  lemma EnvRoundTripIff(rows: seq<Row>)
    ensures ReadLines(SplitLines(TextOf(rows))) == (map k | k in Entries(rows) :: Normal(Entries(rows)[k]))
            <==> AllReadable(Entries(rows))
  {
    var m := Entries(rows);
    var want := map k | k in m :: Normal(m[k]);
    KeysAreEntries(rows);
    if i :| 0 <= i < |rows| && !IsKeyText(rows[i].k) {
      ParsedKeys(SplitLines(TextOf(rows)));
      assert rows[i].k in want && !IsIdentifier(rows[i].k);
    } else {
      KeysRoundTrip(rows);
    }
  }

  lemma {:induction false} KeysAreEntries(rows: seq<Row>)
    ensures forall i | 0 <= i < |rows| && rows[i].k != "" :: rows[i].k in Entries(rows)
  {
    if rows != [] {
      KeysAreEntries(rows[..|rows| - 1]);
      assert forall i | 0 <= i < |rows| - 1 :: rows[i] == rows[..|rows| - 1][i];
    }
  }

  /** Whatever the text, only identifiers come out as keys. */
  lemma {:induction false} ParsedKeys(lines: seq<string>)
    ensures forall k | k in ReadLines(lines) :: IsIdentifier(k)
  {
    hide ReadLine, IsIdentifier, Unquote;
    if lines != [] {
      ParsedKeys(lines[..|lines| - 1]);
      ParsedKey(lines[|lines| - 1]);
    }
  }

  lemma ParsedKey(line: string)
    ensures ReadLine(line).Some? ==> IsIdentifier(ReadLine(line).value.k)
  {
  }

  /** A printed row is read back as itself exactly when its key is an identifier and its value is clean. */
  lemma ReadLineIff(r: Row)
    ensures ReadLine(LineOf(r)) == Some(Row(r.k, Quote(r.v))) <==> IsIdentifier(r.k) && Clean(r.v)
  {
    hide ReadLine, LineOf, Quote, Clean;
    if IsKeyText(r.k) && r.k != "" {
      ReadLineOf(r);
    } else {
      ParsedKey(LineOf(r));
    }
  }

  /** The case of keys that are empty or made of key characters. */
  lemma KeysRoundTrip(rows: seq<Row>)
    requires KeysFromEditor(rows)
    ensures ReadLines(SplitLines(TextOf(rows))) == (map k | k in Entries(rows) :: Normal(Entries(rows)[k]))
            <==> AllReadable(Entries(rows))
  {
    ParsePrinted(rows);
    ReadBackFacts(rows);
    var m := Entries(rows);
    var want := map k | k in m :: Normal(m[k]);
    if AllReadable(m) {
      assert ReadBack(rows) == want;
    }
    if ReadBack(rows) == want {
      forall k | k in m ensures Readable(Row(k, m[k])) {
        assert k in want && want[k] == Normal(m[k]);
        CleanIsOnlyFeeds(m[k]);
      }
    }
  }
}
