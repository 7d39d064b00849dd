/** The rules of the .env text one by one: when a value is quoted, what quotes mean, where lines end, which row counts. */
module EnvRules {
  import opened Basics
  import opened EnvText
  import opened EnvRoundTrip

  /** The blanks of the ECMAScript class \s. */
  ghost const BLANKS: set<char> :=
    {'\t', '\n', '\U{B}', '\U{C}', '\r', ' ', '\U{A0}', '\U{1680}', '\U{2000}', '\U{2001}', '\U{2002}', '\U{2003}', '\U{2004}',
     '\U{2005}', '\U{2006}', '\U{2007}', '\U{2008}', '\U{2009}', '\U{200A}', '\U{2028}', '\U{2029}', '\U{202F}', '\U{205F}',
     '\U{3000}', '\U{FEFF}'}

  // ---------------------------------------------------------------- printing

  lemma {:induction false} EscapedIsLonger(v: string)
    ensures |EscapeOnce(v)| >= |v|
    decreases |v|
  {
    if v != "" {
      var n := if v[0] == '\r' && |v| > 1 && v[1] == '\n' then 2 else 1;
      EscapedIsLonger(v[n..]);
    }
  }

  /** A value is printed as it is exactly when it has no blank, hash sign, quote or backslash; else in double quotes. */
  lemma PlainIff(v: string)
    ensures Quote(v) == v <==> forall c | c in v :: c !in BLANKS && c !in {'#', '"', '\'', '\\'}
    ensures Quote(v) != v ==> |Quote(v)| >= 2 && Quote(v)[0] == '"' && Quote(v)[|Quote(v)| - 1] == '"'
  {
    assert forall c :: IsSpecial(c) <==> c in BLANKS || c in {'#', '"', '\'', '\\'};
    hide IsSpecial, Escape, EscapeOnce;
    EscapeIsOnce(v);
    EscapedIsLonger(v);
    if i :| 0 <= i < |v| && IsSpecial(v[i]) {
      assert v[i] in v;
    }
  }

  // ---------------------------------------------------------------- quotes

  /** Single quotes take their text as it is; text in no quotes, or in one only, is taken as it is, too. */
  lemma SingleQuotes(s: string, v: string)
    ensures Unquote("'" + s + "'") == s
    ensures |v| < 2 || v[0] !in {'"', '\''} || v[|v| - 1] != v[0] ==> Unquote(v) == v
  {
    assert ("'" + s + "'")[1..|s| + 1] == s;
  }

  /**
   In double quotes a backslash and n is a line feed, a backslash and any other character but a line end is
   that character, and everything else is itself.
   */
  lemma DoubleQuotes(s: string, c: char)
    ensures Unquote("\"\"") == ""
    ensures !IsLineEnd(c) ==>
              Unquote("\"\\" + [c] + s + "\"") == [if c == 'n' then '\n' else c] + Unquote("\"" + s + "\"")
    ensures c != '\\' ==> Unquote("\"" + [c] + s + "\"") == [c] + Unquote("\"" + s + "\"")
  {
    InDoubleQuotes(s);
    InDoubleQuotes(['\\', c] + s);
    InDoubleQuotes([c] + s);
    assert "\"" + (['\\', c] + s) + "\"" == "\"\\" + [c] + s + "\"";
    assert "\"" + ([c] + s) + "\"" == "\"" + [c] + s + "\"";
    assert (['\\', c] + s)[2..] == s && ([c] + s)[1..] == s;
  }

  lemma InDoubleQuotes(s: string)
    ensures Unquote("\"" + s + "\"") == Unescape(s)
  {
    assert ("\"" + s + "\"")[1..|s| + 1] == s;
  }

  // ---------------------------------------------------------------- lines

  /** A line ends at its first line feed, with or without a carriage return before it. */
  lemma LineEnds(line: string, rest: string)
    requires forall i | 0 <= i < |line| :: line[i] != '\n'
    ensures SplitLines(line) == [line]
    ensures SplitLines(line + "\r\n" + rest) == [line] + SplitLines(rest)
    ensures !EndsWith(line, "\r") ==> SplitLines(line + "\n" + rest) == [line] + SplitLines(rest)
  {
    var s, t, n := line + "\r\n" + rest, line + "\n" + rest, |line|;
    assert s[n + 1] == '\n' && s[n] == '\r' && t[n] == '\n';
    assert forall i | 0 <= i < n :: s[i] == line[i] && t[i] == line[i];
    assert BreakAt(s) == n + 1 && s[..n + 1] == line + "\r" && s[n + 2..] == rest;
    assert BreakAt(t) == n && t[..n] == line && t[n + 1..] == rest;
    assert EndsWith(line, "\r") <==> line != "" && line[n - 1] == '\r';
  }

  // ---------------------------------------------------------------- which row and which line counts

  /** The editor's value of a key is the one of its last row; a key is there when a row has it, but never the empty one. */
  lemma {:induction false} LastRowCounts(rows: seq<Row>, k: string)
    ensures k in Entries(rows) <==> k != "" && exists i :: 0 <= i < |rows| && rows[i].k == k
    ensures k in Entries(rows) ==> exists i :: 0 <= i < |rows| && rows[i] == Row(k, Entries(rows)[k])
                                               && forall j | i < j < |rows| :: rows[j].k != k
  {
    if rows != [] {
      var before, last := rows[..|rows| - 1], |rows| - 1;
      LastRowCounts(before, k);
      if rows[last].k == k {
        assert k != "" ==> rows[last] == Row(k, Entries(rows)[k]);
      } else if k in Entries(before) {
        var i :| 0 <= i < last && before[i] == Row(k, Entries(before)[k]) && forall j | i < j < last :: before[j].k != k;
        assert rows[i] == before[i];
        assert forall j | i < j < last :: rows[j].k == before[j].k;
      }
    }
  }

  /** So it is with the lines of a pasted text: the last line that reads as a pair with the key gives its value. */
  lemma {:induction false} LastLineCounts(lines: seq<string>, k: string)
    ensures k in ReadLines(lines) <==> exists i :: 0 <= i < |lines| && Pairs(lines[i], k)
    ensures k in ReadLines(lines) ==>
              exists i :: 0 <= i < |lines| && Pairs(lines[i], k) && ReadLines(lines)[k] == Unquote(ReadLine(lines[i]).value.v)
                          && forall j | i < j < |lines| :: !Pairs(lines[j], k)
  {
    hide ReadLine, Unquote;
    if lines != [] {
      var before, last := lines[..|lines| - 1], |lines| - 1;
      LastLineCounts(before, k);
      if Pairs(lines[last], k) {
        assert ReadLines(lines)[k] == Unquote(ReadLine(lines[last]).value.v);
      } else if k in ReadLines(before) {
        var i :| 0 <= i < last && Pairs(before[i], k) && ReadLines(before)[k] == Unquote(ReadLine(before[i]).value.v)
                 && forall j | i < j < last :: !Pairs(before[j], k);
        assert lines[i] == before[i];
        assert forall j | i < j < last :: lines[j] == before[j];
      } else {
        assert forall i | 0 <= i < last :: lines[i] == before[i];
      }
    }
  }

  predicate Pairs(line: string, k: string) {
    ReadLine(line).Some? && ReadLine(line).value.k == k
  }

  // ---------------------------------------------------------------- keys

  /** A letter or underscore, then letters, underscores and digits. */
  ghost predicate Named(k: string) {
    && k != "" && !('0' <= k[0] <= '9')
    && forall c | c in k :: 'A' <= c <= 'Z' || 'a' <= c <= 'z' || c == '_' || '0' <= c <= '9'
  }

  lemma NamedIsIdentifier(k: string)
    ensures Named(k) <==> IsIdentifier(k)
    ensures Named(k) ==> IsKeyText(k)
  {
    if IsIdentifier(k) {
      forall c | c in k ensures IsKeyChar(c) {
        var i :| 0 <= i < |k| && k[i] == c;
      }
    }
    if Named(k) {
      forall i | 0 <= i < |k| ensures IsKeyChar(k[i]) {
        assert k[i] in k;
      }
    }
  }

  /** Only such keys come out of any text, and each does with any clean value printed for it. */
  lemma KeysAreNamed(text: string, k: string, v: string)
    ensures k in ReadLines(SplitLines(text)) ==> Named(k)
    ensures Named(k) && Clean(v) ==> ReadLines(SplitLines(TextOf([Row(k, v)]))) == map[k := Normal(v)]
  {
    hide Named, IsIdentifier, SplitLines, Clean;
    ParsedKeys(SplitLines(text));
    NamedIsIdentifier(k);
    if Named(k) && Clean(v) {
      ParsePrinted([Row(k, v)]);
      assert [Row(k, v)][..0] == [];
    }
  }
}
