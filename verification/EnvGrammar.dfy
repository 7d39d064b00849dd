/**
 The line pattern of the .env parser read declaratively: which lines match it at all, and that what the
 parser reads is one of the ways to match.
 */
module EnvGrammar {
  import opened Basics
  import opened EnvText
  import opened EnvRoundTrip

  predicate AllSpace(s: string) {
    forall i | 0 <= i < |s| :: IsSpace(s[i])
  }

  /** The optional "export" and the blanks it must be followed by. */
  predicate IsExport(s: string) {
    s == "" || (|s| > 6 && s[..6] == EXPORT && AllSpace(s[6..]))
  }

  /** The pieces of a line in the order of the pattern. */
  datatype Parts = Parts(lead: string, exported: string, key: string, gap: string, space: string, value: string, tail: string) {
    function Pair(): string {
      key + (gap + ("=" + (space + (value + tail))))
    }

    function Line(): string {
      lead + (exported + Pair())
    }

    /** The value takes none of the blanks around it: the first blanks are greedy, the value is lazy. */
    ghost predicate PairFits() {
      && AllSpace(gap) && AllSpace(space) && AllSpace(tail) && IsIdentifier(key) && NoneEnds(value)
      && (value != "" ==> !IsSpace(value[0]) && !IsSpace(value[|value| - 1]))
      && (value == "" ==> tail == "")
    }

    ghost predicate Fits() {
      AllSpace(lead) && IsExport(exported) && PairFits()
    }
  }

  // ---------------------------------------------------------------- trimming

  lemma {:induction false} TrimLeftSplits(s: string) returns (blanks: string)
    ensures s == blanks + TrimLeft(s) && AllSpace(blanks)
    ensures TrimLeft(s) != "" ==> !IsSpace(TrimLeft(s)[0])
  {
    hide IsSpace;
    if s != "" && IsSpace(s[0]) {
      assert TrimLeft(s) == TrimLeft(s[1..]);
      hide TrimLeft;
      var more := TrimLeftSplits(s[1..]);
      blanks := [s[0]] + more;
      assert s == [s[0]] + s[1..];
    } else {
      blanks := "";
    }
  }

  lemma {:induction false} TrimRightSplits(s: string) returns (blanks: string)
    ensures s == TrimRight(s) + blanks && AllSpace(blanks)
    ensures TrimRight(s) != "" ==> !IsSpace(TrimRight(s)[|TrimRight(s)| - 1])
  {
    hide IsSpace;
    if s != "" && IsSpace(s[|s| - 1]) {
      var more := TrimRightSplits(s[..|s| - 1]);
      blanks := more + [s[|s| - 1]];
      assert s == s[..|s| - 1] + [s[|s| - 1]];
    } else {
      blanks := "";
    }
  }

  /** Blanks in front do not matter. */
  lemma {:induction false} TrimLeftSkips(blanks: string, s: string)
    requires AllSpace(blanks)
    ensures TrimLeft(blanks + s) == TrimLeft(s)
  {
    hide IsSpace;
    if blanks == "" {
      assert blanks + s == s;
    } else {
      assert (blanks + s)[1..] == blanks[1..] + s;
      TrimLeftSkips(blanks[1..], s);
    }
  }

  // ---------------------------------------------------------------- the pair

  lemma {:induction false} KeyLengthAtLeast(key: string, rest: string)
    requires IsKeyText(key)
    ensures KeyLength(key + rest) >= |key|
  {
    if key != "" {
      assert (key + rest)[1..] == key[1..] + rest;
      KeyLengthAtLeast(key[1..], rest);
    }
  }

  lemma KeyReadsBack(key: string, rest: string)
    requires IsKeyText(key) && (rest != "" ==> !IsKeyChar(rest[0]))
    ensures KeyLength(key + rest) == |key| && (key + rest)[..|key|] == key && (key + rest)[|key|..] == rest
  {
    KeyLengthIs(key, rest);
  }

  lemma {:induction false} TrimRightSkips(s: string, blanks: string)
    requires AllSpace(blanks)
    ensures TrimRight(s + blanks) == TrimRight(s)
  {
    hide IsSpace;
    if blanks == "" {
      assert s + blanks == s;
    } else {
      assert (s + blanks)[..|s + blanks| - 1] == s + blanks[..|blanks| - 1];
      TrimRightSkips(s, blanks[..|blanks| - 1]);
    }
  }

  /** If the pair can be taken apart, it is read that way. */
  lemma PairIsRead(p: Parts)
    requires p.PairFits()
    ensures ReadPair(p.Pair()) == Some(Row(p.key, p.value))
  {
    var after := "=" + (p.space + (p.value + p.tail));
    assert !IsKeyChar((p.gap + after)[0]);
    KeyReadsBack(p.key, p.gap + after);
    TrimLeftSkips(p.gap, after);
    assert TrimLeft(after) == after && after[1..] == p.space + (p.value + p.tail);
    TrimLeftSkips(p.space, p.value + p.tail);
    TrimRightSkips(p.value, p.tail);
    assert TrimLeft(p.value + p.tail) == p.value + p.tail;
    assert TrimRight(p.value) == p.value;
  }

  /** What is read of a pair is a way to take it apart. */
  lemma ReadIsPair(s: string) returns (p: Parts)
    requires ReadPair(s).Some?
    ensures p.PairFits() && p.Pair() == s && ReadPair(s).value == Row(p.key, p.value)
    ensures p.exported == "" && p.lead == ""
  {
    var n := KeyLength(s);
    var gap := TrimLeftSplits(s[n..]);
    var rest := TrimLeft(s[n..]);
    var space := TrimLeftSplits(rest[1..]);
    var tail := TrimRightSplits(TrimLeft(rest[1..]));
    var value := TrimRight(TrimLeft(rest[1..]));
    if value == "" {
      assert TrimLeft(rest[1..]) == tail;
      assert tail == "";
    }
    p := Parts("", "", s[..n], gap, space, value, tail);
    assert value != "" ==> value[0] == TrimLeft(rest[1..])[0];
    assert s == s[..n] + s[n..];
    assert rest == "=" + rest[1..];
  }

  // ---------------------------------------------------------------- the line

  /** After the word export and its blanks an equals sign cannot follow. */
  lemma NotExported(p: Parts)
    requires p.PairFits()
    ensures var s := p.Pair(); |s| > 6 && s[..6] == EXPORT && IsSpace(s[6]) ==> ReadPair(TrimLeft(s[6..])) == None
  {
    var s := p.Pair();
    if |s| > 6 && s[..6] == EXPORT && IsSpace(s[6]) {
      var after := "=" + (p.space + (p.value + p.tail));
      assert s == p.key + (p.gap + after);
      assert forall i | 0 <= i < |p.key| :: s[i] == p.key[i];
      assert s[|p.key|] == (p.gap + after)[0];
      assert forall i | 0 <= i < 6 :: s[i] == EXPORT[i] && IsKeyChar(EXPORT[i]);
      if |p.key| == 6 {
        assert s[6..] == p.gap + after;
        TrimLeftSkips(p.gap, after);
        assert TrimLeft(after) == after;
      }
    }
  }

  /** A line that can be taken apart in the order of the pattern is read that way, and no other. */
  lemma LineIsRead(p: Parts)
    requires p.Fits()
    ensures ReadLine(p.Line()) == Some(Row(p.key, p.value))
  {
    hide ReadPair, IsIdentifier;
    var s := p.exported + p.Pair();
    PairIsRead(p);
    assert p.Pair()[0] == p.key[0] && !IsSpace(p.Pair()[0]) by { FirstOfKey(p); }
    TrimLeftSkips(p.lead, s);
    if p.exported == "" {
      assert s == p.Pair() && TrimLeft(s) == s;
      NotExported(p);
    } else {
      assert s[..6] == EXPORT && s[0] == 'e';
      assert TrimLeft(s) == s;
      assert s[6..] == p.exported[6..] + p.Pair() && s[6] == p.exported[6..][0];
      TrimLeftSkips(p.exported[6..], p.Pair());
      assert TrimLeft(p.Pair()) == p.Pair();
    }
  }

  /**
   Any match of the pattern, however the blanks around the value are shared out: the line is read with
   that key and the value without its blanks.
   */
  lemma MatchIsRead(p: Parts)
    requires AllSpace(p.lead) && IsExport(p.exported) && AllSpace(p.gap) && AllSpace(p.space) && AllSpace(p.tail)
    requires IsIdentifier(p.key) && NoneEnds(p.value)
    ensures ReadLine(p.Line()) == Some(Row(p.key, TrimRight(TrimLeft(p.value))))
  {
    hide ReadLine, TrimLeft, TrimRight, IsExport, IsIdentifier;
    var q := Tightened(p);
    LineIsRead(q);
  }

  /** The same line with all the blanks around the value taken out of it. */
  lemma Tightened(p: Parts) returns (q: Parts)
    requires AllSpace(p.lead) && IsExport(p.exported) && AllSpace(p.gap) && AllSpace(p.space) && AllSpace(p.tail)
    requires IsIdentifier(p.key) && NoneEnds(p.value)
    ensures q.Fits() && q.Line() == p.Line() && q.key == p.key && q.value == TrimRight(TrimLeft(p.value))
  {
    hide IsSpace, IsExport, IsIdentifier, TrimLeft, TrimRight;
    var before := TrimLeftSplits(p.value);
    var rest := TrimLeft(p.value);
    var after := TrimRightSplits(rest);
    var core := TrimRight(rest);
    if core == "" {
      q := p.(space := p.space + (p.value + p.tail), value := "", tail := "");
      assert q.space + ("" + "") == p.space + (p.value + p.tail);
    } else {
      q := p.(space := p.space + before, value := core, tail := after + p.tail);
      assert q.space + (core + q.tail) == p.space + (p.value + p.tail);
      assert forall i | 0 <= i < |core| :: core[i] == p.value[|before| + i];
      assert core[0] == rest[0];
    }
    assert q.Pair() == p.Pair();
  }

  lemma FirstOfKey(p: Parts)
    requires p.PairFits()
    ensures p.key != "" && p.Pair()[0] == p.key[0] && !IsSpace(p.key[0])
  {
  }

  /** Everything read of a line is a way to take the line apart, its value without blanks around it. */
  lemma ReadIsLine(line: string) returns (p: Parts)
    requires ReadLine(line).Some?
    ensures p.Fits() && p.Line() == line && ReadLine(line).value == Row(p.key, p.value)
  {
    hide ReadPair;
    var lead := TrimLeftSplits(line);
    var s := TrimLeft(line);
    if |s| > 6 && s[..6] == EXPORT && IsSpace(s[6]) && ReadPair(TrimLeft(s[6..])).Some? {
      p := ReadIsExported(s);
    } else {
      p := ReadIsPair(s);
    }
    p := WithLead(p, lead);
  }

  lemma WithLead(p: Parts, lead: string) returns (q: Parts)
    requires p.Fits() && p.lead == "" && AllSpace(lead)
    ensures q.Fits() && q.Line() == lead + p.Line() && q.key == p.key && q.value == p.value
  {
    q := p.(lead := lead);
    assert p.Line() == p.exported + p.Pair() && q.Pair() == p.Pair();
  }

  lemma ReadIsExported(s: string) returns (p: Parts)
    requires |s| > 6 && s[..6] == EXPORT && IsSpace(s[6]) && ReadPair(TrimLeft(s[6..])).Some?
    ensures p.Fits() && p.lead == "" && p.Line() == s && ReadPair(TrimLeft(s[6..])).value == Row(p.key, p.value)
  {
    hide ReadPair;
    var rest := TrimLeft(s[6..]);
    var q := ReadIsPair(rest);
    var blanks := TrimLeftSplits(s[6..]);
    assert blanks != "" by {
      assert q.Pair()[0] == q.key[0];
      assert rest[0] == q.key[0] && !IsSpace(rest[0]);
    }
    p := q.(exported := EXPORT + blanks);
    assert p.Pair() == q.Pair() == rest;
    assert s == s[..6] + s[6..] == EXPORT + (blanks + rest);
    assert p.exported[..6] == EXPORT && p.exported[6..] == blanks;
  }
}
