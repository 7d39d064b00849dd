/** What base64url text is, told from the bits: each letter stands for the next six of them. */
module Base64Bits {
  import opened Basics
  import opened Base64Url

  /** The letter `c` stands for `v`: the table of RFC 4648, section 5. */
  predicate StandsFor(c: char, v: int) {
    || ('A' <= c <= 'Z' && v == c as int - 'A' as int)
    || ('a' <= c <= 'z' && v == 26 + c as int - 'a' as int)
    || ('0' <= c <= '9' && v == 52 + c as int - '0' as int)
    || (c == '-' && v == 62)
    || (c == '_' && v == 63)
  }

  /** Bit `p` of a byte, the highest first. */
  function BitOf(x: nat, p: nat): nat
    decreases 7 - p
  {
    if p >= 7 then x % 2 else BitOf(x / 2, p + 1)
  }

  /** Bit `k` of a sequence of bytes, zeros after the last. */
  function Bit(b: seq<Byte>, k: nat): nat {
    if k / 8 < |b| then BitOf(b[k / 8], k % 8) else 0
  }

  /** The six bits from place `k` on as a number. */
  function SixBits(b: seq<Byte>, k: nat): nat {
    32 * Bit(b, k) + 16 * Bit(b, k + 1) + 8 * Bit(b, k + 2) + 4 * Bit(b, k + 3) + 2 * Bit(b, k + 4) + Bit(b, k + 5)
  }

  lemma LetterIs(v: Sextet)
    ensures StandsFor(UrlSafe([Letter(v)])[0], v)
  {
  }

  lemma ByteIsBits(x: Byte)
    ensures x / 4 == 32 * BitOf(x, 0) + 16 * BitOf(x, 1) + 8 * BitOf(x, 2) + 4 * BitOf(x, 3) + 2 * BitOf(x, 4) + BitOf(x, 5)
    ensures x % 4 == 2 * BitOf(x, 6) + BitOf(x, 7)
    ensures x / 16 == 8 * BitOf(x, 0) + 4 * BitOf(x, 1) + 2 * BitOf(x, 2) + BitOf(x, 3)
    ensures x % 16 == 8 * BitOf(x, 4) + 4 * BitOf(x, 5) + 2 * BitOf(x, 6) + BitOf(x, 7)
    ensures x / 64 == 2 * BitOf(x, 0) + BitOf(x, 1)
    ensures x % 64 == 32 * BitOf(x, 2) + 16 * BitOf(x, 3) + 8 * BitOf(x, 4) + 4 * BitOf(x, 5) + 2 * BitOf(x, 6) + BitOf(x, 7)
  {
    var a, b, c, d, e, f, g := x / 2, x / 2 / 2, x / 2 / 2 / 2, x / 2 / 2 / 2 / 2, x / 2 / 2 / 2 / 2 / 2,
                               x / 2 / 2 / 2 / 2 / 2 / 2, x / 2 / 2 / 2 / 2 / 2 / 2 / 2;
    assert BitOf(x, 7) == x % 2 && BitOf(x, 6) == BitOf(a, 7) == a % 2;
    assert BitOf(x, 5) == BitOf(a, 6) == BitOf(b, 7) == b % 2;
    assert BitOf(x, 4) == BitOf(a, 5) == BitOf(b, 6) == BitOf(c, 7) == c % 2;
    assert BitOf(x, 3) == BitOf(a, 4) == BitOf(b, 5) == BitOf(c, 6) == BitOf(d, 7) == d % 2;
    assert BitOf(x, 2) == BitOf(a, 3) == BitOf(b, 4) == BitOf(c, 5) == BitOf(d, 6) == BitOf(e, 7) == e % 2;
    assert BitOf(x, 1) == BitOf(a, 2) == BitOf(b, 3) == BitOf(c, 4) == BitOf(d, 5) == BitOf(e, 6) == BitOf(f, 7) == f % 2;
    assert BitOf(x, 0) == BitOf(a, 1) == BitOf(b, 2) == BitOf(c, 3) == BitOf(d, 4) == BitOf(e, 5) == BitOf(f, 6) == BitOf(g, 7) == g % 2;
    hide BitOf;
    Halves(x, a, b, c, d, e, f, g);
  }

  /** A byte and what halving it again and again leaves. */
  lemma Halves(x: Byte, a: nat, b: nat, c: nat, d: nat, e: nat, f: nat, g: nat)
    requires a == x / 2 && b == a / 2 && c == b / 2 && d == c / 2 && e == d / 2 && f == e / 2 && g == f / 2
    ensures g % 2 == g && f == 2 * g + f % 2 && d == 8 * g + 4 * (f % 2) + 2 * (e % 2) + d % 2
    ensures b == 4 * d + 2 * (c % 2) + b % 2
    ensures x / 4 == b && x % 4 == 2 * (a % 2) + x % 2
    ensures x / 16 == d && x % 16 == 8 * (c % 2) + 4 * (b % 2) + 2 * (a % 2) + x % 2
    ensures x / 64 == f && x % 64 == 32 * (e % 2) + 16 * (d % 2) + 8 * (c % 2) + 4 * (b % 2) + 2 * (a % 2) + x % 2
  {
    assert x == 2 * a + x % 2 && a == 2 * b + a % 2 && b == 2 * c + b % 2 && c == 2 * d + c % 2;
    assert d == 2 * e + d % 2 && e == 2 * f + e % 2 && f == 2 * g + f % 2;
    assert x == 4 * b + (2 * (a % 2) + x % 2);
    assert x == 16 * d + (8 * (c % 2) + 4 * (b % 2) + 2 * (a % 2) + x % 2);
    assert x == 64 * f + (32 * (e % 2) + 16 * (d % 2) + 8 * (c % 2) + 4 * (b % 2) + 2 * (a % 2) + x % 2);
  }

  lemma GroupIsBits(b: seq<Byte>)
    ensures |b| > 0 ==> SixBits(b, 0) == Six0(b[0]) && SixBits(b, 6) == Six1(b[0], if |b| > 1 then b[1] else 0)
    ensures |b| > 1 ==> SixBits(b, 12) == Six2(b[1], if |b| > 2 then b[2] else 0)
    ensures |b| > 2 ==> SixBits(b, 18) == Six3(b[2])
  {
    hide BitOf;
    forall p: nat ensures BitOf(0, p) == 0 {
      ZeroBit(p);
    }
    if |b| > 0 {
      ByteIsBits(b[0]);
    }
    if |b| > 1 {
      ByteIsBits(b[1]);
    }
    if |b| > 2 {
      ByteIsBits(b[2]);
    }
  }

  lemma {:induction false} ZeroBit(p: nat)
    ensures BitOf(0, p) == 0
    decreases 7 - p
  {
    if p < 7 {
      ZeroBit(p + 1);
    }
  }

  lemma BitsAfterGroup(b: seq<Byte>, k: nat)
    requires |b| > 2
    ensures SixBits(b, k + 24) == SixBits(b[3..], k)
  {
    hide BitOf;
    forall j: nat ensures Bit(b, j + 24) == Bit(b[3..], j) {
      assert (j + 24) / 8 == j / 8 + 3 && (j + 24) % 8 == j % 8;
    }
    assert forall j: nat | k <= j < k + 6 :: Bit(b, j + 24) == Bit(b[3..], j);
  }

  lemma {:induction false} SextetsAreBits(b: seq<Byte>, i: nat)
    ensures |Sextets(b)| == (8 * |b| + 5) / 6
    ensures i < |Sextets(b)| ==> Sextets(b)[i] == SixBits(b, 6 * i)
  {
    hide Bit, SixBits, Six0, Six1, Six2, Six3;
    GroupIsBits(b);
    if |b| > 2 {
      var rest := Sextets(b[3..]);
      SextetsAreBits(b[3..], if i >= 4 then i - 4 else 0);
      if 4 <= i < |rest| + 4 {
        BitsAfterGroup(b, 6 * (i - 4));
        assert Sextets(b)[i] == rest[i - 4];
      }
    }
  }

  /** Letter `i` of the encoded text stands for bits 6i to 6i + 5; there are as many letters as the bits need. */
  lemma EncodesBits(b: seq<Byte>, i: nat)
    ensures |Encode(b)| == (8 * |b| + 5) / 6
    ensures i < |Encode(b)| ==> StandsFor(Encode(b)[i], SixBits(b, 6 * i))
  {
    hide SixBits, Sextets, Letter, Encode, StandsFor;
    EncodeIs(b);
    SextetsAreBits(b, i);
    if i < |Encode(b)| {
      LetterIs(Sextets(b)[i]);
      assert Encode(b)[i] == UrlSafe([Letter(Sextets(b)[i])])[0];
    }
  }

  /** The standard letters decode to the same bytes as the url-safe ones. */
  lemma StandardLettersToo(s: string, t: string)
    requires |s| == |t|
    requires forall i | 0 <= i < |s| :: s[i] == t[i] || (s[i] == '+' && t[i] == '-') || (s[i] == '/' && t[i] == '_')
    ensures Decode(s) == Decode(t)
  {
    assert FromUrlSafe(s) == FromUrlSafe(t);
  }

  lemma {:induction false} NoValue(s: string, i: nat)
    requires i < |s| && Value(s[i]).None?
    ensures Values(s).None?
  {
    if i > 0 {
      NoValue(s[1..], i - 1);
    }
  }

  lemma {:induction false} SpacesGo(s: string, i: nat) returns (j: nat)
    requires i < |s| && !IsSpace(s[i])
    ensures j < |WithoutSpace(s)| && WithoutSpace(s)[j] == s[i]
  {
    if i == 0 {
      j := 0;
    } else {
      j := SpacesGo(s[1..], i - 1);
      if !IsSpace(s[0]) {
        j := j + 1;
      }
    }
  }

  /** Text with a character that is neither a letter of either alphabet, a blank nor padding does not decode. */
  lemma OtherCharactersFail(s: string, i: nat)
    requires i < |s| && !(exists v :: StandsFor(s[i], v)) && s[i] !in {'+', '/', '=', ' ', '\t', '\n', '\r', 12 as char}
    ensures Decode(s) == None
  {
    hide Values, Octets, WithoutSpace, PadFor;
    LettersAreKnown(s[i]);
    var text := FromUrlSafe(s) + PadFor(|s|);
    assert text[i] == s[i];
    var j := SpacesGo(text, i);
    var w := WithoutSpace(text);
    var t := if |w| % 4 == 0 then DropPad(DropPad(w)) else w;
    assert t[j] == s[i];
    NoValue(t, j);
  }

  lemma LettersAreKnown(c: char)
    ensures (Value(c) != None && c !in {'+', '/'}) || c in {'-', '_'} ==> exists v :: StandsFor(c, v)
  {
    if c in {'-', '_'} {
      assert StandsFor(c, if c == '-' then 62 else 63);
    } else if Value(c) != None && c !in {'+', '/'} {
      assert StandsFor(c, Value(c).value);
    }
  }

  /** Blanks anywhere in the text that atob gets make no difference. */
  lemma BlanksIgnored(s: string, c: char, t: string)
    requires c in {' ', '\t', '\n', '\r', 12 as char}
    ensures Atob(s + [c] + t) == Atob(s + t)
  {
    hide Values, Octets;
    SpacesGone(s, c, t);
  }

  lemma {:induction false} SpacesGone(s: string, c: char, t: string)
    requires IsSpace(c)
    ensures WithoutSpace(s + [c] + t) == WithoutSpace(s + t)
  {
    if s == "" {
      assert ("" + [c] + t)[1..] == t && "" + t == t;
    } else {
      SpacesGone(s[1..], c, t);
      assert (s + [c] + t)[1..] == s[1..] + [c] + t && (s + t)[1..] == s[1..] + t;
    }
  }
}
