/**
 The base64url codec of the passkey pages (panel/public/assets/passkey.js, toBuf and toB64url) over
 the browser's btoa and atob: RFC 4648, section 5, with the padding of section 3.2 taken off and put back.
 */
module Base64Url {
  import opened Basics

  type Sextet = x: int | 0 <= x < 64

  // ---------------------------------------------------------------- btoa and atob

  /** The standard alphabet of section 4. */
  function Letter(v: Sextet): char {
    if v < 26 then (65 + v) as char
    else if v < 52 then (71 + v) as char
    else if v < 62 then (v - 4) as char
    else if v == 62 then '+' else '/'
  }

  function Value(c: char): Option<Sextet> {
    if 'A' <= c <= 'Z' then Some(c as int - 65)
    else if 'a' <= c <= 'z' then Some(c as int - 71)
    else if '0' <= c <= '9' then Some(c as int + 4)
    else if c == '+' then Some(62)
    else if c == '/' then Some(63)
    else None
  }

  /** Groups of three bytes as four letters, the last group cut short; no padding. */
  function Letters(b: seq<Byte>): string {
    if |b| == 0 then ""
    else if |b| == 1 then [Letter(Six0(b[0])), Letter(Six1(b[0], 0))]
    else if |b| == 2 then [Letter(Six0(b[0])), Letter(Six1(b[0], b[1])), Letter(Six2(b[1], 0))]
    else
      [Letter(Six0(b[0])), Letter(Six1(b[0], b[1])), Letter(Six2(b[1], b[2])), Letter(Six3(b[2]))] + Letters(b[3..])
  }

  // The four sextets of three bytes.

  function Six0(a: Byte): Sextet { a / 4 }
  function Six1(a: Byte, b: Byte): Sextet { a % 4 * 16 + b / 16 }
  function Six2(b: Byte, c: Byte): Sextet { b % 16 * 4 + c / 64 }
  function Six3(c: Byte): Sextet { c % 64 }

  function Padding(n: nat): string {
    if n % 3 == 1 then "==" else if n % 3 == 2 then "=" else ""
  }

  function Btoa(b: seq<Byte>): string {
    Letters(b) + Padding(|b|)
  }

  function Values(s: string): Option<seq<Sextet>> {
    if s == "" then Some([])
    else
      var v, rest := Value(s[0]), Values(s[1..]);
      if v.Some? && rest.Some? then Some([v.value] + rest.value) else None
  }

  /** Groups of four sextets as three bytes; what is left over of a short last group is dropped. */
  function Octets(v: seq<Sextet>): seq<Byte> {
    if |v| < 2 then []
    else if |v| == 2 then [Eight0(v[0], v[1])]
    else if |v| == 3 then [Eight0(v[0], v[1]), Eight1(v[1], v[2])]
    else [Eight0(v[0], v[1]), Eight1(v[1], v[2]), Eight2(v[2], v[3])] + Octets(v[4..])
  }

  // The three bytes of four sextets.

  function Eight0(x: int, y: int): Byte
    requires 0 <= x < 64 && 0 <= y < 64
  {
    x * 4 + y / 16
  }

  function Eight1(y: int, z: int): Byte
    requires 0 <= y < 64 && 0 <= z < 64
  {
    y % 16 * 16 + z / 4
  }

  function Eight2(z: int, w: int): Byte
    requires 0 <= z < 64 && 0 <= w < 64
  {
    z % 4 * 64 + w
  }

  predicate IsSpace(c: char) {
    c == ' ' || c == '\t' || c == '\n' || c == '\r' || c == 12 as char
  }

  function WithoutSpace(s: string): string {
    if s == "" then ""
    else if IsSpace(s[0]) then WithoutSpace(s[1..])
    else [s[0]] + WithoutSpace(s[1..])
  }

  /** atob: spaces go, then up to two padding characters of a full-length string; anything else odd fails. */
  function Atob(text: string): Option<seq<Byte>> {
    var s := WithoutSpace(text);
    var t := if |s| % 4 == 0 then DropPad(DropPad(s)) else s;
    var v := Values(t);
    if |t| % 4 == 1 || v.None? then None else Some(Octets(v.value))
  }

  function DropPad(s: string): string {
    if s != "" && s[|s| - 1] == '=' then s[..|s| - 1] else s
  }

  // ---------------------------------------------------------------- the codec

  function Replace(s: string, from: char, to: char): (r: string)
    ensures |r| == |s|
    ensures forall i | 0 <= i < |s| :: r[i] == if s[i] == from then to else s[i]
  {
    seq(|s|, i requires 0 <= i < |s| => if s[i] == from then to else s[i])
  }

  /** Without its trailing padding characters. */
  function StripPads(s: string): string {
    if s != "" && s[|s| - 1] == '=' then StripPads(s[..|s| - 1]) else s
  }

  /** "===".slice((length + 3) % 4) */
  function PadFor(n: nat): string {
    "==="[(n + 3) % 4..]
  }

  function Encode(b: seq<Byte>): string {
    StripPads(Replace(Replace(Btoa(b), '+', '-'), '/', '_'))
  }

  function Decode(s: string): Option<seq<Byte>> {
    Atob(Replace(Replace(s, '-', '+'), '_', '/') + PadFor(|s|))
  }

  /** An absent buffer encodes as null. */
  method ToB64url(buf: array?<Byte>) returns (text: Option<string>)
    ensures text == if buf == null then None else Some(Encode(buf[..]))
  {
    if buf == null {
      return None;
    }
    var s: string := "";
    for i := 0 to buf.Length
      invariant |s| == i && forall k | 0 <= k < i :: s[k] == buf[k] as char
    {
      s := s + [buf[i] as char];
    }
    var bytes := seq(|s|, i requires 0 <= i < |s| && s[i] as int < 256 => s[i] as Byte);
    assert bytes == buf[..];
    return Some(StripPads(Replace(Replace(Btoa(bytes), '+', '-'), '/', '_')));
  }

  /** Undecodable text throws (None). */
  method ToBuf(s: string) returns (buffer: Option<array<Byte>>)
    ensures buffer.Some? <==> Decode(s).Some?
    ensures buffer.Some? ==> buffer.value[..] == Decode(s).value && fresh(buffer.value)
  {
    var b := Atob(Replace(Replace(s, '-', '+'), '_', '/') + PadFor(|s|));
    if b.None? {
      return None;
    }
    var out := new Byte[|b.value|];
    for i := 0 to |b.value|
      invariant forall k | 0 <= k < i :: out[k] == b.value[k]
    {
      out[i] := b.value[i];
    }
    return Some(out);
  }

  // ---------------------------------------------------------------- the round trip

  lemma LetterValue(v: Sextet)
    ensures Value(Letter(v)) == Some(v)
    ensures Letter(v) != '=' && Letter(v) != '-' && Letter(v) != '_' && !IsSpace(Letter(v))
  {
  }

  /** The sextets of the letters of `b`. */
  function Sextets(b: seq<Byte>): seq<Sextet> {
    if |b| == 0 then []
    else if |b| == 1 then [Six0(b[0]), Six1(b[0], 0)]
    else if |b| == 2 then [Six0(b[0]), Six1(b[0], b[1]), Six2(b[1], 0)]
    else [Six0(b[0]), Six1(b[0], b[1]), Six2(b[1], b[2]), Six3(b[2])] + Sextets(b[3..])
  }

  lemma BytesBack(a: Byte, b: Byte, c: Byte)
    ensures Eight0(Six0(a), Six1(a, b)) == a
    ensures Eight1(Six1(a, b), Six2(b, c)) == b
    ensures Eight2(Six2(b, c), Six3(c)) == c
  {
  }

  lemma OctetsOfGroup(x: Sextet, y: Sextet, z: Sextet, w: Sextet, rest: seq<Sextet>)
    ensures Octets([x, y, z, w] + rest) == [Eight0(x, y), Eight1(y, z), Eight2(z, w)] + Octets(rest)
  {
    hide Eight0, Eight1, Eight2;
    assert ([x, y, z, w] + rest)[4..] == rest;
  }

  lemma {:induction false} OctetsSextets(b: seq<Byte>)
    ensures Octets(Sextets(b)) == b
  {
    hide Six0, Six1, Six2, Six3, Eight0, Eight1, Eight2;
    if |b| == 1 {
      BytesBack(b[0], 0, 0);
    } else if |b| == 2 {
      BytesBack(b[0], b[1], 0);
    } else if |b| >= 3 {
      BytesBack(b[0], b[1], b[2]);
      OctetsSextets(b[3..]);
      OctetsOfGroup(Six0(b[0]), Six1(b[0], b[1]), Six2(b[1], b[2]), Six3(b[2]), Sextets(b[3..]));
      assert b == [b[0], b[1], b[2]] + b[3..];
    }
  }

  lemma {:induction false} SextetCount(b: seq<Byte>)
    ensures |Sextets(b)| % 4 == (if |b| % 3 == 0 then 0 else |b| % 3 + 1)
  {
    hide Six0, Six1, Six2, Six3;
    if |b| >= 3 {
      SextetCount(b[3..]);
    }
  }

  function Spell(v: seq<Sextet>): (s: string)
    ensures |s| == |v| && forall i | 0 <= i < |v| :: s[i] == Letter(v[i])
  {
    seq(|v|, i requires 0 <= i < |v| => Letter(v[i]))
  }

  lemma {:induction false} LettersSpell(b: seq<Byte>)
    ensures Letters(b) == Spell(Sextets(b))
  {
    if |b| >= 3 {
      LettersSpell(b[3..]);
    }
  }

  lemma {:induction false} ValuesSpell(v: seq<Sextet>)
    ensures Values(Spell(v)) == Some(v)
  {
    if v != [] {
      LetterValue(v[0]);
      assert Spell(v)[1..] == Spell(v[1..]);
      ValuesSpell(v[1..]);
      assert [v[0]] + v[1..] == v;
    }
  }

  lemma {:induction false} NoSpace(s: string)
    requires forall i | 0 <= i < |s| :: !IsSpace(s[i])
    ensures WithoutSpace(s) == s
  {
    if s != "" {
      NoSpace(s[1..]);
    }
  }

  /** Text of letters only, as the codec writes it: '-' and '_' for '+' and '/'. */
  function UrlSafe(s: string): string {
    Replace(Replace(s, '+', '-'), '/', '_')
  }

  function FromUrlSafe(s: string): string {
    Replace(Replace(s, '-', '+'), '_', '/')
  }

  lemma {:induction false} StripPadsOnly(s: string, p: string)
    requires forall i | 0 <= i < |s| :: s[i] != '='
    requires forall i | 0 <= i < |p| :: p[i] == '='
    ensures StripPads(s + p) == s
    decreases |p|
  {
    if p == "" {
      assert s + p == s;
    } else {
      assert (s + p)[..|s + p| - 1] == s + p[..|p| - 1];
      StripPadsOnly(s, p[..|p| - 1]);
    }
  }

  /** Encoding writes the unpadded url-safe letters of section 5. */
  lemma EncodeIs(b: seq<Byte>)
    ensures Encode(b) == UrlSafe(Spell(Sextets(b)))
  {
    LettersSpell(b);
    var s := Spell(Sextets(b));
    forall i | 0 <= i < |s| ensures UrlSafe(s)[i] != '=' {
      LetterValue(Sextets(b)[i]);
    }
    assert UrlSafe(s + Padding(|b|)) == UrlSafe(s) + UrlSafe(Padding(|b|));
    StripPadsOnly(UrlSafe(s), UrlSafe(Padding(|b|)));
  }

  /** What decoding makes of unpadded url-safe letters. */
  lemma DecodeSpelled(v: seq<Sextet>)
    ensures Decode(UrlSafe(Spell(v))) == if |v| % 4 == 1 then None else Some(Octets(v))
  {
    var s := Spell(v);
    forall i | 0 <= i < |s| ensures s[i] != '=' && s[i] != '-' && s[i] != '_' && !IsSpace(s[i]) {
      LetterValue(v[i]);
    }
    assert FromUrlSafe(UrlSafe(s)) == s;
    ValuesSpell(v);
    AtobPadded(s, v);
  }

  lemma PadForCases(n: nat)
    ensures n % 4 == 0 ==> PadFor(n) == ""
    ensures n % 4 == 1 ==> PadFor(n) == "==="
    ensures n % 4 == 2 ==> PadFor(n) == "=="
    ensures n % 4 == 3 ==> PadFor(n) == "="
  {
    assert (n + 3) % 4 == if n % 4 == 0 then 3 else n % 4 - 1;
  }

  lemma AtobOf(text: string, t: string)
    requires forall i | 0 <= i < |text| :: !IsSpace(text[i])
    requires t == if |text| % 4 == 0 then DropPad(DropPad(text)) else text
    ensures Atob(text) == if |t| % 4 == 1 || Values(t).None? then None else Some(Octets(Values(t).value))
  {
    NoSpace(text);
  }

  lemma AtobPadded(s: string, v: seq<Sextet>)
    requires Values(s) == Some(v) && |v| == |s|
    requires forall i | 0 <= i < |s| :: s[i] != '=' && !IsSpace(s[i])
    ensures Atob(s + PadFor(|s|)) == if |v| % 4 == 1 then None else Some(Octets(v))
  {
    hide Values, Octets, Atob, PadFor;
    var n := if |s| % 4 == 0 then 0 else 4 - |s| % 4;
    PadForPads(s, n);
    TrimPadded(s, n);
    if n == 3 {
      AtobOf(Padded(s, n), Padded(s, 1));
      ValuesOfPad(s);
    } else {
      AtobOf(Padded(s, n), s);
    }
  }

  lemma PadForPads(s: string, n: nat)
    requires n == if |s| % 4 == 0 then 0 else 4 - |s| % 4
    ensures s + PadFor(|s|) == Padded(s, n)
  {
    PadForCases(|s|);
  }

  /** `s` with `n` padding characters. */
  function Padded(s: string, n: nat): (r: string)
    ensures |r| == |s| + n
    ensures forall i | 0 <= i < |r| :: r[i] == if i < |s| then s[i] else '='
  {
    seq(|s| + n, i requires 0 <= i < |s| + n => if i < |s| then s[i] else '=')
  }

  lemma DropPadded(s: string, n: nat)
    requires n > 0
    ensures DropPad(Padded(s, n)) == Padded(s, n - 1)
  {
  }

  lemma TrimPadded(s: string, n: nat)
    requires forall i | 0 <= i < |s| :: s[i] != '='
    requires n < 4 && (|s| + n) % 4 == 0
    ensures DropPad(DropPad(Padded(s, n))) == if n == 3 then Padded(s, 1) else s
    ensures Padded(s, 1) == s + "="
  {
    assert Padded(s, 0) == s;
    if n > 0 {
      DropPadded(s, n);
    }
    if n > 1 {
      DropPadded(s, n - 1);
    }
  }

  lemma {:induction false} ValuesOfPad(s: string)
    ensures Values(s + "=") == None
  {
    if s == "" {
      assert s + "=" == "=";
    } else {
      assert (s + "=")[1..] == s[1..] + "=";
      ValuesOfPad(s[1..]);
    }
  }

  /** Every byte string survives: decoding the encoded text gives it back, padding restored exactly. */
  lemma RoundTrip(b: seq<Byte>)
    ensures Decode(Encode(b)) == Some(b)
  {
    EncodeIs(b);
    DecodeSpelled(Sextets(b));
    OctetsSextets(b);
    SextetCount(b);
  }

  /** The padding put back is the padding that was taken off. */
  lemma PaddingRestored(b: seq<Byte>)
    ensures FromUrlSafe(Encode(b)) + PadFor(|Encode(b)|) == Btoa(b)
  {
    EncodeIs(b);
    LettersSpell(b);
    BackToStandard(Sextets(b));
    PadForLength(b);
  }

  lemma BackToStandard(v: seq<Sextet>)
    ensures FromUrlSafe(UrlSafe(Spell(v))) == Spell(v)
  {
    forall i | 0 <= i < |v| ensures Spell(v)[i] != '-' && Spell(v)[i] != '_' {
      LetterValue(v[i]);
    }
  }

  lemma PadForLength(b: seq<Byte>)
    ensures PadFor(|Sextets(b)|) == Padding(|b|)
  {
    SextetCount(b);
    PadForCases(|Sextets(b)|);
  }

  // ---------------------------------------------------------------- the other direction

  /** The bits of a short last group that decoding drops are zero. */
  predicate Canonical(v: seq<Sextet>) {
    (|v| % 4 == 2 ==> v[|v| - 1] % 16 == 0) && (|v| % 4 == 3 ==> v[|v| - 1] % 4 == 0)
  }

  lemma GroupBack(x: Sextet, y: Sextet, z: Sextet, w: Sextet)
    ensures Six0(Eight0(x, y)) == x && Six1(Eight0(x, y), Eight1(y, z)) == y
    ensures Six2(Eight1(y, z), Eight2(z, w)) == z && Six3(Eight2(z, w)) == w
  {
  }

  lemma TailOfTwo(x: Sextet, y: Sextet)
    ensures Six1(Eight0(x, y), 0) == y <==> y % 16 == 0
  {
    assert Eight0(x, y) % 4 == y / 16;
  }

  lemma TailOfThree(y: Sextet, z: Sextet)
    ensures Six2(Eight1(y, z), 0) == z <==> z % 4 == 0
  {
    assert Eight1(y, z) % 16 == z / 4;
  }

  lemma SextetsOctetsShort(v: seq<Sextet>)
    requires |v| == 0 || |v| == 2 || |v| == 3
    ensures Sextets(Octets(v)) == v <==> Canonical(v)
  {
    hide Six0, Six1, Six2, Six3, Eight0, Eight1, Eight2;
    if |v| == 2 {
      GroupBack(v[0], v[1], 0, 0);
      TailOfTwo(v[0], v[1]);
    } else if |v| == 3 {
      GroupBack(v[0], v[1], v[2], 0);
      TailOfThree(v[1], v[2]);
    }
  }

  lemma SextetsOfGroup(a: Byte, b: Byte, c: Byte, rest: seq<Byte>)
    ensures Sextets([a, b, c] + rest) == [Six0(a), Six1(a, b), Six2(b, c), Six3(c)] + Sextets(rest)
  {
    hide Six0, Six1, Six2, Six3;
    assert ([a, b, c] + rest)[3..] == rest;
  }

  lemma SextetsOctetsGroup(v: seq<Sextet>)
    requires |v| >= 4
    ensures Sextets(Octets(v)) == v[..4] + Sextets(Octets(v[4..]))
  {
    hide Six0, Six1, Six2, Six3, Eight0, Eight1, Eight2, Sextets;
    SextetsOfGroup(Eight0(v[0], v[1]), Eight1(v[1], v[2]), Eight2(v[2], v[3]), Octets(v[4..]));
    GroupBack(v[0], v[1], v[2], v[3]);
    assert v[..4] == [v[0], v[1], v[2], v[3]];
  }

  lemma CanonicalTail(v: seq<Sextet>)
    requires |v| >= 4 && |v| % 4 != 1
    ensures Canonical(v) <==> Canonical(v[4..])
  {
  }

  lemma {:induction false} SextetsOctets(v: seq<Sextet>)
    requires |v| % 4 != 1
    ensures Sextets(Octets(v)) == v <==> Canonical(v)
  {
    hide Sextets, Octets;
    if |v| < 4 {
      SextetsOctetsShort(v);
    } else {
      SextetsOctetsGroup(v);
      SextetsOctets(v[4..]);
      CanonicalTail(v);
      SamePrefix(v[..4], Sextets(Octets(v[4..])), v[4..]);
      assert v == v[..4] + v[4..];
    }
  }

  lemma SamePrefix(p: seq<Sextet>, r: seq<Sextet>, t: seq<Sextet>)
    ensures p + r == p + t <==> r == t
  {
    assert (p + r)[|p|..] == r && (p + t)[|p|..] == t;
  }

  lemma SpellInjective(v: seq<Sextet>, w: seq<Sextet>)
    requires UrlSafe(Spell(v)) == UrlSafe(Spell(w))
    ensures v == w
  {
    assert |Spell(v)| == |Spell(w)|;
    forall i | 0 <= i < |v| ensures v[i] == w[i] {
      assert UrlSafe(Spell(v))[i] == UrlSafe(Spell(w))[i];
      LetterValue(v[i]);
      LetterValue(w[i]);
    }
  }

  /**
   Text in the url-safe alphabet decodes exactly when its length is not 1 modulo 4, and re-encodes to
   itself exactly when no bits of its last letter are thrown away.
   */
  lemma TextRoundTrip(v: seq<Sextet>)
    ensures Decode(UrlSafe(Spell(v))).Some? <==> |v| % 4 != 1
    ensures |v| % 4 != 1 ==> (Encode(Decode(UrlSafe(Spell(v))).value) == UrlSafe(Spell(v)) <==> Canonical(v))
  {
    DecodeSpelled(v);
    if |v| % 4 != 1 {
      SextetsOctets(v);
      EncodeIs(Octets(v));
      if Encode(Octets(v)) == UrlSafe(Spell(v)) {
        SpellInjective(Sextets(Octets(v)), v);
      }
    }
  }
}
