/**
 * Request IDs: version 4 UUIDs formatted from 16 random bytes, the pattern they are validated against, and their
 * way through the metadata of one hop after another.
 */
module RequestId {
  import opened Wrappers

  type Byte = bv8

  // ----- Hexadecimal -----

  predicate IsLowerHex(c: char) { '0' <= c <= '9' || 'a' <= c <= 'f' }

  predicate IsHex(c: char) { IsLowerHex(c) || 'A' <= c <= 'F' }

  predicate AllHex(s: string) { forall i :: 0 <= i < |s| ==> IsHex(s[i]) }

  function HexValue(c: char): (n: Byte)
    ensures n < 16
  {
    if '0' <= c <= '9' then (c as int - '0' as int) as bv8
    else if 'a' <= c <= 'f' then (c as int - 'a' as int + 10) as bv8
    else if 'A' <= c <= 'F' then (c as int - 'A' as int + 10) as bv8
    else 0
  }

  function HexDigit(n: Byte): (c: char)
    requires n < 16
    ensures IsLowerHex(c) && HexValue(c) == n
  {
    "0123456789abcdef"[n as int]
  }

  function Lower(c: char): char {
    if 'A' <= c <= 'F' then (c as int - 'A' as int + 'a' as int) as char else c
  }

  function Lowered(s: string): (t: string)
    ensures |t| == |s| && forall i :: 0 <= i < |s| ==> t[i] == Lower(s[i])
  {
    seq(|s|, i requires 0 <= i < |s| => Lower(s[i]))
  }

  lemma SmallByte(n: int)
    requires 0 <= n < 16
    ensures (n as Byte) as int == n
  {
  }

  lemma DigitOfValue(c: char)
    requires IsHex(c)
    ensures HexDigit(HexValue(c)) == Lower(c)
  {
    if '0' <= c <= '9' {
      SmallByte(c as int - '0' as int);
    } else if 'a' <= c <= 'f' {
      SmallByte(c as int - 'a' as int + 10);
    } else {
      SmallByte(c as int - 'A' as int + 10);
    }
  }

  function High(b: Byte): (n: Byte) ensures n < 16 { b >> 4 }

  function Low(b: Byte): (n: Byte) ensures n < 16 { b & 0x0f }

  lemma HalvesOf(b: Byte)
    ensures High(b) as int == b as int / 16 && Low(b) as int == b as int % 16
  {
    assert b == High(b) * 16 + Low(b);
  }

  function Join(high: Byte, low: Byte): Byte { (high << 4) | low }

  lemma Joined(b: Byte, high: Byte, low: Byte)
    requires high < 16 && low < 16
    ensures Join(High(b), Low(b)) == b
    ensures High(Join(high, low)) == high && Low(Join(high, low)) == low
  {
  }

  function Hex(bs: seq<Byte>): (s: string)
    ensures |s| == 2 * |bs| && forall i :: 0 <= i < |s| ==> IsLowerHex(s[i])
  {
    if bs == [] then "" else [HexDigit(High(bs[0])), HexDigit(Low(bs[0]))] + Hex(bs[1..])
  }

  function UnHex(s: string): (bs: seq<Byte>)
    requires |s| % 2 == 0
    ensures |bs| == |s| / 2
  {
    if s == "" then [] else [Join(HexValue(s[0]), HexValue(s[1]))] + UnHex(s[2..])
  }

  lemma {:induction false} HexAppend(a: seq<Byte>, b: seq<Byte>)
    ensures Hex(a + b) == Hex(a) + Hex(b)
  {
    if a == [] {
      assert a + b == b && Hex(a) + Hex(b) == Hex(b);
    } else {
      assert (a + b)[1..] == a[1..] + b;
      HexAppend(a[1..], b);
    }
  }

  lemma {:induction false} UnHexAppend(a: string, b: string)
    requires |a| % 2 == 0 && |b| % 2 == 0
    ensures UnHex(a + b) == UnHex(a) + UnHex(b)
    decreases |a|
  {
    if a == "" {
      assert a + b == b && UnHex(a) + UnHex(b) == UnHex(b);
    } else {
      hide Join, HexValue;
      var first := [Join(HexValue(a[0]), HexValue(a[1]))];
      UnHexAppend(a[2..], b);
      assert (a + b)[2..] == a[2..] + b;
      assert UnHex(a + b) == first + UnHex(a[2..] + b);
    }
  }

  lemma {:induction false} UnHexHex(bs: seq<Byte>)
    ensures UnHex(Hex(bs)) == bs
  {
    if bs != [] {
      UnHexHex(bs[1..]);
      assert Hex(bs)[2..] == Hex(bs[1..]);
      Joined(bs[0], 0, 0);
    }
  }

  lemma PairOfValues(c: char, d: char)
    requires IsHex(c) && IsHex(d)
    ensures var b := Join(HexValue(c), HexValue(d));
            HexDigit(High(b)) == Lower(c) && HexDigit(Low(b)) == Lower(d)
  {
    hide IsHex;
    DigitOfValue(c);
    DigitOfValue(d);
    Joined(0, HexValue(c), HexValue(d));
  }

  lemma HexPrepend(b: Byte, bs: seq<Byte>)
    ensures Hex([b] + bs) == [HexDigit(High(b)), HexDigit(Low(b))] + Hex(bs)
  {
  }

  lemma LoweredPrepend(s: string)
    requires |s| >= 2
    ensures Lowered(s) == [Lower(s[0]), Lower(s[1])] + Lowered(s[2..])
  {
  }

  lemma {:induction false} HexUnHex(s: string)
    requires |s| % 2 == 0 && AllHex(s)
    ensures Hex(UnHex(s)) == Lowered(s)
    decreases |s|
  {
    if s != "" {
      hide IsHex, HexValue, HexDigit, Join, High, Low, Lower, Lowered, Hex;
      HexUnHex(s[2..]);
      PairOfValues(s[0], s[1]);
      HexPrepend(Join(HexValue(s[0]), HexValue(s[1])), UnHex(s[2..]));
      LoweredPrepend(s);
    }
  }

  // ----- UUIDs -----

  function Hyphenated(a: string, b: string, c: string, d: string, e: string): string {
    a + "-" + b + "-" + c + "-" + d + "-" + e
  }

  /** Groups of 4, 2, 2, 2 and 6 bytes, joined by hyphens. */
  function Format(u: seq<Byte>): (s: string)
    requires |u| == 16
    ensures |s| == 36
  {
    Hyphenated(Hex(u[0..4]), Hex(u[4..6]), Hex(u[6..8]), Hex(u[8..10]), Hex(u[10..16]))
  }

  predicate IsHyphen(i: int) { i == 8 || i == 13 || i == 18 || i == 23 }

  /** The validation pattern: hex digits of either case in groups of 8, 4, 4, 4 and 12. */
  predicate Matches(s: string) {
    |s| == 36 && forall i :: 0 <= i < 36 ==> if IsHyphen(i) then s[i] == '-' else IsHex(s[i])
  }

  function Digits(s: string): (t: string)
    requires |s| == 36
    ensures |t| == 32
  {
    s[0..8] + s[9..13] + s[14..18] + s[19..23] + s[24..36]
  }

  function Decode(s: string): (u: seq<Byte>)
    requires |s| == 36
    ensures |u| == 16
  {
    UnHex(Digits(s))
  }

  lemma FormatMatches(u: seq<Byte>)
    requires |u| == 16
    ensures Matches(Format(u)) && Lowered(Format(u)) == Format(u)
  {
  }

  lemma HyphenatedGroups(a: string, b: string, c: string, d: string, e: string)
    requires |a| == 8 && |b| == |c| == |d| == 4 && |e| == 12
    ensures var s := Hyphenated(a, b, c, d, e);
            |s| == 36 && Digits(s) == a + b + c + d + e && s[0..8] == a && s[9..13] == b && s[14..18] == c &&
                s[19..23] == d && s[24..36] == e
  {
    var s := Hyphenated(a, b, c, d, e);
    assert s[0..8] == a;
    assert s[9..13] == b;
    assert s[14..18] == c;
    assert s[19..23] == d;
    assert s[24..36] == e;
  }

  lemma HexCut(u: seq<Byte>, m: nat, n: nat)
    requires m <= n <= |u|
    ensures Hex(u[0..n]) == Hex(u[0..m]) + Hex(u[m..n])
  {
    HexAppend(u[0..m], u[m..n]);
    assert u[0..n] == u[0..m] + u[m..n];
  }

  lemma FormatGroups(u: seq<Byte>)
    requires |u| == 16
    ensures Digits(Format(u)) == Hex(u)
  {
    hide Hex, Hyphenated, Digits;
    HyphenatedGroups(Hex(u[0..4]), Hex(u[4..6]), Hex(u[6..8]), Hex(u[8..10]), Hex(u[10..16]));
    HexCut(u, 10, 16);
    HexCut(u, 8, 10);
    HexCut(u, 6, 8);
    HexCut(u, 4, 6);
    assert u[0..16] == u;
  }

  lemma DecodeFormat(u: seq<Byte>)
    requires |u| == 16
    ensures Decode(Format(u)) == u
  {
    FormatGroups(u);
    UnHexHex(u);
  }

  lemma DecodeGroups(s: string)
    requires |s| == 36
    ensures var u := Decode(s);
            && u[0..4] == UnHex(s[0..8]) && u[4..6] == UnHex(s[9..13]) && u[6..8] == UnHex(s[14..18])
            && u[8..10] == UnHex(s[19..23]) && u[10..16] == UnHex(s[24..36])
  {
    hide UnHex;
    var a, b, c, d, e := s[0..8], s[9..13], s[14..18], s[19..23], s[24..36];
    UnHexAppend(a + b + c + d, e);
    UnHexAppend(a + b + c, d);
    UnHexAppend(a + b, c);
    UnHexAppend(a, b);
    assert Decode(s) == UnHex(a) + UnHex(b) + UnHex(c) + UnHex(d) + UnHex(e);
  }

  lemma MatchesGroups(s: string)
    requires Matches(s)
    ensures s == Hyphenated(s[0..8], s[9..13], s[14..18], s[19..23], s[24..36])
    ensures AllHex(s[0..8]) && AllHex(s[9..13]) && AllHex(s[14..18]) && AllHex(s[19..23]) && AllHex(s[24..36])
  {
  }

  lemma LoweredGroups(s: string, a: string, b: string, c: string, d: string, e: string)
    requires s == Hyphenated(a, b, c, d, e)
    ensures Lowered(s) == Hyphenated(Lowered(a), Lowered(b), Lowered(c), Lowered(d), Lowered(e))
  {
  }

  lemma FormatDecode(s: string)
    requires Matches(s)
    ensures Format(Decode(s)) == Lowered(s)
  {
    var a, b, c, d, e := s[0..8], s[9..13], s[14..18], s[19..23], s[24..36];
    MatchesGroups(s);
    LoweredGroups(s, a, b, c, d, e);
    DecodeGroups(s);
    var u := Decode(s);
    assert Format(u) == Hyphenated(Hex(u[0..4]), Hex(u[4..6]), Hex(u[6..8]), Hex(u[8..10]), Hex(u[10..16]));
    hide *;
    HexUnHex(a);
    HexUnHex(b);
    HexUnHex(c);
    HexUnHex(d);
    HexUnHex(e);
  }

  /** The pattern accepts exactly the formatted UUIDs, in any mixture of case. */
  lemma MatchesIff(s: string)
    ensures Matches(s) <==> exists u: seq<Byte> :: |u| == 16 && Lowered(s) == Format(u)
  {
    if Matches(s) {
      FormatDecode(s);
    }
    if u: seq<Byte> :| |u| == 16 && Lowered(s) == Format(u) {
      FormatMatches(u);
      forall i | 0 <= i < 36 ensures if IsHyphen(i) then s[i] == '-' else IsHex(s[i]) {
        assert Format(u)[i] == Lower(s[i]);
      }
    }
  }

  /** The pattern, read as it is written: five groups of these digits, of 8, 4, 4, 4 and 12, with hyphens between. */
  ghost predicate Group(s: string, n: nat) {
    |s| == n && forall i :: 0 <= i < n ==> s[i] in "0123456789abcdefABCDEF"
  }

  lemma HexDigits(c: char)
    ensures IsHex(c) <==> c in "0123456789abcdefABCDEF"
  {
    var digits := "0123456789abcdefABCDEF";
    if '0' <= c <= '9' {
      assert c == digits[c as int - '0' as int];
    } else if 'a' <= c <= 'f' {
      assert c == digits[c as int - 'a' as int + 10];
    } else if 'A' <= c <= 'F' {
      assert c == digits[c as int - 'A' as int + 16];
    }
  }

  ghost predicate Grouped(s: string, a: string, b: string, c: string, d: string, e: string) {
    && s == a + "-" + b + "-" + c + "-" + d + "-" + e
    && Group(a, 8) && Group(b, 4) && Group(c, 4) && Group(d, 4) && Group(e, 12)
  }

  lemma PatternIff(s: string)
    ensures Matches(s) <==> exists a, b, c, d, e :: Grouped(s, a, b, c, d, e)
  {
    forall c: char ensures IsHex(c) <==> c in "0123456789abcdefABCDEF" {
      HexDigits(c);
    }
    hide IsHex;
    if Matches(s) {
      MatchesGroups(s);
      assert Grouped(s, s[0..8], s[9..13], s[14..18], s[19..23], s[24..36]);
    }
  }

  /** Each byte is two digits, the high one first. */
  lemma {:induction false} HexAt(bs: seq<Byte>, i: nat)
    requires i < |bs|
    ensures Hex(bs)[2 * i] == "0123456789abcdef"[bs[i] as int / 16]
    ensures Hex(bs)[2 * i + 1] == "0123456789abcdef"[bs[i] as int % 16]
  {
    if i > 0 {
      HexAt(bs[1..], i - 1);
    } else {
      HalvesOf(bs[0]);
    }
  }

  /** The bytes come in their order, in groups of 4, 2, 2, 2 and 6, with hyphens between. */
  lemma FormatLayout(u: seq<Byte>)
    requires |u| == 16
    ensures var s := Format(u);
            && |s| == 36 && s[8] == s[13] == s[18] == s[23] == '-'
            && s[0..8] == Hex(u[0..4]) && s[9..13] == Hex(u[4..6]) && s[14..18] == Hex(u[6..8])
            && s[19..23] == Hex(u[8..10]) && s[24..36] == Hex(u[10..16])
  {
    HyphenatedGroups(Hex(u[0..4]), Hex(u[4..6]), Hex(u[6..8]), Hex(u[8..10]), Hex(u[10..16]));
    FormatMatches(u);
  }

  // ----- Generation -----

  /** The random bytes with the version and variant bits forced. */
  function Patched(raw: seq<Byte>): (u: seq<Byte>)
    requires |raw| == 16
    ensures |u| == 16
  {
    raw[6 := (raw[6] & 0x0f) | 0x40][8 := (raw[8] & 0x3f) | 0x80]
  }

  /** Version 4 in the high half of octet 6, variant 10 in the top bits of octet 8, every other bit as it was drawn. */
  lemma PatchedBits(raw: seq<Byte>)
    requires |raw| == 16
    ensures var u := Patched(raw);
            && u[6] >> 4 == 4 && u[6] & 0x0f == raw[6] & 0x0f
            && u[8] >> 6 == 2 && u[8] & 0x3f == raw[8] & 0x3f
            && (forall i :: 0 <= i < 16 && i != 6 && i != 8 ==> u[i] == raw[i])
  {
  }

  /** `random` is what the system's random source yields. */
  method GenerateUUID(random: seq<Byte>) returns (id: string)
    requires |random| == 16
    ensures id == Format(Patched(random))
  {
    var uuid := new Byte[16](i requires 0 <= i < 16 => random[i]);
    assert uuid[..] == random;
    uuid[6] := (uuid[6] & 0x0f) | 0x40;
    uuid[8] := (uuid[8] & 0x3f) | 0x80;
    assert uuid[..] == Patched(random);
    ghost var u := uuid[..];
    assert uuid[0..4] == u[0..4] && uuid[4..6] == u[4..6] && uuid[6..8] == u[6..8] && uuid[8..10] == u[8..10] &&
        uuid[10..16] == u[10..16];
    id := Hyphenated(Hex(uuid[0..4]), Hex(uuid[4..6]), Hex(uuid[6..8]), Hex(uuid[8..10]), Hex(uuid[10..16]));
  }

  /** A generated ID is valid, and decodes to the drawn bytes but for the forced bits, which show in its digits. */
  lemma GeneratedRoundTrip(raw: seq<Byte>)
    requires |raw| == 16
    ensures var id := Format(Patched(raw));
            Matches(id) && Decode(id) == Patched(raw) && id[14] == '4' && id[19] in "89ab"
  {
    var u := Patched(raw);
    FormatMatches(u);
    DecodeFormat(u);
    PatchedBits(raw);
    HyphenatedGroups(Hex(u[0..4]), Hex(u[4..6]), Hex(u[6..8]), Hex(u[8..10]), Hex(u[10..16]));
    assert Format(u)[14] == Format(u)[14..18][0] == HexDigit(High(u[6]));
    assert Format(u)[19] == Format(u)[19..23][0] == HexDigit(High(u[8]));
    assert High(u[8]) == 8 || High(u[8]) == 9 || High(u[8]) == 10 || High(u[8]) == 11;
  }

  // ----- Propagation -----

  type Metadata = map<string, seq<string>>

  datatype Context = Context(incoming: Option<Metadata>, requestId: Option<string>)

  const HEADER := "x-request-id"

  function RequestIDFromContext(ctx: Context): string {
    match ctx.requestId case Some(id) => id case None => ""
  }

  /** The ID the caller sent, if it sent a valid one. */
  function Received(ctx: Context): Option<string> {
    if ctx.incoming.Some? && HEADER in ctx.incoming.value && ctx.incoming.value[HEADER] != [] &&
        Matches(ctx.incoming.value[HEADER][0])
    then Some(ctx.incoming.value[HEADER][0]) else None
  }

  function EnsureRequestID(ctx: Context, random: seq<Byte>): Context
    requires |random| == 16
  {
    match Received(ctx)
    case Some(id) => ctx.(requestId := Some(id))
    case None => ctx.(requestId := Some(Format(Patched(random))))
  }

  /**
   * The ID is the first that came under the header, if that matches the pattern; otherwise it is a new one, which
   * decodes to the drawn bytes but for the forced bits.  Nothing else of the context changes.
   */
  lemma FirstHop(ctx: Context, random: seq<Byte>)
    requires |random| == 16
    ensures var after := EnsureRequestID(ctx, random);
            var id := RequestIDFromContext(after);
            && after == ctx.(requestId := Some(id))
            && if ctx.incoming.Some? && "x-request-id" in ctx.incoming.value &&
                  |ctx.incoming.value["x-request-id"]| > 0 && Matches(ctx.incoming.value["x-request-id"][0])
               then id == ctx.incoming.value["x-request-id"][0]
               else Matches(id) && Decode(id) == Patched(random)
    ensures ctx.requestId == None ==> RequestIDFromContext(ctx) == ""
  {
    FormatMatches(Patched(random));
    DecodeFormat(Patched(random));
  }

  /** A hop that calls the next with its request ID in the metadata, among whatever else it sends. */
  datatype Hop = Hop(others: Metadata, random: seq<Byte>)

  function Travel(id: string, hops: seq<Hop>): string
    requires forall i :: 0 <= i < |hops| ==> |hops[i].random| == 16
    decreases |hops|
  {
    if hops == [] then id
    else
      var ctx := EnsureRequestID(Context(Some(hops[0].others[HEADER := [id]]), None), hops[0].random);
      Travel(RequestIDFromContext(ctx), hops[1..])
  }

  lemma {:induction false} ValidIdTravels(id: string, hops: seq<Hop>)
    requires Matches(id) && forall i :: 0 <= i < |hops| ==> |hops[i].random| == 16
    ensures Travel(id, hops) == id
    decreases |hops|
  {
    if hops != [] {
      var ctx := Context(Some(hops[0].others[HEADER := [id]]), None);
      assert Received(ctx) == Some(id);
      ValidIdTravels(id, hops[1..]);
    }
  }

  /**
   * Whatever a request arrives with, it gets a valid ID at its first hop and keeps it, unchanged, at all later
   * ones.
   */
  lemma {:induction false} IdIsKept(ctx: Context, random: seq<Byte>, hops: seq<Hop>)
    requires |random| == 16 && forall i :: 0 <= i < |hops| ==> |hops[i].random| == 16
    ensures var id := RequestIDFromContext(EnsureRequestID(ctx, random));
            Matches(id) && (Received(ctx).Some? ==> id == Received(ctx).value) && Travel(id, hops) == id
  {
    FormatMatches(Patched(random));
    ValidIdTravels(RequestIDFromContext(EnsureRequestID(ctx, random)), hops);
  }
}
