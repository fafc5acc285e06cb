/**
 JSON string text: the decoder of crates/tgin-botapi/src/facts.rs and the
 writer of crates/tgin-botapi/src/gateway/errors.rs, against the string grammar
 of section 7 of RFC 8259. A string is a sequence of Unicode scalar values;
 lengths are in bytes of UTF-8.
 */
module JsonText {
  import opened Wrappers

  const REPLACEMENT: char := '\U{FFFD}'

  // ---- UTF-8

  function Utf8Len(c: char): (n: nat)
    ensures 1 <= n <= 4
  {
    var v := c as int;
    if v < 0x80 then 1 else if v < 0x800 then 2 else if v < 0x10000 then 3 else 4
  }

  function Bytes(s: string): nat {
    if s == [] then 0 else Utf8Len(s[0]) + Bytes(s[1..])
  }

  lemma {:induction false} BytesOfConcat(a: string, b: string)
    ensures Bytes(a + b) == Bytes(a) + Bytes(b)
  {
    if a == [] {
      assert a + b == b;
    } else {
      assert (a + b)[1..] == a[1..] + b;
      BytesOfConcat(a[1..], b);
    }
  }

  /** The UTF-8 bytes of `c`. */
  function Encode(c: char): (bytes: seq<nat>)
    ensures |bytes| == Utf8Len(c)
    ensures if c as int < 0x80 then bytes == [c as int] else forall i :: 0 <= i < |bytes| ==> 0x80 <= bytes[i] < 0x100
  {
    var v := c as int;
    if v < 0x80 then [v]
    else if v < 0x800 then [0xC0 + v / 0x40, 0x80 + v % 0x40]
    else if v < 0x10000 then [0xE0 + v / 0x1000, 0x80 + v / 0x40 % 0x40, 0x80 + v % 0x40]
    else [0xF0 + v / 0x40000, 0x80 + v / 0x1000 % 0x40, 0x80 + v / 0x40 % 0x40, 0x80 + v % 0x40]
  }

  function EncodeAll(s: string): (bytes: seq<nat>)
    ensures |bytes| == Bytes(s)
  {
    if s == [] then [] else Encode(s[0]) + EncodeAll(s[1..])
  }

  // ---- Cutting to a limit on a char boundary

  /** `s` up to the last char that fits within `limit` bytes. */
  function Cut(s: string, limit: nat): string {
    if s == [] || Utf8Len(s[0]) > limit then [] else [s[0]] + Cut(s[1..], limit - Utf8Len(s[0]))
  }

  /** `p` is the longest prefix of `s` in whole chars of at most `limit` bytes. */
  ghost predicate IsLongestCut(s: string, limit: nat, p: string) {
    p <= s && Bytes(p) <= limit && forall r :: r <= s && Bytes(r) <= limit ==> |r| <= |p|
  }

  lemma {:induction false} CutIsLongest(s: string, limit: nat)
    ensures IsLongestCut(s, limit, Cut(s, limit))
  {
    hide IsLongestCut, Utf8Len;
    if s != [] && Utf8Len(s[0]) <= limit {
      CutIsLongest(s[1..], limit - Utf8Len(s[0]));
      LongestWithFirst(s, limit, Cut(s[1..], limit - Utf8Len(s[0])));
    } else {
      NothingFits(s, limit);
    }
  }

  lemma LongestWithFirst(s: string, limit: nat, p: string)
    requires s != [] && Utf8Len(s[0]) <= limit && IsLongestCut(s[1..], limit - Utf8Len(s[0]), p)
    ensures IsLongestCut(s, limit, [s[0]] + p)
  {
    hide Bytes, Utf8Len;
    BytesFirst([s[0]] + p);
    assert ([s[0]] + p)[1..] == p;
    forall r | r <= s && Bytes(r) <= limit
      ensures |r| <= |p| + 1
    {
      if r != [] {
        BytesFirst(r);
        assert r[1..] <= s[1..];
      }
    }
  }

  lemma NothingFits(s: string, limit: nat)
    requires s == [] || Utf8Len(s[0]) > limit
    ensures IsLongestCut(s, limit, [])
  {
    hide Utf8Len;
    forall r | r <= s && Bytes(r) <= limit
      ensures r == []
    {
      if r != [] {
        BytesFirst(r);
      }
    }
  }

  lemma BytesFirst(s: string)
    requires s != []
    ensures Bytes(s) == Utf8Len(s[0]) + Bytes(s[1..])
  {
  }

  lemma {:induction false} CutFits(s: string, limit: nat)
    requires Bytes(s) <= limit
    ensures Cut(s, limit) == s
  {
    if s != [] {
      CutFits(s[1..], limit - Utf8Len(s[0]));
    }
  }

  lemma {:induction false} CutOfConcat(a: string, b: string, limit: nat)
    ensures Cut(a + b, limit) == if Bytes(a) <= limit then a + Cut(b, limit - Bytes(a)) else Cut(a, limit)
  {
    hide Cut, Bytes, Utf8Len;
    if a == [] {
      assert a + b == b;
      assert [] + Cut(b, limit) == Cut(b, limit);
      NoBytes();
    } else {
      assert (a + b)[0] == a[0] && (a + b)[1..] == a[1..] + b;
      BytesFirst(a);
      CutFirst(a, limit);
      CutFirst(a + b, limit);
      if Utf8Len(a[0]) <= limit {
        var room := limit - Utf8Len(a[0]);
        CutOfConcat(a[1..], b, room);
        if Bytes(a) <= limit {
          assert [a[0]] + (a[1..] + Cut(b, room - Bytes(a[1..]))) == a + Cut(b, limit - Bytes(a));
        }
      }
    }
  }

  lemma CutFirst(s: string, limit: nat)
    requires s != []
    ensures Cut(s, limit) == if Utf8Len(s[0]) <= limit then [s[0]] + Cut(s[1..], limit - Utf8Len(s[0])) else []
  {
  }

  /** How many chars end at byte `end`, if a char does (or none is before it). */
  function BoundaryAt(s: string, end: nat): (k: Option<nat>)
    ensures k.Some? ==> k.value <= |s| && Bytes(s[..k.value]) == end
  {
    if end == 0 then
      assert s[..0] == [];
      Some(0)
    else if s == [] || Utf8Len(s[0]) > end then None
    else
      match BoundaryAt(s[1..], end - Utf8Len(s[0]))
      case None => None
      case Some(k) =>
        assert s[..k + 1][1..] == s[1..][..k];
        Some(k + 1)
  }

  /** A cut ends where a char ends. */
  lemma {:induction false} CutIsBoundary(s: string, limit: nat)
    ensures Bytes(Cut(s, limit)) <= limit
    ensures BoundaryAt(s, Bytes(Cut(s, limit))) == Some(|Cut(s, limit)|) && s[..|Cut(s, limit)|] == Cut(s, limit)
  {
    if s != [] && Utf8Len(s[0]) <= limit {
      var p := Cut(s, limit);
      assert p[1..] == Cut(s[1..], limit - Utf8Len(s[0]));
      CutIsBoundary(s[1..], limit - Utf8Len(s[0]));
    }
  }

  /** No char of `s` ends between the end of the cut and the limit. */
  lemma {:induction false} NoBoundaryBeyondCut(s: string, limit: nat, end: nat)
    requires Bytes(Cut(s, limit)) < end <= limit && limit < Bytes(s)
    ensures BoundaryAt(s, end).None?
  {
    if Utf8Len(s[0]) <= limit {
      var u, p := Utf8Len(s[0]), Cut(s, limit);
      assert p[1..] == Cut(s[1..], limit - u);
      if u <= end {
        NoBoundaryBeyondCut(s[1..], limit - u, end - u);
      }
    }
  }

  /** `s` cut to at most `limit` bytes: steps back from `limit` to a char boundary. */
  method Floor(s: string, limit: nat) returns (p: string)
    ensures p == Cut(s, limit)
  {
    if Bytes(s) <= limit {
      CutFits(s, limit);
      return s;
    }
    var end := limit;
    CutIsBoundary(s, limit);
    while BoundaryAt(s, end).None?
      invariant Bytes(Cut(s, limit)) <= end <= limit
      decreases end
    {
      end := end - 1;
    }
    if end > Bytes(Cut(s, limit)) {
      NoBoundaryBeyondCut(s, limit, end);
    }
    p := s[..BoundaryAt(s, end).value];
  }

  // ---- Escapes

  predicate IsHex(c: char) {
    '0' <= c <= '9' || 'a' <= c <= 'f' || 'A' <= c <= 'F'
  }

  function HexDigit(c: char): (v: nat)
    requires IsHex(c)
    ensures v < 16
  {
    if c <= '9' then c as int - '0' as int
    else if c <= 'F' then c as int - 'A' as int + 10
    else c as int - 'a' as int + 10
  }

  predicate FourHex(h: string) {
    |h| == 4 && IsHex(h[0]) && IsHex(h[1]) && IsHex(h[2]) && IsHex(h[3])
  }

  function HexValue(h: string): (v: nat)
    requires FourHex(h)
    ensures v < 0x10000
  {
    HexDigit(h[0]) * 0x1000 + HexDigit(h[1]) * 0x100 + HexDigit(h[2]) * 0x10 + HexDigit(h[3])
  }

  /** The four hex digits at the start of `s`. */
  function Hex4(s: string): (v: Option<nat>)
    ensures v.Some? ==> |s| >= 4 && v.value < 0x10000
  {
    if |s| >= 4 && FourHex(s[..4]) then Some(HexValue(s[..4])) else None
  }

  predicate IsHigh(unit: nat) {
    0xD800 <= unit < 0xDC00
  }

  predicate IsLow(unit: nat) {
    0xDC00 <= unit < 0xE000
  }

  /** The char of a unit that is no half of a pair; U+FFFD for a lone surrogate. */
  function Single(unit: nat): char
    requires unit < 0x10000
  {
    if IsHigh(unit) || IsLow(unit) then REPLACEMENT else unit as char
  }

  function Joined(high: nat, low: nat): (c: char)
    requires IsHigh(high) && IsLow(low)
    ensures Utf8Len(c) == 4
  {
    (0x10000 + (high - 0xD800) * 0x400 + (low - 0xDC00)) as char
  }

  datatype Decoded = Decoded(c: char, rest: string)

  /** A `\u` escape, given the text after the `u`: joins a surrogate pair written as two escapes. */
  function UnescapeUnicode(s: string): (d: Decoded)
    ensures |d.rest| <= |s|
  {
    match Hex4(s)
    case None => Decoded(REPLACEMENT, s)
    case Some(unit) =>
      var rest := s[4..];
      if IsHigh(unit) && "\\u" <= rest && Hex4(rest[2..]).Some? && IsLow(Hex4(rest[2..]).value)
      then Decoded(Joined(unit, Hex4(rest[2..]).value), rest[6..])
      else Decoded(Single(unit), rest)
  }

  /** The char of one escape, given the text after its backslash. */
  function UnescapeOne(s: string): (d: Decoded)
    ensures |d.rest| <= |s|
  {
    if s == [] then Decoded(REPLACEMENT, s)
    else
      var c, rest := s[0], s[1..];
      if c == '"' || c == '\\' || c == '/' then Decoded(c, rest)
      else if c == 'b' then Decoded('\U{8}', rest)
      else if c == 'f' then Decoded('\U{C}', rest)
      else if c == 'n' then Decoded('\n', rest)
      else if c == 'r' then Decoded('\r', rest)
      else if c == 't' then Decoded('\t', rest)
      else if c == 'u' then UnescapeUnicode(rest)
      else Decoded(REPLACEMENT, rest)
  }

  /** The whole text `inner` decodes to, without a limit. */
  function Decode(inner: string): string
    decreases |inner|
  {
    if inner == [] then []
    else if inner[0] != '\\' then [inner[0]] + Decode(inner[1..])
    else
      var d := UnescapeOne(inner[1..]);
      [d.c] + Decode(d.rest)
  }

  predicate Plainly(s: string) {
    forall c | c in s :: c != '\\'
  }

  lemma {:induction false} DecodePlain(plain: string, rest: string)
    requires Plainly(plain)
    ensures Decode(plain + rest) == plain + Decode(rest)
  {
    if plain == [] {
      assert plain + rest == rest;
    } else {
      assert (plain + rest)[1..] == plain[1..] + rest;
      assert plain[0] in plain;
      assert forall c | c in plain[1..] :: c in plain;
      DecodePlain(plain[1..], rest);
    }
  }

  /** Where the first backslash is, or the length. */
  function FindEscape(s: string): (k: nat)
    ensures k <= |s| && Plainly(s[..k]) && (k < |s| ==> s[k] == '\\')
  {
    if s == [] || s[0] == '\\' then 0
    else
      var k := 1 + FindEscape(s[1..]);
      assert s[..k] == [s[0]] + s[1..][..k - 1];
      k
  }

  /** Where the text of a JSON string is. */
  datatype Text = Verbatim(text: string) | Range(start: nat, end: nat)

  /**
   `unescape`: the text of `inner` cut to at most `limit` bytes, verbatim when
   it has no escapes and else appended to `out`; the range is in chars of `out`.
   */
  method Unescape(inner: string, limit: nat, out: string) returns (text: Text, grown: string)
    ensures text.Verbatim? <==> Plainly(inner)
    ensures text.Verbatim? ==> grown == out && text.text == Cut(Decode(inner), limit)
    ensures text.Range? ==>
              && text.start == |out| && text.end == |grown|
              && grown == out + Cut(Decode(inner), limit)
  {
    var first := FindEscape(inner);
    if first == |inner| {
      assert inner[..first] == inner && inner + [] == inner;
      DecodePlain(inner, []);
      var p := Floor(inner, limit);
      return Verbatim(p), out;
    }
    assert inner[first] in inner;
    var added := DecodeWithin(inner, limit);
    grown := out + added;
    text := Range(|out|, |grown|);
  }

  /** The loop of `unescape`: what it appends. */
  method DecodeWithin(inner: string, limit: nat) returns (added: string)
    ensures added == Cut(Decode(inner), limit)
  {
    hide Cut, Decode, Bytes, Utf8Len, UnescapeOne, Plainly, FindEscape;
    added := [];
    NoBytes();
    var rest := inner;
    while rest != []
      invariant Bytes(added) <= limit
      invariant Cut(Decode(inner), limit) == added + Cut(Decode(rest), limit - Bytes(added))
      decreases |rest|
    {
      var k := FindEscape(rest);
      var plain, escaped := rest[..k], rest[k..];
      var room := limit - Bytes(added);
      PlainStep(plain, escaped, rest, room);
      if Bytes(plain) > room {
        var p := Floor(plain, room);
        return added + p;
      }
      BytesOfConcat(added, plain);
      Regroup(added, plain, Cut(Decode(escaped), room - Bytes(plain)));
      added := added + plain;
      if escaped == [] {
        NothingLeft(limit - Bytes(added));
        return;
      }
      EscapeStep(escaped, limit - Bytes(added));
      var d := UnescapeOne(escaped[1..]);
      if Utf8Len(d.c) > limit - Bytes(added) {
        return;
      }
      OneChar(d.c);
      BytesOfConcat(added, [d.c]);
      Regroup(added, [d.c], Cut(Decode(d.rest), limit - Bytes(added) - Utf8Len(d.c)));
      added := added + [d.c];
      rest := d.rest;
    }
    NothingLeft(limit - Bytes(added));
  }

  lemma Regroup(a: string, b: string, c: string)
    ensures a + (b + c) == (a + b) + c
  {
  }

  lemma NoBytes()
    ensures Bytes([]) == 0
  {
  }

  lemma OneChar(c: char)
    ensures Bytes([c]) == Utf8Len(c)
  {
  }

  lemma NothingLeft(room: nat)
    ensures Cut(Decode([]), room) == []
  {
  }

  lemma EscapeStep(escaped: string, room: nat)
    requires escaped != [] && escaped[0] == '\\'
    ensures var d := UnescapeOne(escaped[1..]);
            Cut(Decode(escaped), room) == if Utf8Len(d.c) <= room then [d.c] + Cut(Decode(d.rest), room - Utf8Len(d.c)) else []
  {
  }

  lemma PlainStep(plain: string, escaped: string, rest: string, room: nat)
    requires plain + escaped == rest && Plainly(plain)
    ensures Cut(Decode(rest), room) == if Bytes(plain) <= room then plain + Cut(Decode(escaped), room - Bytes(plain)) else Cut(plain, room)
  {
    DecodePlain(plain, escaped);
    CutOfConcat(plain, Decode(escaped), room);
  }

  // ---- The grammar of section 7 of RFC 8259, and what a string body means

  /** One `char` of the grammar: unescaped, a two-character escape, or `\u` and four hex digits. */
  datatype Piece = Plain(c: char) | Short(c: char) | Unit(hex: string)

  predicate WellFormed(p: Piece) {
    match p
    case Plain(c) => c >= ' ' && c != '"' && c != '\\'
    case Short(c) => c in "\"\\/bfnrt"
    case Unit(hex) => FourHex(hex)
  }

  predicate AllWellFormed(ps: seq<Piece>) {
    forall i :: 0 <= i < |ps| ==> WellFormed(ps[i])
  }

  function Written(p: Piece): string {
    match p
    case Plain(c) => [c]
    case Short(c) => ['\\', c]
    case Unit(hex) => "\\u" + hex
  }

  function Render(ps: seq<Piece>): string {
    if ps == [] then [] else Written(ps[0]) + Render(ps[1..])
  }

  function ShortMeans(c: char): char {
    if c == 'b' then '\U{8}'
    else if c == 'f' then '\U{C}'
    else if c == 'n' then '\n'
    else if c == 'r' then '\r'
    else if c == 't' then '\t'
    else c
  }

  /** The two first pieces write a surrogate pair. */
  predicate IsPair(ps: seq<Piece>)
    requires AllWellFormed(ps)
  {
    |ps| >= 2 && ps[0].Unit? && ps[1].Unit? && IsHigh(HexValue(ps[0].hex)) && IsLow(HexValue(ps[1].hex))
  }

  /** What the body stands for: pairs joined, lone surrogates replaced. */
  function Meaning(ps: seq<Piece>): string
    requires AllWellFormed(ps)
    decreases |ps|
  {
    if ps == [] then []
    else if IsPair(ps) then [Joined(HexValue(ps[0].hex), HexValue(ps[1].hex))] + Meaning(ps[2..])
    else
      var c := match ps[0] case Plain(c) => c case Short(c) => ShortMeans(c) case Unit(hex) => Single(HexValue(hex));
      [c] + Meaning(ps[1..])
  }

  lemma Hex4OfUnit(hex: string, rest: string)
    requires FourHex(hex)
    ensures Hex4(hex + rest) == Some(HexValue(hex)) && (hex + rest)[4..] == rest
  {
    assert (hex + rest)[..4] == hex;
  }

  /** After a high surrogate, the decoder sees the other half exactly when the next piece is one. */
  lemma NextHalf(ps: seq<Piece>)
    requires AllWellFormed(ps)
    ensures var rest := Render(ps);
            "\\u" <= rest && Hex4(rest[2..]).Some? && IsLow(Hex4(rest[2..]).value) <==>
            ps != [] && ps[0].Unit? && IsLow(HexValue(ps[0].hex))
    ensures ps != [] && ps[0].Unit? ==> Hex4(Render(ps)[2..]) == Some(HexValue(ps[0].hex)) && Render(ps)[6..] == Render(ps[1..])
  {
    hide HexValue, Hex4, IsLow;
    if ps != [] {
      assert WellFormed(ps[0]);
      RenderFirst(ps);
      match ps[0] {
        case Unit(hex) => UnitFirst(hex, Render(ps[1..]));
        case Short(c) => assert Render(ps)[1] == c;
        case Plain(c) => assert Render(ps)[0] == c;
      }
    }
  }

  lemma RenderFirst(ps: seq<Piece>)
    requires ps != []
    ensures Render(ps) == Written(ps[0]) + Render(ps[1..])
  {
  }

  lemma UnitFirst(hex: string, tail: string)
    requires FourHex(hex)
    ensures var rest := Written(Unit(hex)) + tail;
            "\\u" <= rest && Hex4(rest[2..]) == Some(HexValue(hex)) && rest[6..] == tail
  {
    hide HexValue, Hex4;
    var rest := Written(Unit(hex)) + tail;
    Hex4OfUnit(hex, tail);
    assert rest[2..] == hex + tail;
    assert rest[6..] == (hex + tail)[4..];
  }

  lemma WellFormedRest(ps: seq<Piece>, k: nat)
    requires AllWellFormed(ps) && k <= |ps|
    ensures AllWellFormed(ps[k..])
  {
  }

  /** One piece, or a pair, decodes to the one char it means. */
  lemma DecodeFirst(ps: seq<Piece>)
    requires AllWellFormed(ps) && ps != []
    ensures AllWellFormed(ps[1..]) && (|ps| >= 2 ==> AllWellFormed(ps[2..]))
    ensures var rest := if IsPair(ps) then ps[2..] else ps[1..];
            Decode(Render(ps)) == [Meaning(ps)[0]] + Decode(Render(rest))
  {
    hide Decode, Render, HexValue;
    WellFormedRest(ps, 1);
    if |ps| >= 2 {
      WellFormedRest(ps, 2);
      assert ps[1..][1..] == ps[2..] && ps[1..][0] == ps[1];
    }
    RenderFirst(ps);
    assert WellFormed(ps[0]);
    match ps[0] {
      case Plain(c) => DecodePlainPiece(c, Render(ps[1..]));
      case Short(c) => DecodeShortPiece(c, Render(ps[1..]));
      case Unit(hex) => DecodeUnit(hex, ps[1..]);
    }
  }

  lemma DecodePlainPiece(c: char, tail: string)
    requires WellFormed(Plain(c))
    ensures Decode(Written(Plain(c)) + tail) == [c] + Decode(tail)
  {
    assert ([c] + tail)[1..] == tail;
  }

  lemma DecodeShortPiece(c: char, tail: string)
    requires WellFormed(Short(c))
    ensures Decode(Written(Short(c)) + tail) == [ShortMeans(c)] + Decode(tail)
  {
    var body := ['\\', c] + tail;
    assert body[0] == '\\' && body[1..][0] == c && body[1..][1..] == tail;
  }

  lemma DecodeUnit(hex: string, ps: seq<Piece>)
    requires FourHex(hex) && AllWellFormed(ps)
    ensures var unit := HexValue(hex);
            if IsHigh(unit) && ps != [] && ps[0].Unit? && IsLow(HexValue(ps[0].hex))
            then Decode(Written(Unit(hex)) + Render(ps)) == [Joined(unit, HexValue(ps[0].hex))] + Decode(Render(ps[1..]))
            else Decode(Written(Unit(hex)) + Render(ps)) == [Single(unit)] + Decode(Render(ps))
  {
    hide HexValue, Joined, Single, Render;
    var tail := Render(ps);
    var body := "\\u" + hex + tail;
    assert body[0] == '\\' && body[1..][0] == 'u' && body[1..][1..] == hex + tail;
    Hex4OfUnit(hex, tail);
    NextHalf(ps);
  }

  /** For every valid string body, the decoder yields what the body stands for. */
  lemma {:induction false} DecodesMeaning(ps: seq<Piece>)
    requires AllWellFormed(ps)
    ensures Decode(Render(ps)) == Meaning(ps)
    decreases |ps|
  {
    hide Decode, Render;
    if ps == [] {
      DecodeEmpty();
    } else {
      DecodeFirst(ps);
      DecodesMeaning(if IsPair(ps) then ps[2..] else ps[1..]);
    }
  }

  lemma DecodeEmpty()
    ensures Decode(Render([])) == []
  {
  }

  lemma WrittenBytes(p: Piece)
    requires WellFormed(p)
    ensures Bytes(Written(p)) == match p case Plain(c) => Utf8Len(c) case Short(_) => 2 case Unit(_) => 6
  {
    match p {
      case Plain(c) =>
      case Short(c) => assert Utf8Len(c) == 1; assert Bytes([c]) == 1; assert ['\\', c][1..] == [c];
      case Unit(hex) =>
        BytesOfConcat("\\u", hex);
        assert Bytes("\\u") == 2 by { assert "\\u"[1..] == "u"; assert Bytes("u") == 1; }
        assert hex == [hex[0], hex[1], hex[2], hex[3]];
        FourBytes(hex);
    }
  }

  lemma FourBytes(hex: string)
    requires FourHex(hex)
    ensures Bytes(hex) == 4
  {
    hide Bytes;
    var a, b, c := hex[1..], hex[2..], hex[3..];
    assert a[1..] == b && b[1..] == c && c[1..] == [];
    OneMoreByte(hex);
    OneMoreByte(a);
    OneMoreByte(b);
    OneMoreByte(c);
    NoBytes();
  }

  lemma OneMoreByte(s: string)
    requires s != [] && IsHex(s[0])
    ensures Bytes(s) == 1 + Bytes(s[1..])
  {
  }

  /** Every escape is longer than the UTF-8 it decodes to. */
  lemma {:induction false} MeaningIsNoLonger(ps: seq<Piece>)
    requires AllWellFormed(ps)
    ensures Bytes(Meaning(ps)) <= Bytes(Render(ps))
    decreases |ps|
  {
    hide Bytes, Written, Utf8Len, HexValue;
    if ps != [] {
      WellFormedRest(ps, 1);
      WrittenBytes(ps[0]);
      BytesOfConcat(Written(ps[0]), Render(ps[1..]));
      BytesOfConcat([Meaning(ps)[0]], Meaning(ps)[1..]);
      OneChar(Meaning(ps)[0]);
      assert Meaning(ps) == [Meaning(ps)[0]] + Meaning(ps)[1..];
      FirstIsNoLonger(ps);
      if IsPair(ps) {
        WellFormedRest(ps, 2);
        assert ps[1..][1..] == ps[2..] && ps[1..][0] == ps[1];
        WrittenBytes(ps[1]);
        BytesOfConcat(Written(ps[1]), Render(ps[2..]));
        MeaningIsNoLonger(ps[2..]);
      } else {
        MeaningIsNoLonger(ps[1..]);
      }
    }
  }

  lemma FirstIsNoLonger(ps: seq<Piece>)
    requires AllWellFormed(ps) && ps != []
    ensures Utf8Len(Meaning(ps)[0]) <= if ps[0].Plain? then Utf8Len(ps[0].c) else if ps[0].Short? then 1 else if IsPair(ps) then 4 else 3
  {
    hide HexValue;
  }

  /**
   For every valid string body and limit, what `Unescape` yields is the longest
   prefix in whole chars of the decoded text that fits the limit, and takes at
   most `min(input length, limit)` bytes.
   */
  lemma UnescapeWithinLimit(ps: seq<Piece>, limit: nat)
    requires AllWellFormed(ps)
    ensures var got := Cut(Decode(Render(ps)), limit);
            IsLongestCut(Meaning(ps), limit, got) && Bytes(got) <= Min(Bytes(Render(ps)), limit)
  {
    hide Decode, Render, Meaning, Bytes, Cut;
    DecodesMeaning(ps);
    CutIsLongest(Meaning(ps), limit);
    MeaningIsNoLonger(ps);
    var got := Cut(Meaning(ps), limit);
    assert Meaning(ps) == got + Meaning(ps)[|got|..];
    BytesOfConcat(got, Meaning(ps)[|got|..]);
  }

  // ---- The writer

  function HexChar(v: nat): (c: char)
    requires v < 16
    ensures IsHex(c) && HexDigit(c) == v
  {
    "0123456789abcdef"[v]
  }

  /** How the writer writes the char `c`. */
  function PieceOf(c: char): (p: Piece)
    ensures WellFormed(p)
  {
    var v := c as int;
    if c == '"' || c == '\\' then Short(c)
    else if c == '\n' then Short('n')
    else if c == '\r' then Short('r')
    else if c == '\t' then Short('t')
    else if v < 0x20 then Unit(['0', '0', HexChar(v / 16), HexChar(v % 16)])
    else Plain(c)
  }

  function PiecesOf(s: string): (ps: seq<Piece>)
    ensures AllWellFormed(ps) && |ps| == |s|
  {
    if s == [] then [] else [PieceOf(s[0])] + PiecesOf(s[1..])
  }

  /** `push_string` on one byte. */
  function EscapeByte(b: nat): seq<nat> {
    if b == 0x22 then [0x5C, 0x22]
    else if b == 0x5C then [0x5C, 0x5C]
    else if b == 0x0A then [0x5C, 0x6E]
    else if b == 0x0D then [0x5C, 0x72]
    else if b == 0x09 then [0x5C, 0x74]
    else if b < 0x20 then [0x5C, 0x75, 0x30, 0x30, HexChar(b / 16) as int, HexChar(b % 16) as int]
    else [b]
  }

  function EscapeBytes(bytes: seq<nat>): seq<nat> {
    if bytes == [] then [] else EscapeByte(bytes[0]) + EscapeBytes(bytes[1..])
  }

  /** `push_string`: `s` as a JSON string, byte by byte. */
  method PushString(out: seq<nat>, s: string) returns (grown: seq<nat>)
    ensures grown == out + [0x22] + EscapeBytes(EncodeAll(s)) + [0x22]
    ensures grown == out + EncodeAll("\"" + Render(PiecesOf(s)) + "\"")
  {
    hide PiecesOf, Render, EncodeAll, EscapeByte;
    grown := out + [0x22];
    var bytes := EncodeAll(s);
    for i := 0 to |bytes|
      invariant grown == out + [0x22] + EscapeBytes(bytes[..i])
    {
      EscapeBytesSplit(bytes[..i], [bytes[i]]);
      OneByte(bytes[i]);
      assert bytes[..i] + [bytes[i]] == bytes[..i + 1];
      grown := grown + EscapeByte(bytes[i]);
    }
    assert bytes[..|bytes|] == bytes;
    grown := grown + [0x22];
    WriterIsGrammar(s);
    Quoted(Render(PiecesOf(s)));
  }

  lemma OneByte(b: nat)
    ensures EscapeBytes([b]) == EscapeByte(b)
  {
  }

  lemma {:induction false} EscapeBytesSplit(a: seq<nat>, b: seq<nat>)
    ensures EscapeBytes(a + b) == EscapeBytes(a) + EscapeBytes(b)
  {
    if a == [] {
      assert a + b == b;
    } else {
      assert (a + b)[1..] == a[1..] + b;
      EscapeBytesSplit(a[1..], b);
    }
  }

  lemma {:induction false} EncodeSplit(a: string, b: string)
    ensures EncodeAll(a + b) == EncodeAll(a) + EncodeAll(b)
  {
    if a == [] {
      assert a + b == b;
    } else {
      assert (a + b)[1..] == a[1..] + b;
      EncodeSplit(a[1..], b);
    }
  }

  lemma Quoted(body: string)
    ensures EncodeAll("\"" + body + "\"") == [0x22] + EncodeAll(body) + [0x22]
  {
    EncodeSplit("\"" + body, "\"");
    EncodeSplit("\"", body);
    assert EncodeAll("\"") == [0x22];
  }

  lemma {:induction false} HighBytesPass(bytes: seq<nat>)
    requires forall i :: 0 <= i < |bytes| ==> bytes[i] >= 0x80
    ensures EscapeBytes(bytes) == bytes
  {
    if bytes != [] {
      HighBytesPass(bytes[1..]);
    }
  }

  /** Escaping the bytes of a char gives the bytes of the piece that writes it. */
  lemma CharIsPiece(c: char)
    ensures EscapeBytes(Encode(c)) == EncodeAll(Written(PieceOf(c)))
  {
    hide EscapeBytes, EscapeByte, Encode, EncodeAll;
    if c as int < 0x80 {
      OneByte(c as int);
      AsciiPiece(c);
    } else {
      HighBytesPass(Encode(c));
      EncodeOne(c);
    }
  }

  lemma EncodeOne(c: char)
    ensures EncodeAll([c]) == Encode(c)
  {
    assert EncodeAll([c]) == Encode(c) + EncodeAll([]);
  }

  lemma AsciiPiece(c: char)
    requires c as int < 0x80
    ensures EscapeByte(c as int) == EncodeAll(Written(PieceOf(c)))
  {
    hide EncodeAll, PieceOf, EscapeByte;
    AsciiWritten(c);
    Ascii(Written(PieceOf(c)));
    ByteIsPiece(c);
  }

  /** The byte's escape is the piece's text, char by char. */
  lemma ByteIsPiece(c: char)
    requires c as int < 0x80
    ensures var w, bytes := Written(PieceOf(c)), EscapeByte(c as int);
            |bytes| == |w| && forall i :: 0 <= i < |w| ==> bytes[i] == w[i] as int
  {
    hide IsHex, HexDigit, HexChar;
    if PieceOf(c).Unit? {
      UnitText(HexChar(c as int / 16), HexChar(c as int % 16));
    }
  }

  lemma UnitText(a: char, b: char)
    ensures Written(Unit(['0', '0', a, b])) == ['\\', 'u', '0', '0', a, b]
  {
  }

  lemma AsciiWritten(c: char)
    requires c as int < 0x80
    ensures var w := Written(PieceOf(c)); forall i :: 0 <= i < |w| ==> w[i] as int < 0x80
  {
  }

  lemma {:induction false} Ascii(s: string)
    requires forall i :: 0 <= i < |s| ==> s[i] as int < 0x80
    ensures |EncodeAll(s)| == |s| && forall i :: 0 <= i < |s| ==> EncodeAll(s)[i] == s[i] as int
  {
    if s != [] {
      Ascii(s[1..]);
    }
  }

  lemma {:induction false} WriterIsGrammar(s: string)
    ensures EscapeBytes(EncodeAll(s)) == EncodeAll(Render(PiecesOf(s)))
  {
    if s != [] {
      EscapeBytesSplit(Encode(s[0]), EncodeAll(s[1..]));
      CharIsPiece(s[0]);
      EncodeSplit(Written(PieceOf(s[0])), Render(PiecesOf(s[1..])));
      WriterIsGrammar(s[1..]);
      assert PiecesOf(s)[1..] == PiecesOf(s[1..]);
    }
  }

  lemma {:induction false} PiecesMeanText(s: string)
    ensures Meaning(PiecesOf(s)) == s
  {
    if s != [] {
      PiecesMeanText(s[1..]);
      var ps := PiecesOf(s);
      assert ps[1..] == PiecesOf(s[1..]);
      PieceMeans(s[0]);
      assert !IsPair(ps);
    }
  }

  lemma PieceMeans(c: char)
    ensures match PieceOf(c)
            case Plain(d) => d == c
            case Short(d) => ShortMeans(d) == c
            case Unit(hex) => HexValue(hex) == c as int && c as int < 0x20
  {
  }

  // ---- Every text can be written in escapes alone, and reads back

  /** The UTF-16 code units of `c`. */
  function Utf16(c: char): (units: seq<nat>)
    ensures forall i :: 0 <= i < |units| ==> units[i] < 0x10000
  {
    var v := c as int;
    if v < 0x10000 then [v] else [0xD800 + (v - 0x10000) / 0x400, 0xDC00 + (v - 0x10000) % 0x400]
  }

  /** The digits of `v` in the case the writer likes. */
  function Digit(v: nat, upper: bool): (c: char)
    requires v < 16
    ensures IsHex(c)
  {
    if upper then "0123456789ABCDEF"[v] else "0123456789abcdef"[v]
  }

  function UnitPiece(unit: nat, upper: bool): (p: Piece)
    requires unit < 0x10000
    ensures WellFormed(p)
  {
    Unit([Digit(unit / 0x1000, upper), Digit(unit / 0x100 % 16, upper), Digit(unit / 0x10 % 16, upper), Digit(unit % 16, upper)])
  }

  /** `s` with every code unit written as an escape. */
  function InUnits(s: string, upper: bool): (ps: seq<Piece>)
    ensures AllWellFormed(ps)
  {
    if s == [] then []
    else
      var units := Utf16(s[0]);
      seq(|units|, i requires 0 <= i < |units| => UnitPiece(units[i], upper)) + InUnits(s[1..], upper)
  }

  lemma DigitValue(v: nat, upper: bool)
    requires v < 16
    ensures HexDigit(Digit(v, upper)) == v
  {
  }

  lemma FourDigits(unit: nat)
    requires unit < 0x10000
    ensures unit / 0x1000 < 16
    ensures unit == unit / 0x1000 * 0x1000 + unit / 0x100 % 16 * 0x100 + unit / 0x10 % 16 * 0x10 + unit % 16
  {
    var a, b := unit / 0x10, unit / 0x100;
    assert unit == a * 0x10 + unit % 16 && a == b * 0x10 + a % 16 && b == unit / 0x1000 * 0x10 + b % 16;
  }

  lemma UnitValue(unit: nat, upper: bool)
    requires unit < 0x10000
    ensures UnitPiece(unit, upper).Unit? && FourHex(UnitPiece(unit, upper).hex) && HexValue(UnitPiece(unit, upper).hex) == unit
  {
    hide HexDigit, Digit, IsHex;
    FourDigits(unit);
    DigitValue(unit / 0x1000, upper);
    DigitValue(unit / 0x100 % 16, upper);
    DigitValue(unit / 0x10 % 16, upper);
    DigitValue(unit % 16, upper);
  }

  lemma JoinedUnits(c: char)
    ensures var units := Utf16(c);
            if |units| == 1 then !IsHigh(units[0]) && Single(units[0]) == c
            else |units| == 2 && IsHigh(units[0]) && IsLow(units[1]) && Joined(units[0], units[1]) == c
  {
  }

  lemma NoMeaning()
    ensures Meaning([]) == []
  {
  }

  lemma MeaningOfOne(ps: seq<Piece>)
    requires AllWellFormed(ps) && ps != [] && ps[0].Unit? && !IsHigh(HexValue(ps[0].hex))
    ensures AllWellFormed(ps[1..]) && Meaning(ps) == [Single(HexValue(ps[0].hex))] + Meaning(ps[1..])
  {
    hide HexValue;
    WellFormedRest(ps, 1);
  }

  lemma MeaningOfPair(ps: seq<Piece>)
    requires AllWellFormed(ps) && IsPair(ps)
    ensures AllWellFormed(ps[2..]) && Meaning(ps) == [Joined(HexValue(ps[0].hex), HexValue(ps[1].hex))] + Meaning(ps[2..])
  {
    hide HexValue;
    WellFormedRest(ps, 2);
  }

  lemma {:induction false} UnitsMeanText(s: string, upper: bool)
    ensures Meaning(InUnits(s, upper)) == s
  {
    hide UnitPiece, HexValue, Utf16, Joined, Single, Meaning;
    if s != [] {
      UnitsMeanText(s[1..], upper);
      JoinedUnits(s[0]);
      var ps, units := InUnits(s, upper), Utf16(s[0]);
      UnitValue(units[0], upper);
      if |units| == 1 {
        assert ps[1..] == InUnits(s[1..], upper);
        MeaningOfOne(ps);
      } else {
        UnitValue(units[1], upper);
        assert ps[2..] == InUnits(s[1..], upper);
        MeaningOfPair(ps);
      }
    } else {
      NoMeaning();
    }
  }

  /** Every text, written in `\u` escapes of its UTF-16 units in either case, decodes to itself. */
  lemma EscapedTextReadsBack(s: string, upper: bool)
    ensures Decode(Render(InUnits(s, upper))) == s
  {
    DecodesMeaning(InUnits(s, upper));
    UnitsMeanText(s, upper);
  }

  // ---- UTF-8 determines the text

  /** What a byte adds below the bits before it. */
  function Continued(high: int, b: int): int {
    high * 0x40 + (b - 0x80)
  }

  /** The value whose UTF-8 starts `bytes`. */
  function ValueAt(bytes: seq<nat>): int
    requires bytes != []
  {
    var b: int := bytes[0];
    if b < 0x80 || |bytes| < 2 then b
    else if b < 0xE0 || |bytes| < 3 then Continued(b - 0xC0, bytes[1])
    else if b < 0xF0 || |bytes| < 4 then Continued(Continued(b - 0xE0, bytes[1]), bytes[2])
    else Continued(Continued(Continued(b - 0xF0, bytes[1]), bytes[2]), bytes[3])
  }

  /** Six bits at a time give the value back. */
  lemma SixBits(v: nat)
    ensures Continued(v / 0x40, 0x80 + v % 0x40) == v
    ensures v / 0x40 / 0x40 == v / 0x1000 && v / 0x1000 / 0x40 == v / 0x40000
  {
  }

  lemma EncodeReadsBack(c: char, rest: seq<nat>)
    ensures ValueAt(Encode(c) + rest) == c as int
  {
    hide Continued;
    var v, bytes := c as int, Encode(c) + rest;
    assert forall i :: 0 <= i < |Encode(c)| ==> bytes[i] == Encode(c)[i];
    SixBits(v);
    SixBits(v / 0x40);
    SixBits(v / 0x1000);
  }

  /** No two texts have the same UTF-8. */
  lemma {:induction false} EncodeAllInjective(a: string, b: string)
    requires EncodeAll(a) == EncodeAll(b)
    ensures a == b
  {
    hide Encode, ValueAt;
    if a != [] && b != [] {
      var x, y := EncodeAll(a[1..]), EncodeAll(b[1..]);
      EncodeReadsBack(a[0], x);
      EncodeReadsBack(b[0], y);
      assert a[0] == b[0];
      assert x == (Encode(a[0]) + x)[|Encode(a[0])|..] && y == (Encode(b[0]) + y)[|Encode(b[0])|..];
      EncodeAllInjective(a[1..], b[1..]);
    }
  }

  /**
   Whatever text has the bytes the writer appended as its UTF-8, it is a quoted
   string, and decoding it between its quotes gives back what was written, for
   every text.
   */
  lemma WrittenTextReadsBack(s: string, text: string)
    requires EncodeAll(text) == [0x22] + EscapeBytes(EncodeAll(s)) + [0x22]
    ensures |text| >= 2 && text[0] == text[|text| - 1] == '"'
    ensures Decode(text[1..|text| - 1]) == s
  {
    hide Decode, Render, PiecesOf, EncodeAll, EscapeBytes, Meaning;
    var body := Render(PiecesOf(s));
    WriterIsGrammar(s);
    Quoted(body);
    EncodeAllInjective(text, "\"" + body + "\"");
    assert text[1..|text| - 1] == body;
    DecodesMeaning(PiecesOf(s));
    PiecesMeanText(s);
  }
}
