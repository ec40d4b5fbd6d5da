/**
 * Base64 as the cursors and the attachments use it: the URL-safe alphabet without padding (section 5, with section
 * 3.2, of RFC 4648) and the standard one with padding (section 4).
 */
module Base64 {
  import opened Wrappers
  import opened Text

  type Byte = x: int | 0 <= x < 256

  type Sextet = x: int | 0 <= x < 64

  datatype Alphabet = Standard | UrlSafe

  function Symbol(a: Alphabet, v: Sextet): char {
    if v < 26 then 'A' + v as char
    else if v < 52 then 'a' + (v - 26) as char
    else if v < 62 then '0' + (v - 52) as char
    else if v == 62 then (if a == UrlSafe then '-' else '+')
    else (if a == UrlSafe then '_' else '/')
  }

  function Value(a: Alphabet, c: char): Option<Sextet> {
    if 'A' <= c <= 'Z' then Some(c as int - 'A' as int)
    else if 'a' <= c <= 'z' then Some(c as int - 'a' as int + 26)
    else if '0' <= c <= '9' then Some(c as int - '0' as int + 52)
    else if c == (if a == UrlSafe then '-' else '+') then Some(62)
    else if c == (if a == UrlSafe then '_' else '/') then Some(63)
    else None
  }

  lemma ValueOfSymbol(a: Alphabet, v: Sextet)
    ensures Value(a, Symbol(a, v)) == Some(v) && Symbol(a, v) != '='
  {
  }

  // ---------- groups of three bytes ----------

  function First(x: Byte): Sextet { x / 4 }

  function Second(x: Byte, y: Byte): Sextet { (x % 4) * 16 + y / 16 }

  function Third(y: Byte, z: Byte): Sextet { (y % 16) * 4 + z / 64 }

  function Fourth(z: Byte): Sextet { z % 64 }

  function Byte0(p: Sextet, q: Sextet): Byte { p * 4 + q / 16 }

  function Byte1(q: Sextet, r: Sextet): Byte { (q % 16) * 16 + r / 4 }

  function Byte2(r: Sextet, s: Sextet): Byte { (r % 4) * 64 + s }

  lemma GroupInverts(x: Byte, y: Byte, z: Byte)
    ensures Byte0(First(x), Second(x, y)) == x
    ensures Byte1(Second(x, y), Third(y, z)) == y
    ensures Byte2(Third(y, z), Fourth(z)) == z
  {
  }

  function Quad(a: Alphabet, x: Byte, y: Byte, z: Byte): string {
    [Symbol(a, First(x)), Symbol(a, Second(x, y)), Symbol(a, Third(y, z)), Symbol(a, Fourth(z))]
  }

  function Pair(a: Alphabet, x: Byte, y: Byte): string {
    [Symbol(a, First(x)), Symbol(a, Second(x, y)), Symbol(a, Third(y, 0)), '=']
  }

  function Single(a: Alphabet, x: Byte): string {
    [Symbol(a, First(x)), Symbol(a, Second(x, 0)), '=', '=']
  }

  /** Padded encoding. */
  function Encode(a: Alphabet, bytes: seq<Byte>): string
    decreases |bytes|
  {
    if |bytes| == 0 then ""
    else if |bytes| == 1 then Single(a, bytes[0])
    else if |bytes| == 2 then Pair(a, bytes[0], bytes[1])
    else Quad(a, bytes[0], bytes[1], bytes[2]) + Encode(a, bytes[3..])
  }

  /** The bytes of a group from the values of its characters, and whether it ends the text. */
  function Group(p: Option<Sextet>, q: Option<Sextet>, r: Option<Sextet>, s: Option<Sextet>, thirdPad: bool, fourthPad: bool)
    : Option<(seq<Byte>, bool)>
  {
    if p.None? || q.None? then None
    else if r.Some? && s.Some? then
      Some(([Byte0(p.value, q.value), Byte1(q.value, r.value), Byte2(r.value, s.value)], false))
    else if r.Some? && fourthPad then Some(([Byte0(p.value, q.value), Byte1(q.value, r.value)], true))
    else if thirdPad && fourthPad then Some(([Byte0(p.value, q.value)], true))
    else None
  }

  /** One group of four characters. */
  function DecodeGroup(a: Alphabet, g: string): Option<(seq<Byte>, bool)>
    requires |g| == 4
  {
    Group(Value(a, g[0]), Value(a, g[1]), Value(a, g[2]), Value(a, g[3]), g[2] == '=', g[3] == '=')
  }

  predicate AllPads(text: string) {
    forall i | 0 <= i < |text| :: text[i] == '='
  }

  /**
   * Decoding with every character checked, as the Python library does it. Padding completes a last group of two or three
   * characters and then ends the text; after at least one complete group (`started`) any number of padding
   * characters may follow and is ignored.
   */
  function DecodeGroups(a: Alphabet, text: string, started: bool): Option<seq<Byte>>
    decreases |text|
  {
    if AllPads(text) && (started || text == "") then Some([])
    else if |text| < 4 then None
    else
      match DecodeGroup(a, text[..4])
      case None => None
      case Some((bytes, last)) =>
        if last then (if |text| == 4 then Some(bytes) else None)
        else
          match DecodeGroups(a, text[4..], true)
          case None => None
          case Some(rest) => Some(bytes + rest)
  }

  function Decode(a: Alphabet, text: string): Option<seq<Byte>> {
    DecodeGroups(a, text, false)
  }

  lemma PadHasNoValue(a: Alphabet)
    ensures Value(a, '=') == None
  {
  }

  lemma FullGroup(a: Alphabet, x: Byte, y: Byte, z: Byte)
    ensures DecodeGroup(a, Quad(a, x, y, z)) == Some(([x, y, z], false))
  {
    GroupInverts(x, y, z);
    ValueOfSymbol(a, First(x));
    ValueOfSymbol(a, Second(x, y));
    ValueOfSymbol(a, Third(y, z));
    ValueOfSymbol(a, Fourth(z));
  }

  lemma TwoByteGroup(a: Alphabet, x: Byte, y: Byte)
    ensures DecodeGroup(a, Pair(a, x, y)) == Some(([x, y], true))
  {
    GroupInverts(x, y, 0);
    ValueOfSymbol(a, First(x));
    ValueOfSymbol(a, Second(x, y));
    ValueOfSymbol(a, Third(y, 0));
    PadHasNoValue(a);
  }

  lemma OneByteGroup(a: Alphabet, x: Byte)
    ensures DecodeGroup(a, Single(a, x)) == Some(([x], true))
  {
    var p, q := First(x), Second(x, 0);
    SingleValues(a, p, q);
    OnePadded(p, q);
    SingleInverts(x);
  }

  lemma SingleValues(a: Alphabet, p: Sextet, q: Sextet)
    ensures DecodeGroup(a, [Symbol(a, p), Symbol(a, q), '=', '=']) == Group(Some(p), Some(q), None, None, true, true)
  {
    ValueOfSymbol(a, p);
    ValueOfSymbol(a, q);
    PadHasNoValue(a);
  }

  lemma SingleInverts(x: Byte)
    ensures Byte0(First(x), Second(x, 0)) == x
  {
  }

  lemma OnePadded(p: Sextet, q: Sextet)
    ensures Group(Some(p), Some(q), None, None, true, true) == Some(([Byte0(p, q)], true))
  {
  }

  lemma DecodeLast(a: Alphabet, g: string, bytes: seq<Byte>, started: bool)
    requires |g| == 4 && DecodeGroup(a, g) == Some((bytes, true))
    ensures DecodeGroups(a, g, started) == Some(bytes)
  {
    PadHasNoValue(a);
    assert g[0] != '=';
    assert g[..4] == g;
  }

  lemma DecodeNext(a: Alphabet, g: string, rest: string, bytes: seq<Byte>, started: bool)
    requires |g| == 4 && DecodeGroup(a, g) == Some((bytes, false))
    ensures DecodeGroups(a, g + rest, started)
      == match DecodeGroups(a, rest, true) case None => None case Some(more) => Some(bytes + more)
  {
    PadHasNoValue(a);
    assert (g + rest)[0] == g[0] != '=';
    assert (g + rest)[..4] == g && (g + rest)[4..] == rest;
  }

  /** Encoded bytes are decoded again; whole groups of them also with any padding after them. */
  lemma {:induction false} DecodeEncoded(a: Alphabet, bytes: seq<Byte>, surplus: string, started: bool)
    requires AllPads(surplus) && (surplus != "" ==> |bytes| % 3 == 0 && (started || bytes != []))
    ensures DecodeGroups(a, Encode(a, bytes) + surplus, started) == Some(bytes)
    decreases |bytes|
  {
    if |bytes| == 0 {
      assert Encode(a, bytes) + surplus == surplus;
    } else if |bytes| <= 2 {
      assert Encode(a, bytes) + surplus == Encode(a, bytes);
      DecodeShort(a, bytes, started);
    } else {
      DecodeEncoded(a, bytes[3..], surplus, true);
      DecodeLong(a, bytes, surplus, started);
    }
  }

  lemma DecodeLong(a: Alphabet, bytes: seq<Byte>, surplus: string, started: bool)
    requires |bytes| > 2 && DecodeGroups(a, Encode(a, bytes[3..]) + surplus, true) == Some(bytes[3..])
    ensures DecodeGroups(a, Encode(a, bytes) + surplus, started) == Some(bytes)
  {
    var quad, rest := Quad(a, bytes[0], bytes[1], bytes[2]), Encode(a, bytes[3..]);
    DecodeQuad(a, bytes[0], bytes[1], bytes[2], rest + surplus, bytes[3..], started);
    Regroup(quad, rest, surplus);
    FirstThree(bytes);
  }

  lemma FirstThree(bytes: seq<Byte>)
    requires |bytes| > 2
    ensures [bytes[0], bytes[1], bytes[2]] + bytes[3..] == bytes
  {
  }

  lemma DecodeShort(a: Alphabet, bytes: seq<Byte>, started: bool)
    requires 1 <= |bytes| <= 2
    ensures DecodeGroups(a, Encode(a, bytes), started) == Some(bytes)
  {
    if |bytes| == 1 { DecodeSingle(a, bytes[0], started); } else { DecodePair(a, bytes[0], bytes[1], started); }
    assert bytes == if |bytes| == 1 then [bytes[0]] else [bytes[0], bytes[1]];
  }

  lemma DecodeSingle(a: Alphabet, x: Byte, started: bool)
    ensures DecodeGroups(a, Single(a, x), started) == Some([x])
  {
    OneByteGroup(a, x);
    DecodeLast(a, Single(a, x), [x], started);
  }

  lemma DecodePair(a: Alphabet, x: Byte, y: Byte, started: bool)
    ensures DecodeGroups(a, Pair(a, x, y), started) == Some([x, y])
  {
    TwoByteGroup(a, x, y);
    DecodeLast(a, Pair(a, x, y), [x, y], started);
  }

  lemma DecodeQuad(a: Alphabet, x: Byte, y: Byte, z: Byte, rest: string, more: seq<Byte>, started: bool)
    requires DecodeGroups(a, rest, true) == Some(more)
    ensures DecodeGroups(a, Quad(a, x, y, z) + rest, started) == Some([x, y, z] + more)
  {
    FullGroup(a, x, y, z);
    DecodeNext(a, Quad(a, x, y, z), rest, [x, y, z], started);
  }

  lemma DecodeEncode(a: Alphabet, bytes: seq<Byte>)
    ensures Decode(a, Encode(a, bytes)) == Some(bytes)
  {
    DecodeEncoded(a, bytes, "", false);
    assert Encode(a, bytes) + "" == Encode(a, bytes);
  }

  /** Surplus padding after whole groups changes nothing, however much of it there is. */
  lemma SurplusIgnored(a: Alphabet, bytes: seq<Byte>, n: nat)
    requires bytes != [] && |bytes| % 3 == 0
    ensures Decode(a, Encode(a, bytes) + Equals(n)) == Some(bytes)
  {
    EqualsArePads(n);
    DecodeEncoded(a, bytes, Equals(n), false);
  }

  lemma {:induction false} EqualsArePads(n: nat)
    ensures AllPads(Equals(n)) && |Equals(n)| == n
  {
    if n > 0 { EqualsArePads(n - 1); }
  }

  // ---------- the cursor: without padding ----------

  /** `text.rstrip("=")`. */
  function StripPadding(text: string): string
    decreases |text|
  {
    if |text| > 0 && text[|text| - 1] == '=' then StripPadding(text[..|text| - 1]) else text
  }

  function Equals(n: nat): string {
    if n == 0 then "" else Equals(n - 1) + "="
  }

  /** Python's `-n % 4`. */
  function Missing(n: nat): nat {
    (4 - n % 4) % 4
  }

  function Unpadded(bytes: seq<Byte>): string {
    StripPadding(Encode(UrlSafe, bytes))
  }

  function DecodeUnpadded(cursor: string): Option<seq<Byte>> {
    Decode(UrlSafe, cursor + Equals(Missing(|cursor|)))
  }

  predicate Unmarked(text: string) {
    forall i | 0 <= i < |text| :: text[i] != '='
  }

  lemma QuadUnmarked(a: Alphabet, x: Byte, y: Byte, z: Byte)
    ensures Unmarked(Quad(a, x, y, z))
  {
    ValueOfSymbol(a, First(x));
    ValueOfSymbol(a, Second(x, y));
    ValueOfSymbol(a, Third(y, z));
    ValueOfSymbol(a, Fourth(z));
  }

  lemma SingleShape(a: Alphabet, x: Byte) returns (body: string)
    ensures Single(a, x) == body + Equals(Missing(|body|)) && Unmarked(body)
  {
    body := [Symbol(a, First(x)), Symbol(a, Second(x, 0))];
    ValueOfSymbol(a, First(x));
    ValueOfSymbol(a, Second(x, 0));
    assert Equals(1) == "=" && Equals(2) == "==";
    assert Missing(2) == 2;
    assert Single(a, x) == body + "==";
  }

  lemma PairShape(a: Alphabet, x: Byte, y: Byte) returns (body: string)
    ensures Pair(a, x, y) == body + Equals(Missing(|body|)) && Unmarked(body)
  {
    body := Pair(a, x, y)[..3];
    QuadUnmarked(a, x, y, 0);
    assert Equals(1) == "=";
  }

  /** An encoding is symbols and then as much padding as its length lacks. */
  lemma {:induction false} EncodingShape(a: Alphabet, bytes: seq<Byte>) returns (body: string)
    ensures Encode(a, bytes) == body + Equals(Missing(|body|)) && Unmarked(body)
    decreases |bytes|
  {
    if |bytes| == 0 {
      body := "";
    } else if |bytes| == 1 {
      body := SingleShape(a, bytes[0]);
    } else if |bytes| == 2 {
      body := PairShape(a, bytes[0], bytes[1]);
    } else {
      var quad := Quad(a, bytes[0], bytes[1], bytes[2]);
      var rest := EncodingShape(a, bytes[3..]);
      body := quad + rest;
      QuadUnmarked(a, bytes[0], bytes[1], bytes[2]);
      ShapeStep(quad, rest, Encode(a, bytes[3..]));
    }
  }

  lemma ShapeStep(quad: string, rest: string, encoded: string)
    requires |quad| == 4 && Unmarked(quad) && Unmarked(rest) && encoded == rest + Equals(Missing(|rest|))
    ensures quad + encoded == (quad + rest) + Equals(Missing(|quad + rest|)) && Unmarked(quad + rest)
  {
    MissingAfter(|rest|);
    Regroup(quad, rest, Equals(Missing(|rest|)));
  }

  lemma MissingAfter(n: nat)
    ensures Missing(4 + n) == Missing(n)
  {
    assert (4 + n) % 4 == n % 4;
  }

  lemma {:induction false} StripExact(body: string, n: nat)
    requires Unmarked(body)
    ensures StripPadding(body + Equals(n)) == body
  {
    if n == 0 {
      assert body + Equals(0) == body;
      assert |body| > 0 ==> body[|body| - 1] != '=';
    } else {
      StripExact(body, n - 1);
      StripOne(body + Equals(n - 1));
      assert body + Equals(n) == body + Equals(n - 1) + "=";
    }
  }

  lemma StripOne(t: string)
    ensures StripPadding(t + "=") == StripPadding(t)
  {
    assert (t + "=")[..|t + "="| - 1] == t;
  }

  /** Stripping the padding and restoring `-len % 4` of it decodes to the original bytes, for every length. */
  lemma CursorRoundTrip(bytes: seq<Byte>)
    ensures DecodeUnpadded(Unpadded(bytes)) == Some(bytes)
  {
    var body := EncodingShape(UrlSafe, bytes);
    StripExact(body, Missing(|body|));
    DecodeEncode(UrlSafe, bytes);
  }

  // ---------- attachments ----------

  datatype AttachmentError = TooLarge | NotBase64

  /** The size `decode_attachment` estimates before decoding. */
  function Estimate(text: string): nat {
    |text| * 3 / 4
  }

  /** `value.split(",", 1)[1]` for a data URL, else the value. */
  function Payload(value: string): string {
    if "data:" <= value && Contains(value, ",") then value[Find(value, ",") + 1..] else value
  }

  /** `decode_attachment`, with both of its size checks. */
  function DecodeAttachment(value: string, maxBytes: int): Result<seq<Byte>, AttachmentError> {
    var text := Payload(value);
    if Estimate(text) > maxBytes then Err(TooLarge)
    else
      match Decode(Standard, text)
      case None => Err(NotBase64)
      case Some(decoded) => if |decoded| > maxBytes then Err(TooLarge) else Ok(decoded)
  }

  /** The number of padding characters a text ends with. */
  function PadCount(text: string): int {
    |text| - |StripPadding(text)|
  }

  lemma {:induction false} StripPrefix(p: string, t: string)
    requires t != "" && t[0] != '='
    ensures StripPadding(p + t) == p + StripPadding(t)
    decreases |t|
  {
    if t[|t| - 1] == '=' {
      assert (p + t)[..|p + t| - 1] == p + t[..|t| - 1];
      StripPrefix(p, t[..|t| - 1]);
    } else {
      assert (p + t)[|p + t| - 1] == t[|t| - 1];
    }
  }

  lemma StripShorter(text: string)
    ensures |StripPadding(text)| <= |text|
    decreases |text|
  {
    if |text| > 0 && text[|text| - 1] == '=' { StripShorter(text[..|text| - 1]); }
  }

  lemma StripGroup(g: string)
    requires |g| == 4 && g[1] != '='
    ensures PadCount(g) == if g[3] != '=' then 0 else if g[2] != '=' then 1 else 2
  {
    var h := g[..3];
    assert StripPadding(h) == if h[2] == '=' then StripPadding(h[..2]) else h;
    assert h[..2] == g[..2] && StripPadding(g[..2]) == g[..2];
  }

  /** The padding of one group. */
  lemma GroupPadding(a: Alphabet, g: string)
    requires |g| == 4 && DecodeGroup(a, g).Some?
    ensures g[0] != '=' && |DecodeGroup(a, g).value.0| + PadCount(g) == 3
    ensures !DecodeGroup(a, g).value.1 ==> PadCount(g) == 0
  {
    PadHasNoValue(a);
    StripGroup(g);
  }

  lemma {:induction false} StripAll(g: string, pads: string)
    requires AllPads(pads) && g != "" && g[|g| - 1] != '='
    ensures StripPadding(g + pads) == g
    decreases |pads|
  {
    if pads == "" {
      assert g + pads == g;
    } else {
      assert (g + pads)[..|g + pads| - 1] == g + pads[..|pads| - 1];
      StripAll(g, pads[..|pads| - 1]);
    }
  }

  lemma {:induction false} StripPads(pads: string)
    requires AllPads(pads)
    ensures StripPadding(pads) == ""
    decreases |pads|
  {
    if pads != "" { StripPads(pads[..|pads| - 1]); }
  }

  /**
   * How `decoded` bytes and `pads` padding characters make up a text of `length` characters: whole groups and then
   * surplus padding, or a last group that the padding completes.
   */
  predicate Sizes(length: int, pads: int, decoded: int) {
    || (length - pads == decoded / 3 * 4 && decoded % 3 == 0)
    || (1 <= pads <= 2 && length == (decoded + pads) / 3 * 4 && (decoded + pads) % 3 == 0)
  }

  lemma SizesNext(length: nat, pads: nat, decoded: nat)
    requires Sizes(length, pads, decoded)
    ensures Sizes(length + 4, pads, decoded + 3)
  {
  }

  /** One whole group in front of a text that decodes. */
  lemma GroupInFront(g: string, rest: string, decoded: nat)
    requires |g| == 4 && PadCount(g) == 0 && PadCount(rest) >= 0
    requires AllPads(rest) || rest[0] != '='
    requires Sizes(|rest|, PadCount(rest), decoded)
    ensures Sizes(|g + rest|, PadCount(g + rest), decoded + 3)
  {
    StripShorter(g[..3]);
    assert g[3] != '=';
    if AllPads(rest) { StripAll(g, rest); StripPads(rest); } else { StripPrefix(g, rest); }
    SizesNext(|rest|, PadCount(rest), decoded);
  }

  lemma LastGroupSizes(a: Alphabet, g: string)
    requires |g| == 4 && DecodeGroup(a, g).Some? && DecodeGroup(a, g).value.1
    ensures g[0] != '=' && Sizes(4, PadCount(g), |DecodeGroup(a, g).value.0|)
  {
    GroupPadding(a, g);
  }

  predicate Measured(a: Alphabet, text: string, started: bool)
    requires DecodeGroups(a, text, started).Some?
  {
    && Sizes(|text|, PadCount(text), |DecodeGroups(a, text, started).value|)
    && (AllPads(text) || text[0] != '=')
  }

  lemma PadsLength(a: Alphabet, text: string, started: bool)
    requires AllPads(text) && (started || text == "")
    ensures DecodeGroups(a, text, started).Some? && Measured(a, text, started)
  {
    StripPads(text);
  }

  lemma LastLength(a: Alphabet, g: string, started: bool)
    requires |g| == 4 && DecodeGroup(a, g).Some? && DecodeGroup(a, g).value.1
    ensures DecodeGroups(a, g, started).Some? && Measured(a, g, started)
  {
    LastGroupSizes(a, g);
    DecodeLast(a, g, DecodeGroup(a, g).value.0, started);
  }

  lemma NextLength(a: Alphabet, g: string, rest: string, started: bool)
    requires |g| == 4 && DecodeGroup(a, g).Some? && !DecodeGroup(a, g).value.1
    requires DecodeGroups(a, rest, true).Some? && Measured(a, rest, true)
    ensures DecodeGroups(a, g + rest, started).Some? && Measured(a, g + rest, started)
  {
    GroupPadding(a, g);
    StripShorter(rest);
    DecodeNext(a, g, rest, DecodeGroup(a, g).value.0, started);
    GroupInFront(g, rest, |DecodeGroups(a, rest, true).value|);
  }

  /** What a text that decodes begins with. */
  lemma FirstGroup(a: Alphabet, text: string, started: bool)
    requires DecodeGroups(a, text, started).Some? && !(AllPads(text) && (started || text == ""))
    ensures |text| >= 4 && DecodeGroup(a, text[..4]).Some?
    ensures DecodeGroup(a, text[..4]).value.1 ==> |text| == 4
    ensures !DecodeGroup(a, text[..4]).value.1 ==> DecodeGroups(a, text[4..], true).Some?
  {
  }

  lemma {:induction false} DecodedLength(a: Alphabet, text: string, started: bool)
    requires DecodeGroups(a, text, started).Some?
    ensures Measured(a, text, started)
    decreases |text|
  {
    if AllPads(text) && (started || text == "") {
      PadsLength(a, text, started);
    } else {
      FirstGroup(a, text, started);
      var g, rest := text[..4], text[4..];
      assert text == g + rest;
      if DecodeGroup(a, g).value.1 {
        assert text == g;
        LastLength(a, g, started);
      } else {
        DecodedLength(a, rest, true);
        NextLength(a, g, rest, started);
      }
    }
  }

  /** By how much the estimate of a text exceeds what it decodes to. */
  function Excess(text: string): int {
    var pads := PadCount(text);
    if (|text| - pads) % 4 == 0 then pads * 3 / 4 else pads
  }

  lemma ExcessOfSizes(length: nat, pads: nat, decoded: nat)
    requires Sizes(length, pads, decoded)
    ensures length * 3 / 4 == decoded + if (length - pads) % 4 == 0 then pads * 3 / 4 else pads
    ensures length * 3 / 4 <= decoded + 2 <==> pads <= 3
  {
    if length - pads == decoded / 3 * 4 && decoded % 3 == 0 {
      assert length * 3 == decoded * 4 + pads * 3;
    } else {
      assert length * 3 == (decoded + pads) * 4;
    }
  }

  /** The estimate is never below the decoded size, exceeds it by the excess of the padding, and by at most two exactly
      when the text ends in at most three padding characters. */
  lemma EstimateBounds(text: string)
    requires Decode(Standard, text).Some?
    ensures Estimate(text) == |Decode(Standard, text).value| + Excess(text)
    ensures |Decode(Standard, text).value| <= Estimate(text)
    ensures Estimate(text) <= |Decode(Standard, text).value| + 2 <==> PadCount(text) <= 3
  {
    StripShorter(text);
    DecodedLength(Standard, text, false);
    ExcessOfSizes(|text|, PadCount(text), |Decode(Standard, text).value|);
  }

  /** So the check after decoding never fires, and an attachment is accepted exactly when it decodes and its size with
      the excess of the padding counted in fits. */
  lemma AttachmentAccepted(value: string, maxBytes: int)
    ensures var text := Payload(value);
      DecodeAttachment(value, maxBytes).Ok?
      <==> Decode(Standard, text).Some? && |Decode(Standard, text).value| + Excess(text) <= maxBytes
    ensures DecodeAttachment(value, maxBytes) == Err(TooLarge) <==> Estimate(Payload(value)) > maxBytes
  {
    if Decode(Standard, Payload(value)).Some? { EstimateBounds(Payload(value)); }
  }

  // ---------- fixed points of reference ----------

  /** Test vectors of section 10 of RFC 4648, and the two symbols in which the alphabets differ. */
  lemma KnownVectors()
    ensures Encode(Standard, [102]) == "Zg==" && Encode(Standard, [102, 111]) == "Zm8="
    ensures Encode(Standard, [102, 111, 111]) == "Zm9v"
    ensures Encode(Standard, [251, 255]) == "+/8=" && Encode(UrlSafe, [251, 255]) == "-_8="
  {
    assert [102, 111, 111][3..] == [];
    assert Quad(Standard, 102, 111, 111) + "" == Quad(Standard, 102, 111, 111);
  }

  /** What is decoded of a data URL is what follows its first comma; any other value is decoded as it is. */
  lemma PayloadMeans(header: string, body: string, value: string)
    requires ',' !in header
    ensures Payload("data:" + header + "," + body) == body
    ensures !("data:" <= value) || ',' !in value ==> Payload(value) == value
  {
    var front := "data:" + header;
    var url := front + "," + body;
    assert url == "data:" + (header + "," + body);
    FindChar(front, body, ',');
    assert url == front + [','] + body && url[|front| + 1..] == body;
    FindCharNone(value, ',');
  }
}
