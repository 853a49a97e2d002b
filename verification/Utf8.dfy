/** UTF-8 (RFC 3629), and the cut scripts/generate_ports.py makes to fit a text behind
    a one-byte length without splitting a character. */
module Utf8 {
  import opened Basics
  import opened Bytes

  const LIMIT := 255

  function Tail(bits: nat): byte {
    128 + bits % 64
  }

  function EncodeChar(c: char): (b: seq<byte>)
    ensures 1 <= |b| <= 4
  {
    var n := c as int;
    if n < 0x80 then [n]
    else if n < 0x800 then [192 + n / 64, Tail(n)]
    else if n < 0x1_0000 then [224 + n / 64 / 64, Tail(n / 64), Tail(n)]
    else [240 + n / 64 / 64 / 64, Tail(n / 64 / 64), Tail(n / 64), Tail(n)]
  }

  function EncodeText(t: string): seq<byte> {
    if t == "" then [] else EncodeChar(t[0]) + EncodeText(t[1..])
  }

  /** How many bytes a character takes, from its first. */
  function Width(lead: byte): (w: nat)
    ensures 1 <= w <= 4
  {
    if lead < 192 then 1 else if lead < 224 then 2 else if lead < 240 then 3 else 4
  }

  /** decode with errors="ignore", on a prefix of a UTF-8 text: the characters that are
      there in full; one cut off at the end is dropped. This is where they end. */
  function WholeLength(b: seq<byte>): (n: nat)
    ensures n <= |b|
  {
    if b == [] || Width(b[0]) > |b| then 0
    else Width(b[0]) + WholeLength(b[Width(b[0])..])
  }

  /** encode: UTF-8, cut to the limit of a length byte between two characters. */
  function Encode(t: string): seq<byte> {
    var data := EncodeText(t);
    if |data| > LIMIT then data[..LIMIT][..WholeLength(data[..LIMIT])] else data
  }

  /** The characters of t that fit in `room` bytes. */
  function Fitting(t: string, room: nat): string {
    if t == "" || |EncodeChar(t[0])| > room then ""
    else [t[0]] + Fitting(t[1..], room - |EncodeChar(t[0])|)
  }

  function DecodeChar(b: seq<byte>): nat
    requires b != [] && |b| == Width(b[0])
  {
    if |b| == 1 then b[0]
    else if |b| == 2 then Bits(b[0], 192, b[1])
    else if |b| == 3 then Bits(Bits(b[0], 224, b[1]), 0, b[2])
    else Bits(Bits(Bits(b[0], 240, b[1]), 0, b[2]), 0, b[3])
  }

  function Bits(high: nat, mark: nat, low: nat): nat {
    if high < mark || low < 128 then 0 else (high - mark) * 64 + (low - 128)
  }

  /** The code points of a UTF-8 text. */
  function Decode(b: seq<byte>): seq<nat> {
    if b == [] || Width(b[0]) > |b| then []
    else [DecodeChar(b[..Width(b[0])])] + Decode(b[Width(b[0])..])
  }

  function CodePoints(t: string): seq<nat> {
    seq(|t|, i requires 0 <= i < |t| => t[i] as int)
  }

  lemma LeadTellsWidth(c: char)
    ensures Width(EncodeChar(c)[0]) == |EncodeChar(c)|
  {
  }

  lemma CharRoundTrip(c: char)
    ensures Width(EncodeChar(c)[0]) == |EncodeChar(c)|
    ensures DecodeChar(EncodeChar(c)) == c as int
  {
  }

  /** Decoding what was encoded gives the text back. */
  lemma {:induction false} TextRoundTrip(t: string)
    ensures Decode(EncodeText(t)) == CodePoints(t)
  {
    if t != "" {
      var c, rest := EncodeChar(t[0]), EncodeText(t[1..]);
      CharRoundTrip(t[0]);
      TextRoundTrip(t[1..]);
      assert (c + rest)[..|c|] == c && (c + rest)[|c|..] == rest;
      assert CodePoints(t) == [t[0] as int] + CodePoints(t[1..]);
    }
  }

  lemma CutBehind(c: seq<byte>, rest: seq<byte>, room: nat, n: nat)
    requires |c| <= room <= |c| + |rest| && n <= room - |c|
    ensures var cut := (c + rest)[..room];
            && cut[..|c|] == c && cut[|c|..] == rest[..room - |c|]
            && cut[..|c| + n] == c + rest[..room - |c|][..n]
  {
  }

  /** What decoding a cut text keeps is the characters that fit. */
  lemma {:induction false} PrefixFits(t: string, room: nat)
    requires room <= |EncodeText(t)|
    ensures EncodeText(t)[..room][..WholeLength(EncodeText(t)[..room])] == EncodeText(Fitting(t, room))
  {
    if t != "" {
      var c, rest := EncodeChar(t[0]), EncodeText(t[1..]);
      LeadTellsWidth(t[0]);
      if |c| <= room {
        PrefixFits(t[1..], room - |c|);
        CutBehind(c, rest, room, WholeLength(rest[..room - |c|]));
        assert (c + rest)[..room][0] == c[0];
        assert Fitting(t, room)[1..] == Fitting(t[1..], room - |c|);
      }
    }
  }

  lemma {:induction false} FittingFits(t: string, room: nat)
    ensures |EncodeText(Fitting(t, room))| <= room
    ensures Fitting(t, room) <= t
    ensures |EncodeText(t)| <= room ==> Fitting(t, room) == t
    ensures Fitting(t, room) != t ==>
              |EncodeText(Fitting(t, room))| + |EncodeChar(t[|Fitting(t, room)|])| > room
  {
    if t != "" && |EncodeChar(t[0])| <= room {
      FittingFits(t[1..], room - |EncodeChar(t[0])|);
      assert Fitting(t, room)[1..] == Fitting(t[1..], room - |EncodeChar(t[0])|);
    }
  }

  /** encode keeps the longest run of whole characters from the front that fits behind
      a length byte, all of the text where that fits, and it decodes to just those
      characters. */
  lemma EncodeKeepsWholeCharacters(t: string)
    ensures |Encode(t)| <= LIMIT
    ensures Encode(t) == EncodeText(Fitting(t, LIMIT))
    ensures Decode(Encode(t)) == CodePoints(Fitting(t, LIMIT))
    ensures Fitting(t, LIMIT) <= t
    ensures Fitting(t, LIMIT) != t ==>
              |Encode(t)| + |EncodeChar(t[|Fitting(t, LIMIT)|])| > LIMIT
    ensures Encode(t) == [] <==> t == ""
  {
    FittingFits(t, LIMIT);
    if |EncodeText(t)| > LIMIT {
      PrefixFits(t, LIMIT);
    }
    TextRoundTrip(Fitting(t, LIMIT));
  }

  // ---- Reading texts back ---------------------------------------------------------------

  function CharsOf(points: seq<nat>): Option<string> {
    if points == [] then Some("")
    else
      var n, rest := points[0], CharsOf(points[1..]);
      if rest == None || n >= 0x11_0000 || 0xD800 <= n < 0xE000 then None
      else Some([n as char] + rest.value)
  }

  /** Strict decoding: none for bytes that are not the UTF-8 of a text. */
  function TextOf(b: seq<byte>): Option<string> {
    var t := CharsOf(Decode(b));
    if t.Some? && EncodeText(t.value) == b then t else None
  }

  lemma {:induction false} CharsRoundTrip(t: string)
    ensures CharsOf(CodePoints(t)) == Some(t)
  {
    if t != "" {
      CharsRoundTrip(t[1..]);
      assert CodePoints(t)[1..] == CodePoints(t[1..]);
      assert (CodePoints(t)[0] as char) == t[0];
      assert [t[0]] + t[1..] == t;
    }
  }

  /** It reads a text from its encoding, and from nothing else. */
  lemma TextOfReads(b: seq<byte>, t: string)
    ensures TextOf(b) == Some(t) <==> EncodeText(t) == b
  {
    if EncodeText(t) == b {
      TextRoundTrip(t);
      CharsRoundTrip(t);
    }
  }

  // ---- The standard -----------------------------------------------------------------------

  predicate Follows(b: byte) {
    128 <= b < 192
  }

  /** The byte sequences of RFC 3629, section 3: one byte below 0x80, or a first byte that
      tells how many follow, each with six bits more. */
  lemma CharFollowsTheStandard(c: char)
    ensures var n, b := c as int, EncodeChar(c);
            if n < 0x80 then b == [n]
            else if n < 0x800 then
              |b| == 2 && 192 <= b[0] < 224 && Follows(b[1]) && n == 64 * (b[0] - 192) as int + (b[1] as int - 128)
            else if n < 0x1_0000 then
              |b| == 3 && 224 <= b[0] < 240 && Follows(b[1]) && Follows(b[2])
              && n == 4_096 * (b[0] - 224) as int + 64 * (b[1] as int - 128) + (b[2] as int - 128)
            else
              |b| == 4 && 240 <= b[0] < 248 && Follows(b[1]) && Follows(b[2]) && Follows(b[3])
              && n == 262_144 * (b[0] - 240) as int + 4_096 * (b[1] as int - 128) + 64 * (b[2] as int - 128)
                      + (b[3] as int - 128)
  {
  }
}
