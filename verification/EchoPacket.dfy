/** The packets of the ping sweep in src/c/icmp_ping.c: the Internet checksum
    (RFC 1071), the echo a sweep sends, and which replies count. */
module EchoPacket {
  import opened Basics
  import opened Bytes

  const HEADER_LEN := 8
  const PAYLOAD_LEN := 32
  /** The longest packet whose words always sum to less than 2^32. */
  const MAX_EXACT := 131_074

  // ---- Checksum ---------------------------------------------------------------------

  /** The sum of the packet's 16-bit words, an odd last byte counting as a high one. */
  function WordSum(data: seq<byte>): nat {
    if data == [] then 0
    else if |data| == 1 then Word(data[0], 0)
    else Word(data[0], data[1]) + WordSum(data[2..])
  }

  /** Adding the carries back in until none is left. */
  function Fold(sum: nat): nat
    decreases sum
  {
    if sum < 65536 then sum else Fold(sum % 65536 + sum / 65536)
  }

  function ChecksumOf(data: seq<byte>): nat {
    65535 - FoldRange(WordSum(data))
  }

  /** The same of the words added up in 32 bits. */
  function WrappedChecksum(data: seq<byte>): nat {
    65535 - FoldRange(WordSum(data) % TWO_32)
  }

  predicate WrapHarmless(sum: nat) {
    sum < TWO_32 || (sum % TWO_32 > 0 && sum / TWO_32 % 65535 == 0)
  }

  function FoldRange(sum: nat): (r: nat)
    ensures r <= 65535
  {
    FoldIsModulo(sum);
    Fold(sum)
  }

  /** One's complement addition: folding is reduction modulo 65535, with 65535 for the
      multiples other than zero. */
  lemma {:induction false} FoldIsModulo(sum: nat)
    ensures Fold(sum) == if sum == 0 then 0 else (sum - 1) % 65535 + 1
    decreases sum
  {
    if sum >= 65536 {
      var less := sum % 65536 + sum / 65536;
      FoldIsModulo(less);
      assert sum == less + 65535 * (sum / 65536);
      SameResidue(less - 1, sum / 65536);
    } else if sum == 65535 {
      assert (65535 - 1) % 65535 == 65534;
    }
  }

  lemma SameResidue(a: nat, k: nat)
    ensures (a + 65535 * k) % 65535 == a % 65535
  {
    DivModUnique(a + 65535 * k, 65535, a / 65535 + k, a % 65535);
  }

  lemma ModAdd(a: nat, b: nat, n: nat)
    requires n > 0
    ensures (a % n + b) % n == (a + b) % n
  {
    var q, r := a / n, a % n;
    var p, t := (r + b) / n, (r + b) % n;
    assert a == n * q + r && r + b == n * p + t;
    assert n * (q + p) == n * q + n * p;
    DivModUnique(a + b, n, q + p, t);
  }

  /** An odd last byte counts as if a zero byte followed it. */
  lemma {:induction false} OddTailIsPadded(data: seq<byte>)
    requires |data| % 2 == 1
    ensures WordSum(data) == WordSum(data + [0])
  {
    if |data| > 1 {
      OddTailIsPadded(data[2..]);
      assert (data + [0])[2..] == data[2..] + [0];
    }
  }

  lemma {:induction false} WordSumBound(data: seq<byte>)
    ensures WordSum(data) <= 65535 * ((|data| + 1) / 2)
  {
    if |data| > 1 {
      WordSumBound(data[2..]);
    }
  }

  lemma SumStep(sum: nat, word: nat, rest: nat, whole: nat)
    requires (sum + (word + rest)) % TWO_32 == whole % TWO_32
    ensures ((sum + word) % TWO_32 + rest) % TWO_32 == whole % TWO_32
  {
    ModAdd(sum + word, rest, TWO_32);
  }

  /** The first half of checksum(): the words added up in 32 bits. */
  method AddWords(data: seq<byte>) returns (sum: nat)
    ensures sum == WordSum(data) % TWO_32
  {
    sum := 0;
    var i := 0;
    while i + 1 < |data|
      invariant 0 <= i <= |data| && i % 2 == 0 && sum < TWO_32
      invariant (sum + WordSum(data[i..])) % TWO_32 == WordSum(data) % TWO_32
      decreases |data| - i
    {
      var word := Word(data[i], data[i + 1]);
      assert data[i..][2..] == data[i + 2..];
      SumStep(sum, word, WordSum(data[i + 2..]), WordSum(data));
      sum := (sum + word) % TWO_32;
      i := i + 2;
    }
    if |data| % 2 == 1 {
      assert data[i..] == [data[|data| - 1]];
      sum := (sum + Word(data[|data| - 1], 0)) % TWO_32;
    } else {
      assert data[i..] == [];
    }
  }

  /** checksum() as written, with its 32-bit accumulator. */
  method Checksum(data: seq<byte>) returns (c: nat)
    ensures c == WrappedChecksum(data)
    ensures c == ChecksumOf(data) <==> WrapHarmless(WordSum(data))
    ensures |data| <= MAX_EXACT ==> c == ChecksumOf(data)
  {
    var sum := AddWords(data);
    ghost var total := sum;
    while sum >= 65536
      invariant Fold(sum) == Fold(total)
      decreases sum
    {
      sum := sum % 65536 + sum / 65536;
    }
    c := 65535 - sum;
    ChecksumExactly(data);
    WordSumBound(data);
  }

  /** Exactly when checksum() returns the checksum: its words sum to less than 2^32, or
      what the wrap takes off is a multiple of 65535 and leaves something. */
  lemma ChecksumExactly(data: seq<byte>)
    ensures WrappedChecksum(data) == ChecksumOf(data) <==> WrapHarmless(WordSum(data))
  {
    var sum := WordSum(data);
    var q, r := sum / TWO_32, sum % TWO_32;
    FoldIsModulo(sum);
    FoldIsModulo(r);
    if q > 0 && r > 0 {
      assert sum - 1 == (r - 1 + q) + 65535 * (65537 * q);
      SameResidue(r - 1 + q, 65537 * q);
      ShiftedResidue(r - 1, q);
    }
  }

  lemma ShiftedResidue(a: nat, q: nat)
    ensures (a + q) % 65535 == a % 65535 <==> q % 65535 == 0
  {
    var r, t := a % 65535, q % 65535;
    assert a + q == (r + t) + 65535 * (a / 65535 + q / 65535);
    SameResidue(r + t, a / 65535 + q / 65535);
    if r + t >= 65535 {
      DivModUnique(r + t, 65535, 1, r + t - 65535);
    }
  }

  /** A packet of 0xFF up to `ones` words and one byte, then zeros. */
  function Heavy(ones: nat, zeros: nat): seq<byte> {
    if ones == 0 then [255] + seq(zeros, _ => 0) else [255, 255] + Heavy(ones - 1, zeros)
  }

  lemma {:induction false} ZerosSum(n: nat)
    ensures WordSum(seq(n, _ => 0)) == 0
    decreases n
  {
    var z: seq<byte> := seq(n, _ => 0);
    if n > 1 {
      assert z[2..] == seq(n - 2, _ => 0);
      ZerosSum(n - 2);
    }
  }

  lemma {:induction false} HeavySum(ones: nat, zeros: nat)
    ensures |Heavy(ones, zeros)| == 2 * ones + 1 + zeros
    ensures WordSum(Heavy(ones, zeros)) == 65535 * ones + 65280
  {
    var data := Heavy(ones, zeros);
    if ones > 0 {
      HeavySum(ones - 1, zeros);
      assert data[2..] == Heavy(ones - 1, zeros);
    } else if zeros > 0 {
      ZerosSum(zeros - 1);
      assert data[2..] == seq(zeros - 1, _ => 0);
    }
  }

  /** One packet of each greater length on which it is wrong: from 131,075 bytes on. */
  lemma SomePacketWraps(n: nat) returns (data: seq<byte>)
    requires n > MAX_EXACT
    ensures |data| == n && WrappedChecksum(data) != ChecksumOf(data)
  {
    data := Heavy(65537, n - MAX_EXACT - 1);
    HeavySum(65537, n - MAX_EXACT - 1);
    ChecksumExactly(data);
  }

  /** So it is right for every packet of a length exactly up to MAX_EXACT bytes. */
  lemma ExactUpToLength(n: nat)
    ensures (forall data: seq<byte> :: |data| == n ==> WrappedChecksum(data) == ChecksumOf(data))
            <==> n <= MAX_EXACT
  {
    if n > MAX_EXACT {
      var data := SomePacketWraps(n);
    } else {
      forall data: seq<byte> | |data| == n ensures WrappedChecksum(data) == ChecksumOf(data) {
        WordSumBound(data);
      }
    }
  }

  lemma {:induction false} WordSumPut(data: seq<byte>, at: nat, hi: byte, lo: byte)
    requires at % 2 == 0 && at + 1 < |data| && data[at] == 0 && data[at + 1] == 0
    ensures WordSum(data[at := hi][at + 1 := lo]) == WordSum(data) + hi * 256 + lo
  {
    var put := data[at := hi][at + 1 := lo];
    if at == 0 {
      assert put[2..] == data[2..];
    } else {
      assert put[2..] == data[2..][at - 2 := hi][at - 1 := lo];
      WordSumPut(data[2..], at - 2, hi, lo);
    }
  }

  /** Storing the checksum, high byte first, in a zeroed field at an even offset makes
      the checksum of the whole packet zero: what a receiver checks. */
  lemma StoredChecksumCancels(data: seq<byte>, at: nat)
    requires at % 2 == 0 && at + 1 < |data| && data[at] == 0 && data[at + 1] == 0
    ensures var c := ChecksumOf(data);
            c / 256 < 256 && ChecksumOf(data[at := c / 256][at + 1 := c % 256]) == 0
  {
    var sum, c := WordSum(data), ChecksumOf(data);
    WordSumPut(data, at, c / 256, c % 256);
    FoldIsModulo(sum);
    FoldIsModulo(sum + c);
    if sum > 0 {
      var q, r := (sum - 1) / 65535, (sum - 1) % 65535;
      assert sum + c - 1 == 65535 * q + 65534;
      DivModUnique(sum + c - 1, 65535, q, 65534);
    }
  }

  // ---- Echoes and replies ---------------------------------------------------------------

  /** echo_payload: the sweep's token, the host's index, and padding, as memcpy lays
      them out on a little-endian host. */
  function Payload(token: nat, index: nat): (b: seq<byte>)
    requires token < TWO_32
    ensures |b| == PAYLOAD_LEN
  {
    Le32(token) + Le32(index % TWO_32) + seq(PAYLOAD_LEN - 8, _ => 0)
  }

  /** The echo request before its checksum goes in. */
  function Unsummed(ident: nat, token: nat, index: nat): (b: seq<byte>)
    requires token < TWO_32
    ensures |b| == HEADER_LEN + PAYLOAD_LEN
  {
    [8, 0, 0, 0, ident / 256 % 256, ident % 256, index / 256 % 256, index % 256] + Payload(token, index)
  }

  lemma WordOf(n: nat)
    ensures Word(n / 256 % 256, n % 256) == n % TWO_16
  {
  }

  /** Field by field: an echo request, identifier and sequence number high byte first, then
      the token and the index, and zeros. */
  lemma EchoFields(ident: nat, token: nat, index: nat)
    requires token < TWO_32
    ensures var b := Unsummed(ident, token, index);
            && b[0] == 8 && b[1] == 0 && b[2] == 0 && b[3] == 0
            && Word(b[4], b[5]) == ident % TWO_16 && Word(b[6], b[7]) == index % TWO_16
            && b[8..12] == Le32(token) && b[12..16] == Le32(index % TWO_32)
            && forall k :: 16 <= k < HEADER_LEN + PAYLOAD_LEN ==> b[k] == 0
  {
    WordOf(ident);
    WordOf(index);
  }

  /** The packet send_echo sends. */
  method BuildEcho(ident: nat, token: nat, index: nat) returns (packet: seq<byte>)
    requires token < TWO_32
    ensures |packet| == HEADER_LEN + PAYLOAD_LEN
    ensures packet[2 := 0][3 := 0] == Unsummed(ident, token, index)
    ensures ChecksumOf(packet) == 0
  {
    packet := Unsummed(ident, token, index);
    var sum := Checksum(packet);
    StoredChecksumCancels(packet, 2);
    packet := packet[2 := sum / 256][3 := sum % 256];
  }

  /** Where the ICMP message starts: behind the IPv4 header, if one came along. */
  function IcmpStart(buf: seq<byte>): nat {
    if |buf| > 0 && buf[0] / 16 == 4 then buf[0] % 16 * 4 else 0
  }

  /** match_reply: the index of the host a packet counts for, -1 for none. */
  function MatchReply(buf: seq<byte>, from: nat, ident: nat, token: nat, ips: seq<nat>, linux: bool): int {
    var offset := IcmpStart(buf);
    if |buf| < offset + HEADER_LEN + PAYLOAD_LEN then -1
    else
      var icmp := buf[offset..];
      if icmp[0] != 0 || icmp[1] != 0 then -1
      else if !linux && Word(icmp[4], icmp[5]) != ident then -1
      else
        var index := FromLe32(icmp[12..16]);
        if FromLe32(icmp[8..12]) != token || index >= |ips| then -1
        else if from != ips[index] then -1
        else index
  }

  /** A packet only counts as an echo reply with the sweep's own token and, where the
      system does not see to it, its identifier, and only for a host of this sweep: the
      one it names and came from. */
  lemma OnlyOwnRepliesCount(buf: seq<byte>, from: nat, ident: nat, token: nat, ips: seq<nat>, linux: bool)
    ensures var r, at := MatchReply(buf, from, ident, token, ips, linux), IcmpStart(buf);
            && -1 <= r < |ips|
            && (r >= 0 ==>
                  && at + HEADER_LEN + PAYLOAD_LEN <= |buf|
                  && buf[at] == 0 && buf[at + 1] == 0
                  && (linux || Word(buf[at + 4], buf[at + 5]) == ident)
                  && FromLe32(buf[at + 8..at + 12]) == token
                  && FromLe32(buf[at + 12..at + 16]) == r
                  && ips[r] == from)
  {
    var at := IcmpStart(buf);
    if |buf| >= at + HEADER_LEN + PAYLOAD_LEN {
      assert buf[at..][8..12] == buf[at + 8..at + 12];
      assert buf[at..][12..16] == buf[at + 12..at + 16];
    }
  }

  /** The reply to the echo sent to host `index`, which returns its payload, is
      matched to exactly that host: bare, as Linux delivers it, or behind an IPv4
      header of any length, as macOS does. */
  lemma ReplyFindsItsHost(head: seq<byte>, icmp: seq<byte>, ident: nat, token: nat, index: nat,
                          ips: seq<nat>, linux: bool)
    requires head == [] || (head[0] / 16 == 4 && |head| == head[0] % 16 * 4)
    requires |icmp| == HEADER_LEN + PAYLOAD_LEN && icmp[0] == 0 && icmp[1] == 0
    requires token < TWO_32 && index < |ips| <= TWO_32
    requires icmp[HEADER_LEN..] == Payload(token, index)
    requires linux || Word(icmp[4], icmp[5]) == ident
    ensures MatchReply(head + icmp, ips[index], ident, token, ips, linux) == index
  {
    var buf := head + icmp;
    assert buf[|head|..] == icmp;
    assert icmp[8..12] == icmp[HEADER_LEN..][0..4] == Le32(token);
    assert icmp[12..16] == icmp[HEADER_LEN..][4..8] == Le32(index);
    Le32RoundTrip(token);
    Le32RoundTrip(index);
  }
}
