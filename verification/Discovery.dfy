/** The reverse query multicast discovery sends, and the host name it reads from the
    replies (src/core/multicast.zig). */
module Discovery {
  import opened Basics
  import opened Bytes
  import opened Dns

  const QUERY_HEADER: seq<byte> := [0x4E, 0x54, 0, 0, 0, 1, 0, 0, 0, 0, 0, 0]
  const IN_ADDR: Name := [105, 110, 45, 97, 100, 100, 114]
  const ARPA: Name := [97, 114, 112, 97]
  const QUESTION: seq<byte> := [0, TYPE_PTR, 0, 1]

  type Ip = a: seq<byte> | |a| == 4 witness [0, 0, 0, 0]

  // ---- Reverse names -------------------------------------------------------------------

  function Digit(n: nat): byte {
    48 + n % 10
  }

  /** The format {d} of a byte. */
  function Decimal(n: byte): (d: Name)
    ensures IsLabel(d) && |d| <= 3
  {
    if n < 10 then [Digit(n)]
    else if n < 100 then [Digit(n / 10), Digit(n)]
    else [Digit(n / 100), Digit(n / 10), Digit(n)]
  }

  /** The octets as labels, last one first. */
  function OctetLabels(octets: seq<byte>): (ls: seq<Name>)
    ensures |ls| == |octets|
    ensures forall k :: 0 <= k < |ls| ==> IsLabel(ls[k]) && |ls[k]| <= 3
  {
    if octets == [] then [] else OctetLabels(octets[1..]) + [Decimal(octets[0])]
  }

  function ReverseLabels(ip: Ip): (ls: seq<Name>)
    ensures forall k :: 0 <= k < |ls| ==> IsLabel(ls[k])
  {
    OctetLabels(ip) + [IN_ADDR, ARPA]
  }

  const SUFFIX: Name := IN_ADDR + [DOT] + ARPA

  function Behind(n: byte, rest: Name): Name {
    Decimal(n) + [DOT] + rest
  }

  /** hostName's "{d}.{d}.{d}.{d}.in-addr.arpa". */
  function ReverseName(ip: Ip): Name {
    Behind(ip[3], Behind(ip[2], Behind(ip[1], Behind(ip[0], SUFFIX))))
  }

  function ReverseQuery(ip: Ip): seq<byte> {
    QUERY_HEADER + (WireLabels(ReverseLabels(ip)) + [0]) + QUESTION
  }

  lemma {:induction false} WireLabelsJoin(a: seq<Name>, b: seq<Name>)
    requires forall k :: 0 <= k < |a| ==> IsLabel(a[k])
    requires forall k :: 0 <= k < |b| ==> IsLabel(b[k])
    ensures WireLabels(a + b) == WireLabels(a) + WireLabels(b)
  {
    if a == [] {
      assert a + b == b;
    } else {
      assert (a + b)[1..] == a[1..] + b;
      WireLabelsJoin(a[1..], b);
    }
  }

  lemma WireOne(piece: Name)
    requires IsLabel(piece)
    ensures WireLabels([piece]) == WireLabel(piece)
  {
    assert [piece][1..] == [];
  }

  method CopyInto(buf: array<byte>, at: nat, bytes: seq<byte>)
    requires at + |bytes| <= buf.Length
    modifies buf
    ensures buf[..at + |bytes|] == old(buf[..at]) + bytes
  {
    for k := 0 to |bytes|
      invariant buf[..at + k] == old(buf[..at]) + bytes[..k]
    {
      buf[at + k] := bytes[k];
    }
  }

  lemma OctetsFit(octets: seq<byte>)
    ensures |WireLabels(OctetLabels(octets))| <= 4 * |octets|
  {
    if octets != [] {
      OctetsFit(octets[1..]);
      WireLabelsJoin(OctetLabels(octets[1..]), [Decimal(octets[0])]);
      WireOne(Decimal(octets[0]));
    }
  }

  lemma NextOctet(ip: Ip, i: nat)
    requires i < 4
    ensures WireLabels(OctetLabels(ip[i..])) ==
            WireLabels(OctetLabels(ip[i + 1..])) + WireLabel(Decimal(ip[i]))
  {
    assert ip[i..][1..] == ip[i + 1..];
    WireLabelsJoin(OctetLabels(ip[i + 1..]), [Decimal(ip[i])]);
    WireOne(Decimal(ip[i]));
  }

  const TAIL: seq<byte> := [7] + IN_ADDR + [4] + ARPA + [0, 0, TYPE_PTR, 0, 1]

  lemma TailIsTheRest(ip: Ip)
    ensures ReverseQuery(ip) == QUERY_HEADER + WireLabels(OctetLabels(ip)) + TAIL
  {
    WireLabelsJoin(OctetLabels(ip), [IN_ADDR, ARPA]);
    assert [IN_ADDR, ARPA] == [IN_ADDR] + [ARPA];
    WireLabelsJoin([IN_ADDR], [ARPA]);
    WireOne(IN_ADDR);
    WireOne(ARPA);
    assert WireLabel(IN_ADDR) + WireLabel(ARPA) + [0] + QUESTION == TAIL;
  }

  /** The octets, last one first, each as its digits behind their length. */
  method PutOctets(buf: array<byte>, at: nat, ip: Ip) returns (len: nat)
    requires at + 16 <= buf.Length
    modifies buf
    ensures at <= len <= at + 16
    ensures buf[..len] == old(buf[..at]) + WireLabels(OctetLabels(ip))
  {
    len := at;
    ghost var front := buf[..at];
    var i: nat := 4;
    while i > 0
      invariant i <= 4 && at <= len <= at + 4 * (4 - i)
      invariant buf[..len] == front + WireLabels(OctetLabels(ip[i..]))
    {
      i := i - 1;
      var digits := Decimal(ip[i]);
      ghost var before := WireLabels(OctetLabels(ip[i + 1..]));
      CopyInto(buf, len, WireLabel(digits));
      NextOctet(ip, i);
      assert (front + before) + WireLabel(digits) == front + (before + WireLabel(digits));
      len := len + 1 + |digits|;
    }
    assert ip[0..] == ip;
  }

  /** reverseQuery as written: it stays within its 64 bytes. */
  method BuildReverseQuery(buf: array<byte>, ip: Ip) returns (len: nat)
    requires buf.Length == 64
    modifies buf
    ensures len <= buf.Length && buf[..len] == ReverseQuery(ip)
  {
    CopyInto(buf, 0, QUERY_HEADER);
    len := PutOctets(buf, |QUERY_HEADER|, ip);
    TailIsTheRest(ip);
    CopyInto(buf, len, TAIL);
    len := len + |TAIL|;
  }

  lemma OctetsInTurn(ip: Ip)
    ensures ReverseLabels(ip) ==
            [Decimal(ip[3]), Decimal(ip[2]), Decimal(ip[1]), Decimal(ip[0]), IN_ADDR, ARPA]
  {
    assert OctetLabels(ip[3..]) == [Decimal(ip[3])] by {
      assert ip[3..][1..] == [];
    }
    assert OctetLabels(ip[2..]) == [Decimal(ip[3]), Decimal(ip[2])] by {
      assert ip[2..][1..] == ip[3..];
    }
    assert OctetLabels(ip[1..]) == [Decimal(ip[3]), Decimal(ip[2]), Decimal(ip[1])] by {
      assert ip[1..][1..] == ip[2..];
    }
  }

  lemma {:induction false} JoinedShifts(front: Name, name: Name, labels: seq<Name>)
    requires name != []
    ensures Joined(front + name, labels) == front + Joined(name, labels)
    decreases |labels|
  {
    if labels != [] {
      assert Extended(front + name, labels[0]) == front + Extended(name, labels[0]);
      JoinedShifts(front, Extended(name, labels[0]), labels[1..]);
    }
  }

  lemma DottedHead(first: Name, labels: seq<Name>)
    requires first != [] && labels != [] && labels[0] != []
    ensures Dotted([first] + labels) == first + [DOT] + Dotted(labels)
  {
    assert ([first] + labels)[1..] == labels;
    DottedUnfolds([first] + labels);
    DottedUnfolds(labels);
    assert Extended(first, labels[0]) == (first + [DOT]) + labels[0];
    JoinedShifts(first + [DOT], labels[0], labels[1..]);
  }

  lemma OctetDots(n: byte, labels: seq<Name>)
    requires labels != [] && labels[0] != []
    ensures Dotted([Decimal(n)] + labels) == Behind(n, Dotted(labels))
  {
    DottedHead(Decimal(n), labels);
  }

  lemma SuffixDots()
    ensures Dotted([IN_ADDR, ARPA]) == SUFFIX
  {
    assert [IN_ADDR, ARPA] == [IN_ADDR] + [ARPA];
    DottedHead(IN_ADDR, [ARPA]);
    DottedUnfolds([ARPA]);
  }

  lemma DottedReverse(ip: Ip)
    ensures Dotted(ReverseLabels(ip)) == ReverseName(ip)
  {
    SuffixDots();
    var a, b, c, d := Decimal(ip[3]), Decimal(ip[2]), Decimal(ip[1]), Decimal(ip[0]);
    var l0 := [IN_ADDR, ARPA];
    var l1, l2, l3 := [d] + l0, [c] + ([d] + l0), [b] + ([c] + ([d] + l0));
    OctetDots(ip[0], l0);
    OctetDots(ip[1], l1);
    OctetDots(ip[2], l2);
    OctetDots(ip[3], l3);
    OctetsInTurn(ip);
    assert ReverseLabels(ip) == [a] + l3;
  }

  lemma BehindPresents(n: byte, rest: Name)
    requires Printable(rest)
    ensures Printable(Behind(n, rest)) && |rest| < |Behind(n, rest)| <= |rest| + 4
  {
  }

  lemma ReversePresents(ip: Ip)
    ensures Presentable(ReverseName(ip))
  {
    BehindPresents(ip[0], SUFFIX);
    BehindPresents(ip[1], Behind(ip[0], SUFFIX));
    BehindPresents(ip[2], Behind(ip[1], Behind(ip[0], SUFFIX)));
    BehindPresents(ip[3], Behind(ip[2], Behind(ip[1], Behind(ip[0], SUFFIX))));
  }

  /** The question of a reverse query, decoded, is the dotted name replies are matched
      against; and skipping it lands on the query type. */
  lemma QueryAsksForTheReverseName(ip: Ip)
    ensures DecodeName(ReverseQuery(ip), HEADER_LEN) == Some(ReverseName(ip))
    ensures SkipName(ReverseQuery(ip), HEADER_LEN) == Some(|ReverseQuery(ip)| - |QUESTION|)
    ensures ReverseQuery(ip)[|ReverseQuery(ip)| - |QUESTION|..] == QUESTION
    ensures U16At(ReverseQuery(ip), 4) == 1 && Counts(ReverseQuery(ip)) == 0
  {
    var q, ls := ReverseQuery(ip), ReverseLabels(ip);
    var written := WireLabels(ls) + [0];
    SliceRight(QUERY_HEADER, written, HEADER_LEN, HEADER_LEN + |written|);
    SliceLeft(QUERY_HEADER + written, QUESTION, HEADER_LEN, HEADER_LEN + |written|);
    assert StandsAt(q, HEADER_LEN, written);
    WrittenIsSpelt(q, HEADER_LEN, ls);
    DottedReverse(ip);
    ReversePresents(ip);
    assert SpeltAs(q, HEADER_LEN, ReverseName(ip), ls, 0);
    DecodesExactlyWhatIsSpelt(q, HEADER_LEN, ReverseName(ip));
  }

  // ---- Telling names apart ------------------------------------------------------------------

  function Lower(b: byte): byte {
    if 65 <= b <= 90 then b + 32 else b
  }

  /** std.ascii.eqlIgnoreCase */
  predicate SameName(a: Name, b: Name) {
    |a| == |b| && forall i :: 0 <= i < |a| ==> Lower(a[i]) == Lower(b[i])
  }

  function DigitValue(b: byte): int {
    b as int - 48
  }

  function ValueOf(d: Name): int {
    if d == [] then 0 else 10 * ValueOf(Front(d)) + DigitValue(Last(d))
  }

  lemma DecimalReads(n: byte)
    ensures ValueOf(Decimal(n)) == n
  {
    var d := Decimal(n);
    assert ValueOf(d[..1]) == DigitValue(d[0]);
    if |d| > 1 {
      assert Front(d[..2]) == d[..1];
      if |d| > 2 {
        assert Front(d[..3]) == d[..2];
      }
    }
    assert d[..|d|] == d;
  }

  lemma BehindTells(m: byte, n: byte, r: Name, s: Name)
    requires Behind(m, r) == Behind(n, s)
    ensures m == n && r == s
  {
    var a, b, left, right := Decimal(m), Decimal(n), Behind(m, r), Behind(n, s);
    assert left[|a|] == DOT && right[|b|] == DOT;
    assert forall k :: 0 <= k < |a| ==> left[k] == a[k] && a[k] != DOT;
    assert forall k :: 0 <= k < |b| ==> right[k] == b[k] && b[k] != DOT;
    assert a == left[..|a|] && b == right[..|b|];
    assert r == left[|a| + 1..] && s == right[|b| + 1..];
    DecimalReads(m);
    DecimalReads(n);
  }

  predicate LowerCase(a: Name) {
    forall i :: 0 <= i < |a| ==> Lower(a[i]) == a[i]
  }

  lemma BehindIsLowerCase(n: byte, rest: Name)
    requires LowerCase(rest)
    ensures LowerCase(Behind(n, rest))
  {
  }

  lemma ReverseIsLowerCase(ip: Ip)
    ensures LowerCase(ReverseName(ip))
  {
    BehindIsLowerCase(ip[0], SUFFIX);
    BehindIsLowerCase(ip[1], Behind(ip[0], SUFFIX));
    BehindIsLowerCase(ip[2], Behind(ip[1], Behind(ip[0], SUFFIX)));
    BehindIsLowerCase(ip[3], Behind(ip[2], Behind(ip[1], Behind(ip[0], SUFFIX))));
  }

  lemma SameLowerCase(a: Name, b: Name)
    requires LowerCase(a) && LowerCase(b) && SameName(a, b)
    ensures a == b
  {
    forall i | 0 <= i < |a| ensures a[i] == b[i] {
      assert Lower(a[i]) == Lower(b[i]);
    }
  }

  function Upper(b: byte): byte {
    if 97 <= b <= 122 then b - 32 else b
  }

  /** Capitals do not matter to a comparison, and nothing else is overlooked. */
  lemma CaseDoesNotMatter(a: Name, b: Name)
    ensures SameName(a, b) <==>
            |a| == |b| && forall i :: 0 <= i < |a| ==> a[i] == b[i] || a[i] == Upper(b[i]) || Upper(a[i]) == b[i]
  {
    assert forall x: byte, y: byte :: Lower(x) == Lower(y) <==> x == y || x == Upper(y) || Upper(x) == y;
  }

  /** Only one address has a given reverse name, in whatever case it is written. */
  lemma ReverseNamesTellAddresses(a: Ip, b: Ip)
    requires SameName(ReverseName(a), ReverseName(b))
    ensures a == b
  {
    ReverseIsLowerCase(a);
    ReverseIsLowerCase(b);
    SameLowerCase(ReverseName(a), ReverseName(b));
    var a0, b0 := Behind(a[0], SUFFIX), Behind(b[0], SUFFIX);
    BehindTells(a[3], b[3], Behind(a[2], Behind(a[1], a0)), Behind(b[2], Behind(b[1], b0)));
    BehindTells(a[2], b[2], Behind(a[1], a0), Behind(b[1], b0));
    BehindTells(a[1], b[1], a0, b0);
    BehindTells(a[0], b[0], SUFFIX, SUFFIX);
  }

  // ---- Records ------------------------------------------------------------------------------

  /** Where the parts of a resource record are. */
  datatype Record = Record(owner: nat, rtype: nat, rdata: nat, rdlen: nat)
  {
    function End(): nat {
      rdata + rdlen
    }
  }

  function U16At(packet: seq<byte>, pos: nat): nat
    requires pos + 2 <= |packet|
  {
    Word(packet[pos], packet[pos + 1])
  }

  /** The record at `pos`, if all of it is in the packet. */
  function RecordAt(packet: seq<byte>, pos: nat): (r: Option<Record>)
    ensures r.Some? ==> r.value.owner == pos < r.value.rdata <= r.value.End() <= |packet|
  {
    var at := SkipName(packet, pos);
    if at == None || at.value + 10 > |packet| then None
    else
      var r := Record(pos, U16At(packet, at.value), at.value + 10, U16At(packet, at.value + 8));
      if r.End() > |packet| then None else Some(r)
  }

  /** Up to n records in a row, and whether all of them are there. */
  function RecordsFrom(packet: seq<byte>, pos: nat, n: nat): (seq<Record>, bool)
    decreases n
  {
    if n == 0 then ([], true)
    else if RecordAt(packet, pos) == None then ([], false)
    else
      var r := RecordAt(packet, pos).value;
      var (rs, whole) := RecordsFrom(packet, r.End(), n - 1);
      ([r] + rs, whole)
  }

  function SkipQuestions(packet: seq<byte>, pos: nat, n: nat): Option<nat>
    decreases n
  {
    if n == 0 then Some(pos)
    else if SkipName(packet, pos) == None then None
    else SkipQuestions(packet, SkipName(packet, pos).value + 4, n - 1)
  }

  // ---- hostName ---------------------------------------------------------------------------

  /** A pointer record owned by the sender's reverse name. */
  predicate Answers(packet: seq<byte>, from: Ip, r: Record) {
    && r.rtype == TYPE_PTR
    && DecodeName(packet, r.owner).Some?
    && SameName(DecodeName(packet, r.owner).value, ReverseName(from))
  }

  /** An address record that holds the sender's address and has a name to show. */
  predicate Names(packet: seq<byte>, from: Ip, r: Record) {
    && r.rtype == TYPE_A && r.rdlen == 4 && r.End() <= |packet|
    && packet[r.rdata..r.End()] == from
    && DecodeName(packet, r.owner).Some?
  }

  function FirstAnswer(packet: seq<byte>, from: Ip, rs: seq<Record>): Option<Record> {
    if rs == [] then None
    else if Answers(packet, from, rs[0]) then Some(rs[0])
    else FirstAnswer(packet, from, rs[1..])
  }

  function FirstNaming(packet: seq<byte>, from: Ip, rs: seq<Record>): Option<Record> {
    if rs == [] then None
    else if Names(packet, from, rs[0]) then Some(rs[0])
    else FirstNaming(packet, from, rs[1..])
  }

  /** The name these records give the sender, when an address record before them already
      gave `found`: what the first answer to a reverse query says, or else, if nothing
      is cut off, the owner of the first address record for it. */
  function NameFrom(packet: seq<byte>, from: Ip, rs: (seq<Record>, bool), found: Option<Name>): Option<Name> {
    var answer := FirstAnswer(packet, from, rs.0);
    if answer.Some? then DecodeName(packet, answer.value.rdata)
    else if !rs.1 then None
    else if found.Some? then found
    else
      var naming := FirstNaming(packet, from, rs.0);
      if naming.Some? then DecodeName(packet, naming.value.owner) else None
  }

  function Counts(packet: seq<byte>): nat
    requires |packet| >= HEADER_LEN
  {
    U16At(packet, 6) + U16At(packet, 8) + U16At(packet, 10)
  }

  function HostName(packet: seq<byte>, from: Ip): Option<Name> {
    if |packet| < HEADER_LEN then None
    else
      var pos := SkipQuestions(packet, HEADER_LEN, U16At(packet, 4));
      if pos == None then None
      else NameFrom(packet, from, RecordsFrom(packet, pos.value, Counts(packet)), None)
  }

  /** What one record adds to the answer. */
  lemma NameFromStep(packet: seq<byte>, from: Ip, r: Record, rs: (seq<Record>, bool), found: Option<Name>)
    ensures NameFrom(packet, from, ([r] + rs.0, rs.1), found) ==
            if Answers(packet, from, r) then DecodeName(packet, r.rdata)
            else if Names(packet, from, r) && found == None
              then NameFrom(packet, from, rs, DecodeName(packet, r.owner))
            else NameFrom(packet, from, rs, found)
  {
    assert ([r] + rs.0)[1..] == rs.0;
  }

  method PassQuestions(packet: seq<byte>, count: nat) returns (pos: Option<nat>)
    ensures pos == SkipQuestions(packet, HEADER_LEN, count)
  {
    var at: nat := HEADER_LEN;
    for i := 0 to count
      invariant SkipQuestions(packet, HEADER_LEN, count) == SkipQuestions(packet, at, count - i)
    {
      var next := SkipOver(packet, at);
      if next == None { return None; }
      at := next.value + 4;
    }
    return Some(at);
  }

  /** The record at `pos`, with the checks in the order the source makes them. */
  method ReadRecord(packet: seq<byte>, pos: nat) returns (r: Option<Record>)
    ensures r == RecordAt(packet, pos)
  {
    if pos > |packet| { return None; }
    var at := SkipOver(packet, pos);
    if at == None || at.value + 10 > |packet| { return None; }
    var record := Record(pos, U16At(packet, at.value), at.value + 10, U16At(packet, at.value + 8));
    return if record.End() > |packet| then None else Some(record);
  }

  /** hostName as written: one pass, one output buffer. An address record's name waits
      in that buffer while later records are read, and is still there at the end. */
  method ReadHostName(packet: seq<byte>, from: Ip, out: array<byte>) returns (len: Option<nat>)
    requires out.Length == NAME_MAX
    modifies out
    ensures len.Some? <==> HostName(packet, from).Some?
    ensures len.Some? ==> len.value <= out.Length && out[..len.value] == HostName(packet, from).value
  {
    if |packet| < HEADER_LEN { return None; }
    var start := PassQuestions(packet, U16At(packet, 4));
    if start == None { return None; }
    var records := Counts(packet);
    var ownerBuf := new byte[NAME_MAX](_ => 0);
    var byAddress: Option<nat> := None;
    var pos := start.value;
    for i := 0 to records
      invariant byAddress.Some? ==> byAddress.value <= out.Length
      invariant HostName(packet, from) ==
                NameFrom(packet, from, RecordsFrom(packet, pos, records - i),
                         if byAddress == None then None else Some(out[..byAddress.value]))
    {
      var read := ReadRecord(packet, pos);
      if read == None { return None; }
      var r := read.value;
      NameFromStep(packet, from, r, RecordsFrom(packet, r.End(), records - i - 1),
                   if byAddress == None then None else Some(out[..byAddress.value]));
      pos := r.End();
      if r.rtype == TYPE_PTR {
        var owner := ReadName(packet, r.owner, ownerBuf);
        if owner == None || !SameName(ownerBuf[..owner.value], ReverseName(from)) { continue; }
        len := ReadName(packet, r.rdata, out);
        return;
      }
      if r.rtype == TYPE_A && r.rdlen == 4 && byAddress == None && packet[r.rdata..r.End()] == from {
        byAddress := ReadName(packet, r.owner, out);
      }
    }
    return byAddress;
  }

  // ---- Where a name comes from ----------------------------------------------------------------

  lemma {:induction false} FirstAnswerAnswers(packet: seq<byte>, from: Ip, rs: seq<Record>)
    ensures var r := FirstAnswer(packet, from, rs);
            if r.Some? then exists k :: (
              0 <= k < |rs| && rs[k] == r.value && Answers(packet, from, rs[k])
              && forall j :: 0 <= j < k ==> !Answers(packet, from, rs[j]))
            else forall k :: 0 <= k < |rs| ==> !Answers(packet, from, rs[k])
  {
    if rs != [] && !Answers(packet, from, rs[0]) {
      FirstAnswerAnswers(packet, from, rs[1..]);
      assert forall k :: 0 < k < |rs| ==> rs[k] == rs[1..][k - 1];
      if FirstAnswer(packet, from, rs).Some? {
        var k :| 0 <= k < |rs[1..]| && rs[1..][k] == FirstAnswer(packet, from, rs).value && Answers(packet, from, rs[1..][k])
                 && forall j :: 0 <= j < k ==> !Answers(packet, from, rs[1..][j]);
        assert rs[k + 1] == rs[1..][k];
      }
    }
  }

  lemma {:induction false} FirstNamingNames(packet: seq<byte>, from: Ip, rs: seq<Record>)
    ensures var r := FirstNaming(packet, from, rs);
            if r.Some? then exists k :: (
              0 <= k < |rs| && rs[k] == r.value && Names(packet, from, rs[k])
              && forall j :: 0 <= j < k ==> !Names(packet, from, rs[j]))
            else forall k :: 0 <= k < |rs| ==> !Names(packet, from, rs[k])
  {
    if rs != [] && !Names(packet, from, rs[0]) {
      FirstNamingNames(packet, from, rs[1..]);
      assert forall k :: 0 < k < |rs| ==> rs[k] == rs[1..][k - 1];
      if FirstNaming(packet, from, rs).Some? {
        var k :| 0 <= k < |rs[1..]| && rs[1..][k] == FirstNaming(packet, from, rs).value && Names(packet, from, rs[1..][k])
                 && forall j :: 0 <= j < k ==> !Names(packet, from, rs[1..][j]);
        assert rs[k + 1] == rs[1..][k];
      }
    }
  }

  lemma {:induction false} RecordsLieInThePacket(packet: seq<byte>, pos: nat, n: nat)
    ensures forall r :: r in RecordsFrom(packet, pos, n).0 ==> RecordAt(packet, r.owner) == Some(r)
    decreases n
  {
    if n > 0 && RecordAt(packet, pos).Some? {
      RecordsLieInThePacket(packet, RecordAt(packet, pos).value.End(), n - 1);
    }
  }

  /** A record of the packet gives the sender this name. */
  ghost predicate Source(packet: seq<byte>, from: Ip, name: Name, r: Record) {
    && RecordAt(packet, r.owner) == Some(r)
    && ((Answers(packet, from, r) && DecodeName(packet, r.rdata) == Some(name))
        || (Names(packet, from, r) && DecodeName(packet, r.owner) == Some(name)))
  }

  /** Every name hostName gives comes from a record of the packet that is about the
      sender, by its reverse name or by its address, and is fit for a terminal. */
  lemma NamesHaveASource(packet: seq<byte>, from: Ip, name: Name)
    requires HostName(packet, from) == Some(name)
    ensures Presentable(name)
    ensures exists r :: Source(packet, from, name, r)
  {
    var pos := SkipQuestions(packet, HEADER_LEN, U16At(packet, 4)).value;
    var (rs, whole) := RecordsFrom(packet, pos, Counts(packet));
    RecordsLieInThePacket(packet, pos, Counts(packet));
    FirstAnswerAnswers(packet, from, rs);
    FirstNamingNames(packet, from, rs);
    var answer := FirstAnswer(packet, from, rs);
    var r := if answer.Some? then answer.value else FirstNaming(packet, from, rs).value;
    assert r in rs;
    assert Source(packet, from, name, r);
    var at := if answer.Some? then r.rdata else r.owner;
    DecodesExactlyWhatIsSpelt(packet, at, name);
  }

  /** The records hostName gets to see. */
  function RecordsOf(packet: seq<byte>): (seq<Record>, bool) {
    if |packet| < HEADER_LEN then ([], false)
    else
      var pos := SkipQuestions(packet, HEADER_LEN, U16At(packet, 4));
      if pos == None then ([], false) else RecordsFrom(packet, pos.value, Counts(packet))
  }

  /** The name given, exactly: what the first answer to a reverse query says, cut off or not
      after it; without one, and with nothing cut off, the owner of the first record that
      names the sender by its address; and otherwise none. */
  lemma HostNameExactly(packet: seq<byte>, from: Ip)
    ensures var (rs, whole) := RecordsOf(packet);
            && (forall k :: 0 <= k < |rs| && Answers(packet, from, rs[k])
                            && (forall j :: 0 <= j < k ==> !Answers(packet, from, rs[j])) ==>
                  HostName(packet, from) == DecodeName(packet, rs[k].rdata))
            && ((forall k :: 0 <= k < |rs| ==> !Answers(packet, from, rs[k])) ==>
                  && (whole ==>
                        forall k :: 0 <= k < |rs| && Names(packet, from, rs[k])
                                    && (forall j :: 0 <= j < k ==> !Names(packet, from, rs[j])) ==>
                          HostName(packet, from) == DecodeName(packet, rs[k].owner))
                  && (!whole || (forall k :: 0 <= k < |rs| ==> !Names(packet, from, rs[k])) ==>
                        HostName(packet, from) == None))
  {
    var (rs, whole) := RecordsOf(packet);
    FirstAnswerIs(packet, from, rs);
    FirstNamingIs(packet, from, rs);
  }

  lemma FirstAnswerIs(packet: seq<byte>, from: Ip, rs: seq<Record>)
    ensures forall k :: 0 <= k < |rs| && Answers(packet, from, rs[k])
                        && (forall j :: 0 <= j < k ==> !Answers(packet, from, rs[j])) ==>
              FirstAnswer(packet, from, rs) == Some(rs[k])
    ensures (forall k :: 0 <= k < |rs| ==> !Answers(packet, from, rs[k])) ==> FirstAnswer(packet, from, rs) == None
  {
    FirstAnswerAnswers(packet, from, rs);
  }

  lemma FirstNamingIs(packet: seq<byte>, from: Ip, rs: seq<Record>)
    ensures forall k :: 0 <= k < |rs| && Names(packet, from, rs[k])
                        && (forall j :: 0 <= j < k ==> !Names(packet, from, rs[j])) ==>
              FirstNaming(packet, from, rs) == Some(rs[k])
    ensures (forall k :: 0 <= k < |rs| ==> !Names(packet, from, rs[k])) ==> FirstNaming(packet, from, rs) == None
  {
    FirstNamingNames(packet, from, rs);
  }

  // ---- A reply, end to end ----------------------------------------------------------------------

  const REPLY_HEADER: seq<byte> := [0x4E, 0x54, 0x84, 0, 0, 1, 0, 1, 0, 0, 0, 0]

  /** A pointer to the name of the question. */
  const TO_QUESTION: seq<byte> := [192, HEADER_LEN]

  function BeNat16(n: nat): (b: seq<byte>)
    requires n < TWO_16
    ensures |b| == 2
  {
    [n / 256, n % 256]
  }

  function Question(ip: Ip): seq<byte> {
    WireLabels(ReverseLabels(ip)) + [0]
  }

  function Rdata(labels: seq<Name>): seq<byte>
    requires forall k :: 0 <= k < |labels| ==> IsLabel(labels[k])
  {
    WireLabels(labels) + [0]
  }

  /** What a responder sends back: the question, and one pointer record, its owner
      compressed to a pointer at the question. */
  function Reply(ip: Ip, ttl: seq<byte>, labels: seq<Name>): seq<byte>
    requires |ttl| == 4
    requires forall k :: 0 <= k < |labels| ==> IsLabel(labels[k])
    requires |Rdata(labels)| < TWO_16
  {
    Fixed(ip, ttl, |Rdata(labels)|) + Rdata(labels)
  }

  /** The reply up to its record's data. */
  function Fixed(ip: Ip, ttl: seq<byte>, rdlen: nat): seq<byte>
    requires |ttl| == 4 && rdlen < TWO_16
  {
    (REPLY_HEADER + Question(ip) + QUESTION) + (TO_QUESTION + QUESTION + ttl + BeNat16(rdlen))
  }

  lemma {:induction false} WireLength(name: Name, labels: seq<Name>)
    requires name != [] && forall k :: 0 <= k < |labels| ==> IsLabel(labels[k])
    ensures |Joined(name, labels)| == |name| + |WireLabels(labels)|
    decreases |labels|
  {
    if labels != [] {
      WireLength(Extended(name, labels[0]), labels[1..]);
    }
  }

  lemma RdataLength(labels: seq<Name>)
    requires labels != [] && forall k :: 0 <= k < |labels| ==> IsLabel(labels[k])
    ensures |Rdata(labels)| == |Dotted(labels)| + 2
  {
    DottedUnfolds(labels);
    WireLength(labels[0], labels[1..]);
  }

  lemma FixedReads(packet: seq<byte>, ip: Ip, ttl: seq<byte>, rdlen: nat)
    requires |ttl| == 4 && rdlen < TWO_16 && Fixed(ip, ttl, rdlen) <= packet
    ensures var q := HEADER_LEN + |Question(ip)| + 4;
            && |Fixed(ip, ttl, rdlen)| == q + 12
            && REPLY_HEADER <= packet && StandsAt(packet, HEADER_LEN, Question(ip))
            && packet[q] == 192 && packet[q + 1] == HEADER_LEN
            && U16At(packet, q + 2) == TYPE_PTR && U16At(packet, q + 10) == rdlen
  {
    var q := HEADER_LEN + |Question(ip)| + 4;
    var front := REPLY_HEADER + Question(ip) + QUESTION;
    var record := TO_QUESTION + QUESTION + ttl + BeNat16(rdlen);
    var fixed := front + record;
    assert packet[..|fixed|] == fixed;
    assert packet[HEADER_LEN..HEADER_LEN + |Question(ip)|]
        == fixed[HEADER_LEN..HEADER_LEN + |Question(ip)|]
        == Question(ip);
    assert forall k :: 0 <= k < 12 ==> packet[q + k] == fixed[q + k] == record[k];
    assert record[2] == 0 && record[3] == TYPE_PTR;
    assert record[10] == rdlen / 256 && record[11] == rdlen % 256;
  }

  lemma HeaderCounts(packet: seq<byte>)
    requires REPLY_HEADER <= packet
    ensures U16At(packet, 4) == 1 && Counts(packet) == 1
  {
  }

  /** The owner of the reply's record: two bytes to skip, and the reverse name to read. */
  lemma CompressedOwner(packet: seq<byte>, ip: Ip, q: nat)
    requires StandsAt(packet, HEADER_LEN, Question(ip))
    requires q + 2 <= |packet| && packet[q] == 192 && packet[q + 1] == HEADER_LEN
    ensures SkipName(packet, q) == Some(q + 2)
    ensures DecodeName(packet, q) == Some(ReverseName(ip))
  {
    WrittenIsSpelt(packet, HEADER_LEN, ReverseLabels(ip));
    DottedReverse(ip);
    ReversePresents(ip);
    assert Target(packet[q], packet[q + 1]) == HEADER_LEN;
    assert SpeltAs(packet, q, ReverseName(ip), ReverseLabels(ip), 1);
    DecodesExactlyWhatIsSpelt(packet, q, ReverseName(ip));
  }

  lemma OneRecord(packet: seq<byte>, from: Ip, r: Record)
    requires |packet| >= HEADER_LEN && U16At(packet, 4) == 1 && Counts(packet) == 1
    requires SkipName(packet, HEADER_LEN) == Some(r.owner - 4) && RecordAt(packet, r.owner) == Some(r)
    requires Answers(packet, from, r)
    ensures HostName(packet, from) == DecodeName(packet, r.rdata)
  {
    assert SkipQuestions(packet, r.owner, 0) == Some(r.owner);
    assert SkipQuestions(packet, HEADER_LEN, 1) == Some(r.owner);
    assert RecordsFrom(packet, r.End(), 0) == ([], true);
    assert [r] + [] == [r];
    assert RecordsFrom(packet, r.owner, 1) == ([r], true);
  }

  lemma ReplyRecord(packet: seq<byte>, ip: Ip, q: nat, n: nat)
    requires q == HEADER_LEN + |Question(ip)| + 4 && |packet| == q + 12 + n
    requires REPLY_HEADER <= packet && StandsAt(packet, HEADER_LEN, Question(ip))
    requires packet[q] == 192 && packet[q + 1] == HEADER_LEN
    requires U16At(packet, q + 2) == TYPE_PTR && U16At(packet, q + 10) == n
    ensures HostName(packet, ip) == DecodeName(packet, q + 12)
  {
    HeaderCounts(packet);
    CompressedOwner(packet, ip, q);
    WrittenIsSpelt(packet, HEADER_LEN, ReverseLabels(ip));
    OneRecord(packet, ip, Record(q, TYPE_PTR, q + 12, n));
  }

  lemma WrittenDecodes(packet: seq<byte>, pos: nat, labels: seq<Name>)
    requires forall k :: 0 <= k < |labels| ==> IsLabel(labels[k])
    requires StandsAt(packet, pos, Rdata(labels)) && Presentable(Dotted(labels))
    ensures DecodeName(packet, pos) == Some(Dotted(labels))
  {
    WrittenIsSpelt(packet, pos, labels);
    assert SpeltAs(packet, pos, Dotted(labels), labels, 0);
    DecodesExactlyWhatIsSpelt(packet, pos, Dotted(labels));
  }

  /** Whatever name a responder gives itself, as long as it is presentable, is the name
      read from its reply. */
  lemma ReplyNamesItsSender(ip: Ip, ttl: seq<byte>, labels: seq<Name>)
    requires |ttl| == 4 && labels != [] && forall k :: 0 <= k < |labels| ==> IsLabel(labels[k])
    requires Presentable(Dotted(labels))
    ensures |Rdata(labels)| < TWO_16
    ensures HostName(Reply(ip, ttl, labels), ip) == Some(Dotted(labels))
  {
    RdataLength(labels);
    var fixed, rdata := Fixed(ip, ttl, |Rdata(labels)|), Rdata(labels);
    var packet, q := fixed + rdata, HEADER_LEN + |Question(ip)| + 4;
    FixedReads(packet, ip, ttl, |rdata|);
    SliceRight(fixed, rdata, |fixed|, |fixed| + |rdata|);
    WrittenDecodes(packet, q + 12, labels);
    ReplyRecord(packet, ip, q, |rdata|);
  }

  // ---- A reply with an address record -----------------------------------------------------------

  const ADDRESS_HEADER: seq<byte> := [0, 0, 0x84, 0, 0, 0, 0, 1, 0, 0, 0, 0]
  const ADDRESS: seq<byte> := [0, TYPE_A, 0, 1]

  /** An answer of one address record, owned by the name and holding the address. */
  function AddressReply(ip: Ip, ttl: seq<byte>, labels: seq<Name>): seq<byte>
    requires |ttl| == 4
    requires forall k :: 0 <= k < |labels| ==> IsLabel(labels[k])
  {
    (ADDRESS_HEADER + Rdata(labels)) + (ADDRESS + ttl + [0, 4] + ip)
  }

  lemma AddressReads(packet: seq<byte>, ip: Ip, ttl: seq<byte>, labels: seq<Name>)
    requires |ttl| == 4
    requires forall k :: 0 <= k < |labels| ==> IsLabel(labels[k])
    requires packet == AddressReply(ip, ttl, labels)
    ensures var q := HEADER_LEN + |Rdata(labels)|;
            && |packet| == q + 14
            && U16At(packet, 4) == 0 && Counts(packet) == 1
            && StandsAt(packet, HEADER_LEN, Rdata(labels))
            && U16At(packet, q) == TYPE_A && U16At(packet, q + 8) == 4
            && packet[q + 10..q + 14] == ip
  {
    var q := HEADER_LEN + |Rdata(labels)|;
    var front, record := ADDRESS_HEADER + Rdata(labels), ADDRESS + ttl + [0, 4] + ip;
    SliceLeft(front, record, HEADER_LEN, q);
    SliceRight(ADDRESS_HEADER, Rdata(labels), HEADER_LEN, q);
    assert forall k :: 0 <= k < 12 ==> packet[k] == ADDRESS_HEADER[k];
    assert forall k :: 0 <= k < 14 ==> packet[q + k] == record[k];
    assert record[0] == 0 && record[1] == TYPE_A && record[8] == 0 && record[9] == 4;
    assert record[10..14] == ip;
    assert packet[q + 10..q + 14] == record[10..14];
  }

  lemma AddressRecordAt(packet: seq<byte>, q: nat)
    requires SkipName(packet, HEADER_LEN) == Some(q) && |packet| == q + 14
    requires U16At(packet, q) == TYPE_A && U16At(packet, q + 8) == 4
    ensures RecordAt(packet, HEADER_LEN) == Some(Record(HEADER_LEN, TYPE_A, q + 10, 4))
  {
  }

  lemma OneAddress(packet: seq<byte>, from: Ip, r: Record)
    requires |packet| >= HEADER_LEN && U16At(packet, 4) == 0 && Counts(packet) == 1
    requires r.owner == HEADER_LEN && RecordAt(packet, HEADER_LEN) == Some(r) && Names(packet, from, r)
    ensures HostName(packet, from) == DecodeName(packet, HEADER_LEN)
  {
    assert RecordsFrom(packet, r.End(), 0) == ([], true);
    assert [r] + [] == [r];
    assert RecordsFrom(packet, HEADER_LEN, 1) == ([r], true);
    assert RecordsOf(packet) == ([r], true);
    HostNameExactly(packet, from);
  }

  /** A responder that sends its address record, and nothing about its reverse name, is known
      by the record's owner. */
  lemma AddressNamesItsSender(ip: Ip, ttl: seq<byte>, labels: seq<Name>)
    requires |ttl| == 4 && labels != [] && forall k :: 0 <= k < |labels| ==> IsLabel(labels[k])
    requires Presentable(Dotted(labels))
    ensures HostName(AddressReply(ip, ttl, labels), ip) == Some(Dotted(labels))
  {
    var packet, q := AddressReply(ip, ttl, labels), HEADER_LEN + |Rdata(labels)|;
    AddressReads(packet, ip, ttl, labels);
    WrittenDecodes(packet, HEADER_LEN, labels);
    WrittenIsSpelt(packet, HEADER_LEN, labels);
    AddressRecordAt(packet, q);
    OneAddress(packet, ip, Record(HEADER_LEN, TYPE_A, q + 10, 4));
  }
}
