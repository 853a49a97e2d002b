/** DNS names on the wire, sections 3.5 and 4.1.4 of RFC 1035, as src/core/multicast.zig
    reads and writes them. */
module Dns {
  import opened Basics
  import opened Bytes

  const HEADER_LEN := 12
  const TYPE_A := 1
  const TYPE_PTR := 12
  const MAX_JUMPS := 16
  const NAME_MAX := 256
  const DOT: byte := 46

  type Name = seq<byte>

  // ---- What a name is ------------------------------------------------------------------

  /** Where a compression pointer leads. */
  function Target(hi: byte, lo: byte): nat {
    Word(hi % 64, lo)
  }

  /** The name at `pos` has these labels, and reading it takes this many pointers. */
  ghost predicate Spells(packet: seq<byte>, pos: nat, labels: seq<Name>, jumps: nat)
    decreases jumps, |labels|
  {
    && pos < |packet|
    && var n := packet[pos];
       if n == 0 then labels == [] && jumps == 0
       else if n >= 192 then
         pos + 1 < |packet| && jumps > 0 && Spells(packet, Target(n, packet[pos + 1]), labels, jumps - 1)
       else
         && n < 64 && labels != [] && pos + 1 + n <= |packet|
         && labels[0] == packet[pos + 1..pos + 1 + n]
         && Spells(packet, pos + 1 + n, labels[1..], jumps)
  }

  /** Labels with dots between them, behind what was read before. */
  function Joined(name: Name, labels: seq<Name>): Name
    decreases |labels|
  {
    if labels == [] then name else Joined(Extended(name, labels[0]), labels[1..])
  }

  function Extended(name: Name, piece: Name): Name {
    (if name == [] then [] else name + [DOT]) + piece
  }

  function Dotted(labels: seq<Name>): Name {
    Joined([], labels)
  }

  lemma DottedUnfolds(labels: seq<Name>)
    requires labels != []
    ensures Dotted(labels) == Joined(labels[0], labels[1..])
  {
    assert Extended([], labels[0]) == labels[0];
  }

  predicate Printable(name: Name) {
    forall i :: 0 <= i < |name| ==> 32 <= name[i] <= 126
  }

  /** What may go to a terminal: something, printable, and short enough. */
  predicate Presentable(name: Name) {
    0 < |name| <= NAME_MAX && Printable(name)
  }

  lemma {:induction false} JoinedGrows(name: Name, labels: seq<Name>)
    ensures name <= Joined(name, labels)
    decreases |labels|
  {
    if labels != [] {
      JoinedGrows(Extended(name, labels[0]), labels[1..]);
    }
  }

  // ---- decodeName ------------------------------------------------------------------------

  /** The rest of a name at `pos`, behind what was read so far. */
  function DecodeFrom(packet: seq<byte>, pos: nat, name: Name, jumps: nat): Option<Name>
    requires jumps <= MAX_JUMPS
    decreases MAX_JUMPS - jumps, |packet| - pos
  {
    if pos >= |packet| then None
    else
      var n := packet[pos];
      if n == 0 then if name == [] then None else Some(name)
      else if n >= 192 then
        if pos + 1 >= |packet| || jumps == MAX_JUMPS then None
        else DecodeFrom(packet, Target(n, packet[pos + 1]), name, jumps + 1)
      else if n >= 64 || pos + 1 + n > |packet| then None
      else
        var piece := packet[pos + 1..pos + 1 + n];
        if |Extended(name, piece)| > NAME_MAX || !Printable(piece) then None
        else DecodeFrom(packet, pos + 1 + n, Extended(name, piece), jumps)
  }

  function DecodeName(packet: seq<byte>, start: nat): Option<Name> {
    DecodeFrom(packet, start, [], 0)
  }

  /** A label appended behind a dot, character by character; none if it does not fit or
      has a character no terminal should see. */
  method AppendLabel(out: array<byte>, len: nat, piece: Name) returns (r: Option<nat>)
    requires len <= out.Length && piece != []
    modifies out
    ensures r.Some? <==> |Extended(old(out[..len]), piece)| <= out.Length && Printable(piece)
    ensures r.Some? ==> r.value <= out.Length && out[..r.value] == Extended(old(out[..len]), piece)
  {
    var dot := if len > 0 then 1 else 0;
    if len + dot + |piece| > out.Length { return None; }
    if dot == 1 {
      out[len] := DOT;
    }
    var used := len + dot;
    ghost var front := out[..used];
    for k := 0 to |piece|
      invariant used == |front| + k && used + |piece| - k <= out.Length
      invariant out[..used] == front + piece[..k]
      invariant forall i :: 0 <= i < k ==> 32 <= piece[i] <= 126
    {
      if piece[k] < 32 || piece[k] > 126 { return None; }
      out[used] := piece[k];
      used := used + 1;
    }
    return Some(used);
  }

  /** decodeName as written: one label or pointer a turn, into a buffer of the caller's.
      The turns are bounded by the pointers left, then by the packet. */
  method ReadName(packet: seq<byte>, start: nat, out: array<byte>) returns (len: Option<nat>)
    requires out.Length == NAME_MAX
    modifies out
    ensures len.Some? <==> DecodeName(packet, start).Some?
    ensures len.Some? ==> len.value <= out.Length && out[..len.value] == DecodeName(packet, start).value
  {
    var pos: nat, used: nat, jumps: nat := start, 0, 0;
    while true
      invariant used <= out.Length && jumps <= MAX_JUMPS
      invariant DecodeName(packet, start) == DecodeFrom(packet, pos, out[..used], jumps)
      decreases MAX_JUMPS - jumps, |packet| - pos
    {
      if pos >= |packet| { return None; }
      var n := packet[pos];
      if n == 0 { break; }
      if n >= 192 {
        if pos + 1 >= |packet| || jumps == MAX_JUMPS { return None; }
        jumps := jumps + 1;
        pos := Target(n, packet[pos + 1]);
        continue;
      }
      if n >= 64 || pos + 1 + n > |packet| { return None; }
      var longer := AppendLabel(out, used, packet[pos + 1..pos + 1 + n]);
      if longer == None { return None; }
      used := longer.value;
      pos := pos + 1 + n;
    }
    return if used == 0 then None else Some(used);
  }

  lemma ExtendedPresents(name: Name, piece: Name)
    requires piece != [] && Printable(name)
    ensures Printable(Extended(name, piece)) <==> Printable(piece)
    ensures Extended(name, piece) != []
  {
    var whole := Extended(name, piece);
    var k := |whole| - |piece|;
    if Printable(whole) {
      forall i | 0 <= i < |piece| ensures 32 <= piece[i] <= 126 {
        assert whole[k + i] == piece[i];
      }
    }
  }

  /** Reading never gives anything but a presentable name, spelt in the packet. */
  lemma {:induction false} DecodedIsSpelt(packet: seq<byte>, pos: nat, name: Name, jumps: nat)
    returns (labels: seq<Name>, more: nat)
    requires jumps <= MAX_JUMPS && Printable(name) && |name| <= NAME_MAX
    requires DecodeFrom(packet, pos, name, jumps).Some?
    ensures jumps + more <= MAX_JUMPS && Spells(packet, pos, labels, more)
    ensures DecodeFrom(packet, pos, name, jumps) == Some(Joined(name, labels))
    ensures Presentable(Joined(name, labels))
    decreases MAX_JUMPS - jumps, |packet| - pos
  {
    var n := packet[pos];
    if n == 0 {
      labels, more := [], 0;
    } else if n >= 192 {
      labels, more := DecodedIsSpelt(packet, Target(n, packet[pos + 1]), name, jumps + 1);
      more := more + 1;
    } else {
      var piece := packet[pos + 1..pos + 1 + n];
      ExtendedPresents(name, piece);
      var rest: seq<Name>;
      rest, more := DecodedIsSpelt(packet, pos + 1 + n, Extended(name, piece), jumps);
      labels := [piece] + rest;
      assert labels[1..] == rest;
    }
  }

  /** And every presentable name spelt with few enough pointers is read. */
  lemma {:induction false} SpeltIsDecoded(
    packet: seq<byte>, pos: nat, name: Name, jumps: nat, labels: seq<Name>, more: nat)
    requires jumps + more <= MAX_JUMPS && Spells(packet, pos, labels, more)
    requires Printable(name) && Presentable(Joined(name, labels))
    ensures DecodeFrom(packet, pos, name, jumps) == Some(Joined(name, labels))
    decreases more, |labels|
  {
    var n := packet[pos];
    if n >= 192 {
      SpeltIsDecoded(packet, Target(n, packet[pos + 1]), name, jumps + 1, labels, more - 1);
    } else if n > 0 {
      var next := Extended(name, labels[0]);
      JoinedGrows(next, labels[1..]);
      ExtendedPresents(name, labels[0]);
      assert forall i :: 0 <= i < |next| ==> next[i] == Joined(name, labels)[i];
      SpeltIsDecoded(packet, pos + 1 + n, next, jumps, labels[1..], more);
    }
  }

  /** A position spells one name only. */
  lemma {:induction false} SpellsOneName(
    packet: seq<byte>, pos: nat, a: seq<Name>, i: nat, b: seq<Name>, j: nat)
    requires Spells(packet, pos, a, i) && Spells(packet, pos, b, j)
    ensures a == b && i == j
    decreases i, |a|
  {
    var n := packet[pos];
    if n >= 192 {
      SpellsOneName(packet, Target(n, packet[pos + 1]), a, i - 1, b, j - 1);
    } else if n > 0 {
      SpellsOneName(packet, pos + 1 + n, a[1..], i, b[1..], j);
      assert a == [a[0]] + a[1..] && b == [b[0]] + b[1..];
    }
  }

  ghost predicate SpeltAs(packet: seq<byte>, start: nat, name: Name, labels: seq<Name>, jumps: nat) {
    jumps <= MAX_JUMPS && Spells(packet, start, labels, jumps) && name == Dotted(labels)
  }

  /** decodeName answers exactly when the packet spells, with at most 16 pointers, a name
      that is presentable, and answers that name. */
  lemma DecodesExactlyWhatIsSpelt(packet: seq<byte>, start: nat, name: Name)
    ensures DecodeName(packet, start) == Some(name) <==>
            Presentable(name) && exists labels, jumps :: SpeltAs(packet, start, name, labels, jumps)
  {
    if DecodeName(packet, start) == Some(name) {
      var labels, jumps := DecodedIsSpelt(packet, start, [], 0);
      assert SpeltAs(packet, start, name, labels, jumps);
    }
    if Presentable(name) && exists labels, jumps :: SpeltAs(packet, start, name, labels, jumps) {
      var labels, jumps :| SpeltAs(packet, start, name, labels, jumps);
      SpeltIsDecoded(packet, start, [], 0, labels, jumps);
    }
  }

  // ---- skipName ---------------------------------------------------------------------------

  function SkipName(packet: seq<byte>, pos: nat): (r: Option<nat>)
    ensures r.Some? ==> pos < r.value <= |packet|
    decreases |packet| - pos
  {
    if pos >= |packet| then None
    else
      var n := packet[pos];
      if n == 0 then Some(pos + 1)
      else if n >= 192 then if pos + 2 <= |packet| then Some(pos + 2) else None
      else if n >= 64 then None
      else SkipName(packet, pos + 1 + n)
  }

  method SkipOver(packet: seq<byte>, start: nat) returns (r: Option<nat>)
    ensures r == SkipName(packet, start)
  {
    var pos := start;
    while pos < |packet|
      invariant SkipName(packet, pos) == SkipName(packet, start)
    {
      var n := packet[pos];
      if n == 0 { return Some(pos + 1); }
      if n >= 192 { return if pos + 2 <= |packet| then Some(pos + 2) else None; }
      if n >= 64 { return None; }
      pos := pos + 1 + n;
    }
    return None;
  }

  /** A name that spells anything can be skipped, however many pointers it takes. */
  lemma {:induction false} SpeltIsSkipped(packet: seq<byte>, pos: nat, labels: seq<Name>, jumps: nat)
    requires Spells(packet, pos, labels, jumps)
    ensures SkipName(packet, pos).Some?
    decreases |labels|
  {
    var n := packet[pos];
    if 0 < n < 64 {
      SpeltIsSkipped(packet, pos + 1 + n, labels[1..], jumps);
    }
  }

  // ---- Names written out --------------------------------------------------------------------

  predicate IsLabel(piece: Name) {
    0 < |piece| < 64
  }

  function WireLabel(piece: Name): seq<byte>
    requires IsLabel(piece)
  {
    var n: byte := |piece|;
    [n] + piece
  }

  /** Labels as they go on the wire, without the end. */
  function WireLabels(labels: seq<Name>): seq<byte>
    requires forall k :: 0 <= k < |labels| ==> IsLabel(labels[k])
  {
    if labels == [] then [] else WireLabel(labels[0]) + WireLabels(labels[1..])
  }

  /** The bytes of a written name from `pos` on. */
  ghost predicate StandsAt(packet: seq<byte>, pos: nat, bytes: seq<byte>) {
    pos + |bytes| <= |packet| && packet[pos..pos + |bytes|] == bytes
  }

  lemma StandsSplits(packet: seq<byte>, pos: nat, a: seq<byte>, b: seq<byte>)
    requires StandsAt(packet, pos, a + b)
    ensures StandsAt(packet, pos, a) && StandsAt(packet, pos + |a|, b)
  {
    var both := packet[pos..pos + |a + b|];
    assert packet[pos..pos + |a|] == both[..|a|];
    assert packet[pos + |a|..pos + |a| + |b|] == both[|a|..];
  }

  /** A written name spells its labels, wherever it stands, and skipping it lands right
      behind it. */
  lemma {:induction false} WrittenIsSpelt(packet: seq<byte>, pos: nat, labels: seq<Name>)
    requires forall k :: 0 <= k < |labels| ==> IsLabel(labels[k])
    requires StandsAt(packet, pos, WireLabels(labels) + [0])
    ensures Spells(packet, pos, labels, 0)
    ensures SkipName(packet, pos) == Some(pos + |WireLabels(labels)| + 1)
    decreases |labels|
  {
    StandsSplits(packet, pos, WireLabels(labels), [0]);
    if labels == [] {
      assert packet[pos..pos + 1][0] == packet[pos];
    } else {
      var first, rest := WireLabel(labels[0]), WireLabels(labels[1..]);
      assert WireLabels(labels) + [0] == first + (rest + [0]);
      StandsSplits(packet, pos, first, rest + [0]);
      WrittenIsSpelt(packet, pos + |first|, labels[1..]);
      LabelStands(packet, pos, labels[0]);
    }
  }

  lemma LabelStands(packet: seq<byte>, pos: nat, piece: Name)
    requires IsLabel(piece) && StandsAt(packet, pos, WireLabel(piece))
    ensures packet[pos] == |piece| && packet[pos + 1..pos + 1 + |piece|] == piece
  {
    var stands := packet[pos..pos + |WireLabel(piece)|];
    assert stands[0] == packet[pos] && stands[1..] == packet[pos + 1..pos + 1 + |piece|];
  }

  /** Labels, and right behind them a zero byte or a pointer, end here. */
  ghost predicate EndsBehind(packet: seq<byte>, pos: nat, labels: seq<Name>, end: nat) {
    && (forall k :: 0 <= k < |labels| ==> IsLabel(labels[k]))
    && StandsAt(packet, pos, WireLabels(labels))
    && var stop := pos + |WireLabels(labels)|;
       && stop < |packet|
       && ((packet[stop] == 0 && end == stop + 1) || (packet[stop] >= 192 && end == stop + 2 <= |packet|))
  }

  lemma {:induction false} SkippedEnds(packet: seq<byte>, pos: nat, end: nat) returns (labels: seq<Name>)
    requires SkipName(packet, pos) == Some(end)
    ensures EndsBehind(packet, pos, labels, end)
    decreases |packet| - pos
  {
    var n := packet[pos];
    if n == 0 || n >= 192 {
      labels := [];
    } else {
      var piece := packet[pos + 1..pos + 1 + n];
      var rest := SkippedEnds(packet, pos + 1 + n, end);
      labels := [piece] + rest;
      assert labels[1..] == rest;
      assert packet[pos..pos + 1 + n] == WireLabel(piece);
      StandsJoins(packet, pos, WireLabel(piece), WireLabels(rest));
    }
  }

  lemma StandsJoins(packet: seq<byte>, pos: nat, a: seq<byte>, b: seq<byte>)
    requires StandsAt(packet, pos, a) && StandsAt(packet, pos + |a|, b)
    ensures StandsAt(packet, pos, a + b)
  {
    assert packet[pos..pos + |a + b|] == packet[pos..pos + |a|] + packet[pos + |a|..pos + |a| + |b|];
  }

  lemma {:induction false} EndIsSkippedTo(packet: seq<byte>, pos: nat, labels: seq<Name>, end: nat)
    requires EndsBehind(packet, pos, labels, end)
    ensures SkipName(packet, pos) == Some(end)
    decreases |labels|
  {
    if labels != [] {
      var first, rest := WireLabel(labels[0]), WireLabels(labels[1..]);
      StandsSplits(packet, pos, first, rest);
      LabelStands(packet, pos, labels[0]);
      EndIsSkippedTo(packet, pos + |first|, labels[1..], end);
    }
  }

  /** skipName, exactly: it lands behind the zero byte or the pointer that follows a run of
      labels, and nowhere if there is no such thing. */
  lemma SkipsExactly(packet: seq<byte>, pos: nat, end: nat)
    ensures SkipName(packet, pos) == Some(end) <==> exists labels :: EndsBehind(packet, pos, labels, end)
  {
    if SkipName(packet, pos) == Some(end) {
      var labels := SkippedEnds(packet, pos, end);
    }
    if labels :| EndsBehind(packet, pos, labels, end) {
      EndIsSkippedTo(packet, pos, labels, end);
    }
  }
}
