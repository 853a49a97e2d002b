/** by_rank of src/core/ports.zig: the ranked ports in the order scans try them, built
    and checked at compile time. */
module RankOrder {
  import opened Basics
  import L = PortLookup

  /** What one record says of itself: its port, and its rank or 0. */
  datatype Key = Key(port: nat, rank: nat)

  function KeysOf(t: L.Table): (keys: seq<Key>)
    requires L.WellFormed(t)
    ensures |keys| == t.count
    ensures forall i :: 0 <= i < t.count ==> keys[i] == Key(L.PortAt(t, i), L.RankAt(t, i))
  {
    seq(t.count, i requires 0 <= i < t.count => Key(L.PortAt(t, i), L.RankAt(t, i)))
  }

  /** The ports that have a rank, in table order. */
  function RankedPorts(keys: seq<Key>): seq<nat> {
    if keys == [] then []
    else if Last(keys).rank == 0 then RankedPorts(Front(keys))
    else RankedPorts(Front(keys)) + [Last(keys).port]
  }

  function Zeroes(n: nat): (z: seq<nat>)
    ensures |z| == n && forall k :: 0 <= k < n ==> z[k] == 0
  {
    if n == 0 then [] else [0] + Zeroes(n - 1)
  }

  /** A record's port goes to the slot of its rank; none once the check has stopped the
      build. A slot holding 0 passes for an empty one. */
  function Place(before: Option<seq<nat>>, key: Key): (r: Option<seq<nat>>)
    ensures r.Some? ==> before.Some? && |r.value| == |before.value|
  {
    if before == None || key.rank == 0 then before
    else if key.rank > |before.value| || before.value[key.rank - 1] != 0 then None
    else Some(before.value[key.rank - 1 := key.port])
  }

  /** The order with n slots after these records. */
  function Filled(n: nat, keys: seq<Key>): (r: Option<seq<nat>>)
    ensures r.Some? ==> |r.value| == n
  {
    if keys == [] then Some(Zeroes(n)) else Place(Filled(n, Front(keys)), Last(keys))
  }

  lemma FilledStep(n: nat, keys: seq<Key>, i: nat)
    requires i < |keys|
    ensures Filled(n, keys[..i + 1]) == Place(Filled(n, keys[..i]), keys[i])
  {
    assert Front(keys[..i + 1]) == keys[..i];
  }

  function ByRank(keys: seq<Key>): Option<seq<nat>> {
    Filled(|RankedPorts(keys)|, keys)
  }

  lemma {:induction false} StaysStopped(n: nat, keys: seq<Key>, i: nat)
    requires i <= |keys| && Filled(n, keys[..i]) == None
    ensures Filled(n, keys) == None
    decreases |keys|
  {
    if i < |keys| {
      assert Front(keys)[..i] == keys[..i];
      StaysStopped(n, Front(keys), i);
    } else {
      assert keys[..i] == keys;
    }
  }

  method CountRanked(t: L.Table) returns (count: nat)
    requires L.WellFormed(t)
    ensures count == |RankedPorts(KeysOf(t))|
  {
    ghost var keys := KeysOf(t);
    count := 0;
    for i := 0 to t.count
      invariant count == |RankedPorts(keys[..i])|
    {
      assert Front(keys[..i + 1]) == keys[..i];
      if L.RankAt(t, i) != 0 {
        count := count + 1;
      }
    }
    assert keys[..t.count] == keys;
  }

  method PlaceOne(order: array<nat>, key: Key) returns (ok: bool)
    modifies order
    ensures Place(Some(old(order[..])), key) == if ok then Some(order[..]) else None
  {
    if key.rank == 0 { return true; }
    if key.rank > order.Length || order[key.rank - 1] != 0 { return false; }
    ghost var before := order[..];
    order[key.rank - 1] := key.port;
    assert order[..] == before[key.rank - 1 := key.port];
    return true;
  }

  /** The compile-time block as written. */
  method BuildByRank(t: L.Table) returns (r: Option<seq<nat>>)
    requires L.WellFormed(t)
    ensures r == ByRank(KeysOf(t))
  {
    var keys := KeysOf(t);
    var count := CountRanked(t);
    var order := new nat[count](_ => 0);
    assert order[..] == Zeroes(count);
    for i := 0 to t.count
      invariant Filled(count, keys[..i]) == Some(order[..])
    {
      FilledStep(count, keys, i);
      var ok := PlaceOne(order, keys[i]);
      if !ok {
        StaysStopped(count, keys, i + 1);
        return None;
      }
    }
    assert keys[..t.count] == keys;
    return Some(order[..]);
  }

  // ---- A table that passes ------------------------------------------------------------------

  lemma {:induction false} CountUpdate(s: seq<nat>, k: nat, v: nat, x: nat)
    requires k < |s|
    ensures Count(s[k := v], x) + (if s[k] == x then 1 else 0) == Count(s, x) + (if v == x then 1 else 0)
  {
    if k > 0 {
      assert s[k := v][1..] == s[1..][k - 1 := v];
      CountUpdate(s[1..], k - 1, v, x);
    } else {
      assert s[k := v][1..] == s[1..];
    }
  }

  lemma {:induction false} ZeroesCount(n: nat, x: nat)
    ensures Count(Zeroes(n), x) == if x == 0 then n else 0
  {
    if n > 0 {
      ZeroesCount(n - 1, x);
    }
  }

  /** Every ranked port so far has a slot of its own; the slots left hold 0. */
  lemma {:induction false} SlotsCount(n: nat, keys: seq<Key>, p: nat)
    requires Filled(n, keys).Some?
    ensures Count(Filled(n, keys).value, p) + (if p == 0 then |RankedPorts(keys)| else 0)
            == Count(RankedPorts(keys), p) + (if p == 0 then n else 0)
  {
    if keys == [] {
      ZeroesCount(n, p);
    } else {
      SlotsCount(n, Front(keys), p);
      var before, last := Filled(n, Front(keys)).value, Last(keys);
      if last.rank != 0 {
        assert Filled(n, keys).value == before[last.rank - 1 := last.port];
        assert RankedPorts(keys) == RankedPorts(Front(keys)) + [last.port];
        CountUpdate(before, last.rank - 1, last.port, p);
        CountAppend(RankedPorts(Front(keys)), last.port, p);
      }
    }
  }

  /** A table that passes the check gives the ranked ports, each as often as the table
      has it: no slot stays empty and no port is lost or made up. */
  lemma PassingMeansPermuted(keys: seq<Key>, p: nat)
    requires ByRank(keys).Some?
    ensures |ByRank(keys).value| == |RankedPorts(keys)|
    ensures Count(ByRank(keys).value, p) == Count(RankedPorts(keys), p)
  {
    SlotsCount(|RankedPorts(keys)|, keys, p);
  }

  /** Ports strictly ascending. */
  ghost predicate Sorted(keys: seq<Key>) {
    forall i, j :: 0 <= i < j < |keys| ==> keys[i].port < keys[j].port
  }

  ghost predicate RankedAt(keys: seq<Key>, j: int) {
    0 <= j < |keys| && keys[j].rank != 0
  }

  lemma {:induction false} RankedPortsAre(keys: seq<Key>, p: nat)
    ensures p in RankedPorts(keys) <==> exists j :: RankedAt(keys, j) && keys[j].port == p
  {
    if keys != [] {
      RankedPortsAre(Front(keys), p);
      if j :| RankedAt(keys, j) && keys[j].port == p {
        assert j < |keys| - 1 ==> RankedAt(Front(keys), j);
      }
      if j :| RankedAt(Front(keys), j) && Front(keys)[j].port == p {
        assert RankedAt(keys, j);
      }
      if Last(keys).rank != 0 {
        assert RankedAt(keys, |keys| - 1);
      }
    }
  }

  lemma {:induction false} RankedPortsOnce(keys: seq<Key>, p: nat)
    requires Sorted(keys)
    ensures Count(RankedPorts(keys), p) <= 1
  {
    if keys != [] {
      RankedPortsOnce(Front(keys), p);
      if Last(keys).rank != 0 {
        assert RankedPorts(keys) == RankedPorts(Front(keys)) + [Last(keys).port];
        CountAppend(RankedPorts(Front(keys)), Last(keys).port, p);
        CountIn(RankedPorts(Front(keys)), p);
        RankedPortsAre(Front(keys), p);
      }
    }
  }

  /** In a sorted table that passes nothing is listed twice. */
  lemma PassingMeansDistinct(keys: seq<Key>)
    requires Sorted(keys) && ByRank(keys).Some?
    ensures Distinct(ByRank(keys).value)
  {
    forall p: nat ensures Count(ByRank(keys).value, p) <= 1 {
      PassingMeansPermuted(keys, p);
      RankedPortsOnce(keys, p);
    }
    DistinctFromCounts(ByRank(keys).value);
  }

  /** And a port looks up a rank of 0 exactly when it is not listed, so skipping the
      ranked ports and skipping the listed ones is the same thing. */
  lemma RankZeroMeansUnlisted(t: L.Table, p: nat)
    requires L.WellFormed(t) && L.Sorted(t) && ByRank(KeysOf(t)).Some?
    ensures L.Rank(t, p) == 0 <==> p !in ByRank(KeysOf(t)).value
  {
    var keys := KeysOf(t);
    PassingMeansPermuted(keys, p);
    CountIn(ByRank(keys).value, p);
    CountIn(RankedPorts(keys), p);
    RankedPortsAre(keys, p);
    RankLooksUp(t, p);
  }

  lemma RankLooksUp(t: L.Table, p: nat)
    requires L.WellFormed(t) && L.Sorted(t)
    ensures L.Rank(t, p) != 0 <==> exists j :: RankedAt(KeysOf(t), j) && KeysOf(t)[j].port == p
  {
    var keys := KeysOf(t);
    L.FoundIsThere(t, p);
    if L.Rank(t, p) != 0 {
      assert RankedAt(keys, L.Find(t, p).value);
    }
    if j :| RankedAt(keys, j) && keys[j].port == p {
      L.FindsWhatIsThere(t, j);
    }
  }

  // ---- What the check checks ------------------------------------------------------------------

  lemma {:induction false} RanksFit(n: nat, keys: seq<Key>)
    requires Filled(n, keys).Some?
    ensures forall j :: RankedAt(keys, j) ==> keys[j].rank <= n
  {
    if keys != [] {
      RanksFit(n, Front(keys));
      forall j | RankedAt(keys, j) ensures keys[j].rank <= n {
        assert j < |keys| - 1 ==> RankedAt(Front(keys), j);
      }
    }
  }

  /** No port but 0 loses its slot. */
  lemma {:induction false} PortsKeepTheirSlot(n: nat, keys: seq<Key>, j: nat)
    requires Filled(n, keys).Some? && RankedAt(keys, j) && keys[j].port != 0
    ensures keys[j].rank <= n && Filled(n, keys).value[keys[j].rank - 1] == keys[j].port
  {
    if j < |keys| - 1 {
      assert RankedAt(Front(keys), j);
      PortsKeepTheirSlot(n, Front(keys), j);
    }
  }

  /** What is in a slot got there by its rank. */
  lemma {:induction false} SlotsHoldTheirRank(n: nat, keys: seq<Key>, k: nat) returns (j: nat)
    requires Filled(n, keys).Some? && k < n && Filled(n, keys).value[k] != 0
    ensures RankedAt(keys, j) && keys[j].rank == k + 1 && keys[j].port == Filled(n, keys).value[k]
  {
    if Last(keys).rank == k + 1 {
      j := |keys| - 1;
    } else {
      j := SlotsHoldTheirRank(n, Front(keys), k);
    }
  }

  /** Two records share a rank, and the first of them has a port other than 0. */
  ghost predicate Clash(keys: seq<Key>, j: int, k: int) {
    j < k && RankedAt(keys, j) && RankedAt(keys, k) && keys[j].rank == keys[k].rank && keys[j].port != 0
  }

  lemma {:induction false} StopsOnlyOn(n: nat, keys: seq<Key>)
    requires Filled(n, keys) == None
    ensures (exists j :: RankedAt(keys, j) && keys[j].rank > n) || exists j, k :: Clash(keys, j, k)
  {
    var before, last := Filled(n, Front(keys)), Last(keys);
    if before == None {
      StopsOnlyOn(n, Front(keys));
      if j :| RankedAt(Front(keys), j) && Front(keys)[j].rank > n {
        assert RankedAt(keys, j);
      } else {
        var j, k :| Clash(Front(keys), j, k);
        assert Clash(keys, j, k);
      }
    } else {
      assert RankedAt(keys, |keys| - 1);
      if last.rank <= n {
        var j := SlotsHoldTheirRank(n, Front(keys), last.rank - 1);
        assert Clash(keys, j, |keys| - 1);
      }
    }
  }

  lemma ClashStops(n: nat, keys: seq<Key>, j: nat, k: nat)
    requires Clash(keys, j, k)
    ensures Filled(n, keys) == None
  {
    assert Front(keys[..k + 1]) == keys[..k];
    if Filled(n, keys[..k]).Some? {
      PortsKeepTheirSlot(n, keys[..k], j);
    }
    StaysStopped(n, keys, k + 1);
  }

  /** The build passes exactly when no rank is beyond the number of ranked records and
      no two records share a rank, the first of them having a port other than 0. */
  lemma CheckExactly(keys: seq<Key>)
    ensures ByRank(keys).Some? <==>
            && (forall j :: RankedAt(keys, j) ==> keys[j].rank <= |RankedPorts(keys)|)
            && (forall j, k :: !Clash(keys, j, k))
  {
    if ByRank(keys).Some? {
      RanksFit(|RankedPorts(keys)|, keys);
      forall j, k ensures !Clash(keys, j, k) {
        if Clash(keys, j, k) {
          ClashStops(|RankedPorts(keys)|, keys, j, k);
        }
      }
    } else {
      StopsOnlyOn(|RankedPorts(keys)|, keys);
    }
  }

  /** What the check promises: ranks run 1 to N without gaps or repeats, each port at
      the slot of its rank. */
  ghost predicate InPlace(keys: seq<Key>)
    requires ByRank(keys).Some?
  {
    forall j :: RankedAt(keys, j) ==>
      keys[j].rank <= |RankedPorts(keys)| && ByRank(keys).value[keys[j].rank - 1] == keys[j].port
  }

  ghost predicate SharesRankOfPortZero(keys: seq<Key>, k: int) {
    0 < k && RankedAt(keys, 0) && RankedAt(keys, k) && keys[0].port == 0 && keys[0].rank == keys[k].rank
  }

  lemma {:induction false} PortsGrow(keys: seq<Key>, j: nat)
    requires Sorted(keys) && j < |keys|
    ensures keys[j].port >= j
  {
    if j > 0 {
      PortsGrow(keys, j - 1);
    }
  }

  /** A sorted table that passes keeps the promise exactly when port 0, which can only
      be its first record, does not share its rank with another. */
  lemma InPlaceExactly(keys: seq<Key>)
    requires Sorted(keys) && ByRank(keys).Some?
    ensures InPlace(keys) <==> forall k :: !SharesRankOfPortZero(keys, k)
  {
    var order := ByRank(keys).value;
    RanksFit(|order|, keys);
    if !InPlace(keys) {
      var j :| RankedAt(keys, j) && order[keys[j].rank - 1] != keys[j].port;
      if keys[j].port != 0 {
        PortsKeepTheirSlot(|order|, keys, j);
      }
      PortsGrow(keys, j);
      var k := SlotsHoldTheirRank(|order|, keys, keys[0].rank - 1);
      assert SharesRankOfPortZero(keys, k);
    }
    if k :| SharesRankOfPortZero(keys, k) {
      assert keys[0].port < keys[k].port;
      PortsKeepTheirSlot(|order|, keys, k);
      assert !InPlace(keys);
    }
  }

  /** And one can: ports 0 and 1, both ranked first, pass, and port 0 then stands for
      the rank nobody has. */
  lemma RepeatAtPortZeroPasses()
    ensures var keys := [Key(0, 1), Key(1, 1)];
            Sorted(keys) && ByRank(keys) == Some([1, 0]) && !InPlace(keys)
  {
    var keys := [Key(0, 1), Key(1, 1)];
    assert Front(keys) == [Key(0, 1)] && Front(Front(keys)) == [];
    assert Zeroes(2) == [0, 0];
    assert Filled(2, Front(Front(keys))) == Some([0, 0]);
    assert Filled(2, Front(keys)) == Some([0, 0][0 := 0]);
    assert [0, 0][0 := 0][0 := 1] == [1, 0];
    assert Filled(2, keys) == Some([1, 0]);
    assert RankedPorts(Front(keys)) == [0];
    assert RankedPorts(keys) == [0, 1];
    assert RankedAt(keys, 0);
  }
}
