/** From measured counts to the order of a scan: the ranks scripts/generate_ports.py
    packs pass the check of src/core/ports.zig and come back in the order the counts
    put them, which is the order src/core/scanner.zig tries ports in. */
module PackedRanks {
  import opened Basics
  import opened Bytes
  import opened PackedTable
  import L = PortLookup
  import G = PortRegistry
  import R = RankOrder
  import S = PortScan

  function KeysFor(es: seq<Entry>, ranks: map<nat, nat>): (keys: seq<R.Key>)
    ensures |keys| == |es|
    ensures forall i :: 0 <= i < |es| ==> keys[i] == R.Key(es[i].port, RankOf(ranks, es[i].port))
  {
    seq(|es|, i requires 0 <= i < |es| => R.Key(es[i].port, RankOf(ranks, es[i].port)))
  }

  lemma PackedKeys(es: seq<Entry>, ranks: map<nat, nat>)
    requires Packable(es, ranks)
    ensures R.KeysOf(L.PackedTableOf(es, ranks)) == KeysFor(es, ranks)
  {
    var t := L.PackedTableOf(es, ranks);
    forall i | 0 <= i < |es| ensures R.KeysOf(t)[i] == KeysFor(es, ranks)[i] {
      L.PackedKeyReads(es, ranks, i);
    }
  }

  // ---- The ranks fit and pass -----------------------------------------------------------

  ghost function Members(s: seq<nat>): set<nat> {
    set x | x in s
  }

  lemma {:induction false} DistinctSize(s: seq<nat>)
    requires Distinct(s)
    ensures |Members(s)| == |s|
  {
    if s == [] {
      assert Members(s) == {};
    } else {
      DistinctSize(Front(s));
      assert s == Front(s) + [Last(s)];
      assert Last(s) !in Members(Front(s));
      assert Members(s) == Members(Front(s)) + {Last(s)};
    }
  }

  lemma SameMembersSameLength(a: seq<nat>, b: seq<nat>)
    requires Distinct(a) && Distinct(b) && forall x :: x in a <==> x in b
    ensures |a| == |b|
  {
    DistinctSize(a);
    DistinctSize(b);
    assert Members(a) == Members(b);
  }

  /** Ports from 1 on, each once, are fewer than 2^16: every rank fits its field. */
  lemma FewerThanPorts(named: seq<nat>)
    requires Distinct(named) && forall p :: p in named ==> 0 < p < TWO_16
    ensures |named| < TWO_16
  {
    forall x: nat ensures Count(named, x) <= 1 && (x >= TWO_16 || x == 0 ==> Count(named, x) == 0) {
      DistinctCounts(named, x);
      CountIn(named, x);
    }
    assert Count(named, 0) == 0;
    Pigeonhole(named, TWO_16);
  }

  lemma RankedKeysAre(es: seq<Entry>, named: seq<nat>, p: nat)
    requires Ascending(es) && Distinct(named)
    requires forall q :: q in named ==> G.HasPort(es, q)
    ensures p in R.RankedPorts(KeysFor(es, G.RanksFrom(named))) <==> p in named
  {
    var keys := KeysFor(es, G.RanksFrom(named));
    G.PlacesRun(named);
    G.RankIsPlace(named);
    R.RankedPortsAre(keys, p);
    if p in named {
      var i :| 0 <= i < |es| && es[i].port == p;
      assert R.RankedAt(keys, i);
    }
  }

  lemma AsManyAsNamed(es: seq<Entry>, named: seq<nat>)
    requires Ascending(es) && Distinct(named)
    requires forall q :: q in named ==> G.HasPort(es, q)
    ensures |R.RankedPorts(KeysFor(es, G.RanksFrom(named)))| == |named|
  {
    var ranked := R.RankedPorts(KeysFor(es, G.RanksFrom(named)));
    forall p: nat ensures Count(ranked, p) <= 1 && (p in ranked <==> p in named) {
      R.RankedPortsOnce(KeysFor(es, G.RanksFrom(named)), p);
      RankedKeysAre(es, named, p);
    }
    DistinctFromCounts(ranked);
    SameMembersSameLength(ranked, named);
  }

  lemma PlacesMakeRanks(es: seq<Entry>, named: seq<nat>, j: nat)
    requires Distinct(named) && R.RankedAt(KeysFor(es, G.RanksFrom(named)), j)
    ensures var key := KeysFor(es, G.RanksFrom(named))[j];
            1 <= key.rank <= |named| && named[key.rank - 1] == key.port
  {
    G.PlacesRun(named);
  }

  lemma EachIsRanked(es: seq<Entry>, named: seq<nat>, i: nat) returns (j: nat)
    requires Distinct(named) && i < |named| && G.HasPort(es, named[i])
    ensures R.RankedAt(KeysFor(es, G.RanksFrom(named)), j)
    ensures KeysFor(es, G.RanksFrom(named))[j] == R.Key(named[i], i + 1)
  {
    G.RankIsPlace(named);
    j :| 0 <= j < |es| && es[j].port == named[i];
  }

  lemma RanksTellPorts(es: seq<Entry>, named: seq<nat>, j: nat, k: nat)
    requires Distinct(named)
    requires R.RankedAt(KeysFor(es, G.RanksFrom(named)), j) && R.RankedAt(KeysFor(es, G.RanksFrom(named)), k)
    requires KeysFor(es, G.RanksFrom(named))[j].rank == KeysFor(es, G.RanksFrom(named))[k].rank
    ensures es[j].port == es[k].port
  {
    PlacesMakeRanks(es, named, j);
    PlacesMakeRanks(es, named, k);
  }

  lemma NothingClashes(es: seq<Entry>, named: seq<nat>, j: int, k: int)
    requires Ascending(es) && Distinct(named)
    ensures !R.Clash(KeysFor(es, G.RanksFrom(named)), j, k)
  {
    if R.Clash(KeysFor(es, G.RanksFrom(named)), j, k) {
      RanksTellPorts(es, named, j, k);
      assert false;
    }
  }

  /** Ranks that count through a list of ports never trip the check, and what the
      check builds is that list. */
  lemma RanksPass(es: seq<Entry>, named: seq<nat>)
    requires Ascending(es) && Distinct(named) && 0 !in named
    requires forall q :: q in named ==> G.HasPort(es, q)
    ensures R.ByRank(KeysFor(es, G.RanksFrom(named))) == Some(named)
  {
    var keys := KeysFor(es, G.RanksFrom(named));
    AsManyAsNamed(es, named);
    forall j | R.RankedAt(keys, j) ensures keys[j].rank <= |named| {
      PlacesMakeRanks(es, named, j);
    }
    forall j, k ensures !R.Clash(keys, j, k) {
      NothingClashes(es, named, j, k);
    }
    R.CheckExactly(keys);
    var order := R.ByRank(keys).value;
    forall i | 0 <= i < |named| ensures order[i] == named[i] {
      assert named[i] in named;
      var j := EachIsRanked(es, named, i);
      R.PortsKeepTheirSlot(|named|, keys, j);
    }
    assert order == named;
  }

  // ---- From the sources to the scan -------------------------------------------------------

  lemma {:induction false} AscendingGrows(es: seq<Entry>, i: nat)
    requires Ascending(es) && i < |es|
    ensures es[i].port >= i
  {
    if i > 0 {
      AscendingGrows(es, i - 1);
    }
  }

  /** The ranks of parse_counts: measured ports are 1 to 65535. */
  ghost predicate Measured(counts: map<nat, nat>) {
    forall p :: p in counts ==> 0 < p < TWO_16
  }

  function Known(iana: G.Registry, overlay: G.Overlay): set<nat> {
    iana.Keys + overlay.Keys
  }

  function Ranks(iana: G.Registry, overlay: G.Overlay, counts: map<nat, nat>): map<nat, nat> {
    G.RanksFrom(G.NamedPorts(counts, Known(iana, overlay)))
  }

  lemma SourcesPack(iana: G.Registry, overlay: G.Overlay, counts: map<nat, nat>)
    requires G.Parsed(iana, overlay) && Measured(counts)
    ensures Packable(G.Merged(iana, overlay), Ranks(iana, overlay, counts))
  {
    var es, named := G.Merged(iana, overlay), G.NamedPorts(counts, Known(iana, overlay));
    G.MergeIsTheUnion(iana, overlay);
    G.NamedFollowCounts(counts, Known(iana, overlay));
    FewerThanPorts(named);
    G.PlacesRun(named);
    forall i | 0 <= i < |es| ensures es[i].port < TWO_16 {
      assert G.HasPort(es, es[i].port);
    }
    if es != [] {
      AscendingGrows(es, |es| - 1);
    }
  }

  /** Whatever the registry, the overlay and the counts, the table made of them opens,
      its ranks pass the check, and by_rank lists the counted ports that have a name,
      most often open first. */
  lemma TheTableLists(iana: G.Registry, overlay: G.Overlay, counts: map<nat, nat>)
    requires G.Parsed(iana, overlay) && Measured(counts)
    ensures Packable(G.Merged(iana, overlay), Ranks(iana, overlay, counts))
    ensures var t := L.PackedTableOf(G.Merged(iana, overlay), Ranks(iana, overlay, counts));
            && L.Open(Pack(G.Merged(iana, overlay), Ranks(iana, overlay, counts)), MAGIC, VERSION, RECORD_SIZE)
               == L.Opened.Table(t)
            && R.ByRank(R.KeysOf(t)) == Some(G.NamedPorts(counts, Known(iana, overlay)))
  {
    var es, named := G.Merged(iana, overlay), G.NamedPorts(counts, Known(iana, overlay));
    SourcesPack(iana, overlay, counts);
    L.PackedOpens(es, Ranks(iana, overlay, counts));
    PackedKeys(es, Ranks(iana, overlay, counts));
    G.MergeIsTheUnion(iana, overlay);
    G.NamedFollowCounts(counts, Known(iana, overlay));
    RanksPass(es, named);
  }

  /** p is tried before q: the better ranked of two ranked ports, any ranked port before
      any other, and the others by number. */
  ghost predicate TriedBefore(counts: map<nat, nat>, ranked: seq<nat>, p: nat, q: nat) {
    if p in ranked && q in ranked then G.Before(counts, p, q)
    else if p in ranked || q in ranked then p in ranked
    else p < q
  }

  lemma {:induction false} RankedFromFollows(
    counts: map<nat, nat>, ranked: seq<nat>, from: nat, lo: nat, hi: nat)
    requires G.Follows(counts, ranked) && from <= |ranked|
    ensures G.Follows(counts, S.RankedFrom(ranked, from, lo, hi))
    ensures forall p :: p in S.RankedFrom(ranked, from, lo, hi) ==> exists i :: from <= i < |ranked| && ranked[i] == p
    decreases |ranked| - from
  {
    if from < |ranked| {
      RankedFromFollows(counts, ranked, from + 1, lo, hi);
      var rest := S.RankedFrom(ranked, from + 1, lo, hi);
      forall k | 0 <= k < |rest| ensures G.Before(counts, ranked[from], rest[k]) {
        assert rest[k] in rest;
        var i :| from + 1 <= i < |ranked| && ranked[i] == rest[k];
      }
    }
  }

  lemma {:induction false} RestFromAscends(ranked: seq<nat>, from: nat, hi: nat)
    ensures forall p :: p in S.RestFrom(ranked, from, hi) ==> p !in ranked && p >= from
    ensures forall i, j :: 0 <= i < j < |S.RestFrom(ranked, from, hi)| ==>
              S.RestFrom(ranked, from, hi)[i] < S.RestFrom(ranked, from, hi)[j]
    decreases hi + 1 - from
  {
    if from <= hi {
      RestFromAscends(ranked, from + 1, hi);
      var rest := S.RestFrom(ranked, from + 1, hi);
      assert forall k :: 0 <= k < |rest| ==> rest[k] in rest;
    }
  }

  /** The first pass of a scan tries ports in that order. */
  lemma FirstPassFollowsCounts(
    counts: map<nat, nat>, known: set<nat>, s: S.ScanState, i: nat, j: nat)
    requires s.ranked == G.NamedPorts(counts, known) && s.nextRanked == 0 && s.nextPort == s.start
    requires i < j < |s.Remaining()|
    ensures TriedBefore(counts, s.ranked, s.Remaining()[i], s.Remaining()[j])
  {
    G.NamedFollowCounts(counts, known);
    RankedFromFollows(counts, s.ranked, 0, s.start, s.end);
    RestFromAscends(s.ranked, s.start, s.end);
    var a, b := S.RankedFrom(s.ranked, 0, s.start, s.end), S.RestFrom(s.ranked, s.start, s.end);
    assert s.Remaining() == a + b;
    if j < |a| {
      assert a[i] in a && a[j] in a;
    } else if i < |a| {
      assert a[i] in a && b[j - |a|] in b;
    } else {
      assert b[i - |a|] in b && b[j - |a|] in b;
    }
  }
}
