/** What the port table is packed from (scripts/generate_ports.py): one entry per port out
    of two sources, official and curated, and a rank for each port that was counted. */
module PortRegistry {
  import opened Basics
  import opened Bytes
  import opened PackedTable
  import L = PortLookup

  // ---- sorted() -----------------------------------------------------------------------

  function WeightOf(weight: map<nat, nat>, p: nat): nat {
    if p in weight then weight[p] else 0
  }

  /** The sort key (-weight, port). */
  predicate Before(weight: map<nat, nat>, p: nat, q: nat) {
    WeightOf(weight, p) > WeightOf(weight, q) || (WeightOf(weight, p) == WeightOf(weight, q) && p < q)
  }

  predicate Leads(weight: map<nat, nat>, s: set<nat>, p: nat) {
    p in s && forall q :: q in s ==> p == q || Before(weight, p, q)
  }

  lemma {:induction false} SomeoneLeads(weight: map<nat, nat>, s: set<nat>)
    requires s != {}
    ensures exists p :: Leads(weight, s, p)
    decreases |s|
  {
    var x :| x in s;
    if s == {x} {
      assert Leads(weight, s, x);
    } else {
      SomeoneLeads(weight, s - {x});
      var p :| Leads(weight, s - {x}, p);
      var first := if Before(weight, x, p) then x else p;
      assert Leads(weight, s, first) by {
        forall q | q in s ensures first == q || Before(weight, first, q) {
          assert q == x || q in s - {x};
        }
      }
    }
  }

  /** The members of s, greater weight first and ties ascending. */
  function InOrder(weight: map<nat, nat>, s: set<nat>): seq<nat>
    decreases |s|
  {
    if s == {} then []
    else
      SomeoneLeads(weight, s);
      var p :| Leads(weight, s, p);
      [p] + InOrder(weight, s - {p})
  }

  ghost predicate Follows(weight: map<nat, nat>, order: seq<nat>) {
    forall i, j :: 0 <= i < j < |order| ==> Before(weight, order[i], order[j])
  }

  lemma {:induction false} InOrderSorts(weight: map<nat, nat>, s: set<nat>)
    ensures Follows(weight, InOrder(weight, s))
    ensures forall p :: p in InOrder(weight, s) <==> p in s
    decreases |s|
  {
    if s != {} {
      SomeoneLeads(weight, s);
      var p :| Leads(weight, s, p) && InOrder(weight, s) == [p] + InOrder(weight, s - {p});
      InOrderSorts(weight, s - {p});
      var rest := InOrder(weight, s - {p});
      assert forall k :: 0 <= k < |rest| ==> rest[k] in s - {p};
    }
  }

  // ---- merge() ------------------------------------------------------------------------

  /** One registration of a port. */
  datatype Assigned = Assigned(name: string, description: string)

  /** An overlay line; `pick` chooses among the registered names. */
  datatype Curated = Curated(display: string, category: string, pick: string, description: string)

  const UNCURATED := Curated("", "", "", "")

  function FirstNamed(entries: seq<Assigned>, name: string): Option<Assigned> {
    if entries == [] then None
    else if entries[0].name == name then Some(entries[0])
    else FirstNamed(entries[1..], name)
  }

  function Picked(entries: seq<Assigned>, pick: string): Assigned {
    if FirstNamed(entries, pick).Some? then FirstNamed(entries, pick).value
    else if entries != [] then entries[0]
    else Assigned("", "")
  }

  type Registry = map<nat, seq<Assigned>>
  type Overlay = map<nat, Curated>

  function EntriesOf(iana: Registry, port: nat): seq<Assigned> {
    if port in iana then iana[port] else []
  }

  function CuratedOf(overlay: Overlay, port: nat): Curated {
    if port in overlay then overlay[port] else UNCURATED
  }

  function MergedFields(iana: Registry, overlay: Overlay, port: nat): Fields {
    var c := CuratedOf(overlay, port);
    var official := Picked(EntriesOf(iana, port), c.pick);
    Fields(c.display, official.name, if c.description != "" then c.description else official.description, c.category)
  }

  function MergedEntries(iana: Registry, overlay: Overlay, ports: seq<nat>): (es: seq<Entry>)
    ensures |es| == |ports|
  {
    seq(|ports|, i requires 0 <= i < |ports| => Entry(ports[i], MergedFields(iana, overlay, ports[i])))
  }

  function Merged(iana: Registry, overlay: Overlay): seq<Entry> {
    MergedEntries(iana, overlay, InOrder(map[], iana.Keys + overlay.Keys))
  }

  method MergeAll(iana: Registry, overlay: Overlay) returns (merged: seq<Entry>)
    ensures merged == Merged(iana, overlay)
  {
    merged := [];
    var ports := InOrder(map[], iana.Keys + overlay.Keys);
    for i := 0 to |ports|
      invariant merged == MergedEntries(iana, overlay, ports)[..i]
    {
      var Curated(display, category, pick, description) := CuratedOf(overlay, ports[i]);
      var official := Picked(EntriesOf(iana, ports[i]), pick);
      var words := if description != "" then description else official.description;
      merged := merged + [Entry(ports[i], Fields(display, official.name, words, category))];
    }
  }

  ghost predicate HasPort(es: seq<Entry>, p: nat) {
    exists i :: 0 <= i < |es| && es[i].port == p
  }

  /** One entry for every port either source knows, strictly ascending. */
  lemma MergeIsTheUnion(iana: Registry, overlay: Overlay)
    ensures Ascending(Merged(iana, overlay))
    ensures forall p :: HasPort(Merged(iana, overlay), p) <==> p in iana || p in overlay
  {
    var ports := InOrder(map[], iana.Keys + overlay.Keys);
    InOrderSorts(map[], iana.Keys + overlay.Keys);
    var es := Merged(iana, overlay);
    forall i, j | 0 <= i < j < |es| ensures es[i].port < es[j].port {
      assert Before(map[], ports[i], ports[j]);
    }
    forall p ensures HasPort(es, p) <==> p in iana || p in overlay {
      if p in ports {
        var i :| 0 <= i < |ports| && ports[i] == p;
        assert es[i].port == p;
      }
    }
  }

  lemma {:induction false} FirstNamedFinds(entries: seq<Assigned>, name: string)
    ensures var r := FirstNamed(entries, name);
            if r.Some?
            then exists k :: (
                   0 <= k < |entries| && entries[k] == r.value && r.value.name == name
                   && forall j :: 0 <= j < k ==> entries[j].name != name)
            else forall e :: e in entries ==> e.name != name
  {
    if entries != [] && entries[0].name != name {
      FirstNamedFinds(entries[1..], name);
      if FirstNamed(entries, name).Some? {
        var k :| 0 <= k < |entries[1..]| && entries[1..][k] == FirstNamed(entries, name).value
                 && FirstNamed(entries, name).value.name == name
                 && forall j :: 0 <= j < k ==> entries[1..][j].name != name;
        assert entries[k + 1] == entries[1..][k];
        assert forall j :: 0 < j < k + 1 ==> entries[j] == entries[1..][j - 1];
      }
    }
  }

  /** The registration the merge goes by: the first with the picked name, the first of all if
      there is none of that name. */
  ghost predicate GoesBy(entries: seq<Assigned>, pick: string, k: nat) {
    && k < |entries|
    && (if exists e :: e in entries && e.name == pick
        then entries[k].name == pick && forall j :: 0 <= j < k ==> entries[j].name != pick
        else k == 0)
  }

  lemma PickedGoesBy(entries: seq<Assigned>, pick: string) returns (k: nat)
    requires entries != []
    ensures GoesBy(entries, pick, k) && Picked(entries, pick) == entries[k]
  {
    FirstNamedFinds(entries, pick);
    if FirstNamed(entries, pick).Some? {
      k :| 0 <= k < |entries| && entries[k] == FirstNamed(entries, pick).value && entries[k].name == pick
           && forall j :: 0 <= j < k ==> entries[j].name != pick;
      assert entries[k] in entries;
    } else {
      k := 0;
    }
  }

  /** The official name is the registry's own and nobody else's: that of the registration the
      merge goes by, and none for a port without registrations. Its description counts where
      there is no curated one; the curated label and category are taken as they are. */
  lemma OfficialNamesAreOfficial(iana: Registry, overlay: Overlay, port: nat)
    ensures var entries, c, f := EntriesOf(iana, port), CuratedOf(overlay, port), MergedFields(iana, overlay, port);
            && (entries == [] ==> f.iana == "" && f.description == c.description)
            && (entries != [] ==> exists k: nat :: (
                  GoesBy(entries, c.pick, k) && f.iana == entries[k].name
                  && f.description == if c.description != "" then c.description else entries[k].description))
            && (c.description != "" ==> f.description == c.description)
            && f.display == c.display && f.category == c.category
  {
    var entries, c := EntriesOf(iana, port), CuratedOf(overlay, port);
    if entries != [] {
      var k := PickedGoesBy(entries, c.pick);
    }
  }

  /** What the parsers see to: registrations carry a name, and a port only the overlay
      knows carries a label. */
  ghost predicate Parsed(iana: Registry, overlay: Overlay) {
    && (forall p :: p in iana ==> p < TWO_16 && iana[p] != [])
    && (forall p, e :: p in iana && e in iana[p] ==> e.name != "")
    && (forall p :: p in overlay ==> p < TWO_16 && (p !in iana ==> overlay[p].display != ""))
  }

  lemma MergedHasName(iana: Registry, overlay: Overlay, port: nat)
    requires Parsed(iana, overlay) && (port in iana || port in overlay)
    ensures L.ServiceOf(MergedFields(iana, overlay, port)).Some?
  {
    if port in iana {
      var k := PickedGoesBy(iana[port], CuratedOf(overlay, port).pick);
      assert iana[port][k] in iana[port];
    }
  }

  lemma MergedIsFound(iana: Registry, overlay: Overlay, ranks: map<nat, nat>, port: nat)
    requires Packable(Merged(iana, overlay), ranks) && HasPort(Merged(iana, overlay), port)
    ensures L.Lookup(L.PackedTableOf(Merged(iana, overlay), ranks), port)
            == L.ServiceOf(MergedFields(iana, overlay, port))
  {
    var es := Merged(iana, overlay);
    MergeIsTheUnion(iana, overlay);
    var i :| 0 <= i < |es| && es[i].port == port;
    assert es[i].fields == MergedFields(iana, overlay, port);
    L.LookupFindsEveryEntry(es, ranks, i);
  }

  /** So the packed table knows a port exactly when one of the sources does. */
  lemma EveryMergedPortIsFound(iana: Registry, overlay: Overlay, ranks: map<nat, nat>, port: nat)
    requires Parsed(iana, overlay) && Packable(Merged(iana, overlay), ranks)
    ensures L.Lookup(L.PackedTableOf(Merged(iana, overlay), ranks), port).Some?
            <==> port in iana || port in overlay
    ensures (port in iana || port in overlay) ==>
              L.Lookup(L.PackedTableOf(Merged(iana, overlay), ranks), port)
              == L.ServiceOf(MergedFields(iana, overlay, port))
  {
    MergeIsTheUnion(iana, overlay);
    if port in iana || port in overlay {
      assert HasPort(Merged(iana, overlay), port);
      MergedIsFound(iana, overlay, ranks, port);
      MergedHasName(iana, overlay, port);
    } else {
      assert !HasPort(Merged(iana, overlay), port);
      L.LookupFindsNothingElse(Merged(iana, overlay), ranks, port);
    }
  }

  // ---- The ranking of parse_counts() ------------------------------------------------------

  function Kept(order: seq<nat>, known: set<nat>): seq<nat> {
    if order == [] then []
    else Kept(Front(order), known) + if Last(order) in known then [Last(order)] else []
  }

  /** The counted ports the table has a name for, most often open first. */
  function NamedPorts(counts: map<nat, nat>, known: set<nat>): seq<nat> {
    Kept(InOrder(counts, counts.Keys), known)
  }

  /** enumerate(named, 1) as a map. */
  function RanksFrom(named: seq<nat>): map<nat, nat> {
    if named == [] then map[] else RanksFrom(Front(named))[Last(named) := |named|]
  }

  method RankPorts(counts: map<nat, nat>, known: set<nat>)
    returns (ranks: map<nat, nat>, unnamed: seq<nat>)
    ensures ranks == RanksFrom(NamedPorts(counts, known))
    ensures unnamed == NamedPorts(counts, counts.Keys - known)
  {
    var order := InOrder(counts, counts.Keys);
    var named: seq<nat> := [];
    unnamed := [];
    InOrderSorts(counts, counts.Keys);
    for i := 0 to |order|
      invariant named == Kept(order[..i], known) && unnamed == Kept(order[..i], counts.Keys - known)
    {
      assert Front(order[..i + 1]) == order[..i];
      assert order[i] in counts.Keys;
      if order[i] in known {
        named := named + [order[i]];
      } else {
        unnamed := unnamed + [order[i]];
      }
    }
    assert order[..|order|] == order;
    ranks := map[];
    for i := 0 to |named|
      invariant ranks == RanksFrom(named[..i])
    {
      assert Front(named[..i + 1]) == named[..i];
      ranks := ranks[named[i] := i + 1];
    }
    assert named[..|named|] == named;
  }

  lemma {:induction false} KeptFollows(weight: map<nat, nat>, order: seq<nat>, known: set<nat>)
    requires Follows(weight, order)
    ensures Follows(weight, Kept(order, known))
    ensures forall p :: p in Kept(order, known) <==> p in order && p in known
  {
    if order != [] {
      KeptFollows(weight, Front(order), known);
      assert order == Front(order) + [Last(order)];
      forall p | p in Front(order) ensures Before(weight, p, Last(order)) {
        var i :| 0 <= i < |order| - 1 && order[i] == p;
        assert Before(weight, order[i], order[|order| - 1]);
      }
    }
  }

  lemma NamedFollowCounts(counts: map<nat, nat>, known: set<nat>)
    ensures Follows(counts, NamedPorts(counts, known)) && Distinct(NamedPorts(counts, known))
    ensures forall p :: p in NamedPorts(counts, known) <==> p in counts && p in known
  {
    InOrderSorts(counts, counts.Keys);
    KeptFollows(counts, InOrder(counts, counts.Keys), known);
  }

  lemma {:induction false} RankIsPlace(named: seq<nat>)
    requires Distinct(named)
    ensures forall p :: p in RanksFrom(named) <==> p in named
    ensures forall i :: 0 <= i < |named| ==> RanksFrom(named)[named[i]] == i + 1
  {
    if named != [] {
      RankIsPlace(Front(named));
      assert named == Front(named) + [Last(named)];
    }
  }

  lemma {:induction false} RanksSize(named: seq<nat>)
    requires Distinct(named)
    ensures |RanksFrom(named)| == |named|
  {
    if named != [] {
      RanksSize(Front(named));
      RankIsPlace(Front(named));
      assert Last(named) !in Front(named);
      var front := RanksFrom(Front(named));
      assert RanksFrom(named).Keys == front.Keys + {Last(named)};
    }
  }

  lemma PlacesInvert(named: seq<nat>, ranks: map<nat, nat>)
    requires forall p :: p in ranks <==> p in named
    requires forall i :: 0 <= i < |named| ==> ranks[named[i]] == i + 1
    ensures forall p :: p in ranks ==> 1 <= ranks[p] <= |named| && named[ranks[p] - 1] == p
  {
    forall p | p in ranks ensures 1 <= ranks[p] <= |named| && named[ranks[p] - 1] == p {
      var i :| 0 <= i < |named| && named[i] == p;
    }
  }

  lemma PlacesRun(named: seq<nat>)
    requires Distinct(named)
    ensures forall p :: p in RanksFrom(named) ==>
              1 <= RanksFrom(named)[p] <= |named| && named[RanksFrom(named)[p] - 1] == p
    ensures forall k :: 0 <= k < |named| ==> named[k] in RanksFrom(named) && RanksFrom(named)[named[k]] == k + 1
  {
    RankIsPlace(named);
    PlacesInvert(named, RanksFrom(named));
  }

  /** Just the counted ports with a name are ranked, 1 to N without gaps or repeats. */
  lemma RanksRunToN(counts: map<nat, nat>, known: set<nat>)
    ensures var named, ranks := NamedPorts(counts, known), RanksFrom(NamedPorts(counts, known));
            && ranks.Keys == counts.Keys * known
            && |ranks| == |named|
            && (forall p :: p in ranks ==> 1 <= ranks[p] <= |named| && named[ranks[p] - 1] == p)
            && (forall k :: 0 <= k < |named| ==> named[k] in ranks && ranks[named[k]] == k + 1)
  {
    NamedFollowCounts(counts, known);
    RankIsPlace(NamedPorts(counts, known));
    PlacesRun(NamedPorts(counts, known));
    RanksSize(NamedPorts(counts, known));
  }

  /** Of two ports, the one counted on more hosts has the better rank; of two counted
      on as many, the lower. */
  lemma RanksFollowCounts(counts: map<nat, nat>, known: set<nat>, p: nat, q: nat)
    requires p in counts && q in counts && p in known && q in known
    ensures var ranks := RanksFrom(NamedPorts(counts, known));
            p in ranks && q in ranks && (ranks[p] < ranks[q] <==> Before(counts, p, q))
  {
    var named := NamedPorts(counts, known);
    NamedFollowCounts(counts, known);
    RankIsPlace(named);
    var i :| 0 <= i < |named| && named[i] == p;
    var j :| 0 <= j < |named| && named[j] == q;
  }
}
