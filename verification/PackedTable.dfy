/** The embedded port table: how scripts/generate_ports.py packs it, how
    src/core/packed_db.zig checks and opens it, and how src/core/ports.zig looks a
    port up. */
module PackedTable {
  import opened Basics
  import opened Bytes
  import U = Utf8

  const HEADER_SIZE := 24
  const RECORD_SIZE := 20
  const MAGIC: seq<byte> := [78, 83, 80, 84]  // "NSPT"
  const VERSION := 1

  /** What the table knows of one port, in the order it is packed. */
  datatype Fields = Fields(display: string, iana: string, description: string, category: string)

  datatype Entry = Entry(port: nat, fields: Fields)

  // ---- The string pool --------------------------------------------------------------

  /** The bytes so far, and where each string already in them starts. */
  datatype Pool = Pool(bytes: seq<byte>, offsets: map<seq<byte>, nat>)

  const EMPTY_POOL := Pool([0], map[[] := 0])

  /** A length-prefixed string starts at `offset`. */
  ghost predicate HoldsAt(bytes: seq<byte>, offset: nat, data: seq<byte>) {
    && offset + 1 + |data| <= |bytes|
    && bytes[offset] == |data|
    && bytes[offset + 1..offset + 1 + |data|] == data
  }

  ghost predicate PoolOk(p: Pool) {
    && [] in p.offsets && p.offsets[[]] == 0
    && (forall d :: d in p.offsets ==> HoldsAt(p.bytes, p.offsets[d], d))
  }

  /** intern: a text's offset, adding it to the pool the first time. */
  function Interned(p: Pool, text: string): (r: (Pool, nat)) {
    var data := U.Encode(text);
    U.EncodeKeepsWholeCharacters(text);
    if data in p.offsets then (p, p.offsets[data])
    else (Pool(p.bytes + [|data|] + data, p.offsets[data := |p.bytes|]), |p.bytes|)
  }

  lemma HoldsLonger(bytes: seq<byte>, more: seq<byte>, offset: nat, data: seq<byte>)
    requires HoldsAt(bytes, offset, data) && bytes <= more
    ensures HoldsAt(more, offset, data)
  {
  }

  /** Interning keeps the pool sound and what it already held, never grows it by more
      than a length byte and a string, and leaves the text where it says. */
  lemma InternHolds(p: Pool, text: string)
    requires PoolOk(p)
    ensures var (q, offset) := Interned(p, text);
            && PoolOk(q) && p.bytes <= q.bytes && |q.bytes| <= |p.bytes| + 256
            && HoldsAt(q.bytes, offset, U.Encode(text))
            && offset < |q.bytes|
  {
    U.EncodeKeepsWholeCharacters(text);
    var data := U.Encode(text);
    var (q, offset) := Interned(p, text);
    if data !in p.offsets {
      assert q.bytes[offset + 1..offset + 1 + |data|] == data;
      forall d | d in q.offsets ensures HoldsAt(q.bytes, q.offsets[d], d) {
        if d != data {
          HoldsLonger(p.bytes, q.bytes, p.offsets[d], d);
        }
      }
    }
  }

  /** The pool as pack() grows it in place. */
  class StringPool {
    var bytes: seq<byte>
    var offsets: map<seq<byte>, nat>

    ghost function State(): Pool
      reads this
    {
      Pool(bytes, offsets)
    }

    constructor ()
      ensures State() == EMPTY_POOL
    {
      bytes, offsets := [0], map[[] := 0];
    }

    method Intern(text: string) returns (offset: nat)
      modifies this
      ensures (State(), offset) == Interned(old(State()), text)
    {
      var data := U.Encode(text);
      U.EncodeKeepsWholeCharacters(text);
      if data !in offsets {
        offsets := offsets[data := |bytes|];
        bytes := bytes + [|data|] + data;
      }
      return offsets[data];
    }
  }

  // ---- Packing ------------------------------------------------------------------------

  function Texts(f: Fields): seq<string> {
    [f.display, f.iana, f.description, f.category]
  }

  /** Several texts interned in order, and their offsets. */
  function InternAll(p: Pool, texts: seq<string>): (r: (Pool, seq<nat>))
    ensures |r.1| == |texts|
  {
    if texts == [] then (p, [])
    else
      var (q, os) := InternAll(p, Front(texts));
      var (q', o) := Interned(q, Last(texts));
      (q', os + [o])
  }

  /** The pool stays sound, keeps what it held, and every text is where its offset says. */
  lemma {:induction false} InternAllHolds(p: Pool, texts: seq<string>)
    requires PoolOk(p)
    ensures var (q, os) := InternAll(p, texts);
            && PoolOk(q) && p.bytes <= q.bytes && |q.bytes| <= |p.bytes| + 256 * |texts|
            && (forall k :: 0 <= k < |texts| ==> HoldsAt(q.bytes, os[k], U.Encode(texts[k])))
  {
    if texts != [] {
      InternAllHolds(p, Front(texts));
      var (q, os) := InternAll(p, Front(texts));
      InternHolds(q, Last(texts));
      var q' := Interned(q, Last(texts)).0;
      forall k | 0 <= k < |texts| - 1 ensures HoldsAt(q'.bytes, os[k], U.Encode(texts[k])) {
        HoldsLonger(q.bytes, q'.bytes, os[k], U.Encode(Front(texts)[k]));
      }
    }
  }

  ghost predicate AllFit(os: seq<nat>) {
    forall k :: 0 <= k < |os| ==> os[k] < TWO_32
  }

  /** One record; a value too wide for its field would stop struct.pack. */
  function Record(port: nat, rank: nat, os: seq<nat>): (r: seq<byte>)
    requires port < TWO_16 && rank < TWO_16 && |os| == 4
    requires AllFit(os)
    ensures |r| == RECORD_SIZE
  {
    Le16(port) + Le16(rank) + Le32(os[0]) + Le32(os[1]) + Le32(os[2]) + Le32(os[3])
  }

  function RankOf(ranks: map<nat, nat>, port: nat): nat {
    if port in ranks then ranks[port] else 0
  }

  /** What fits the record format. */
  ghost predicate Packable(es: seq<Entry>, ranks: map<nat, nat>) {
    && |es| <= TWO_16
    && (forall i :: 0 <= i < |es| ==> es[i].port < TWO_16 && RankOf(ranks, es[i].port) < TWO_16)
  }

  /** Ports strictly ascending, as sorted() leaves them. */
  ghost predicate Ascending(es: seq<Entry>) {
    forall i, j :: 0 <= i < j < |es| ==> es[i].port < es[j].port
  }

  /** The pool after interning every entry's texts in order. */
  function PoolAfter(es: seq<Entry>): Pool {
    if es == [] then EMPTY_POOL else InternAll(PoolAfter(Front(es)), Texts(Last(es).fields)).0
  }

  /** The offsets the last entry got. */
  function OffsetsOf(es: seq<Entry>): (os: seq<nat>)
    requires es != []
    ensures |os| == 4
  {
    InternAll(PoolAfter(Front(es)), Texts(Last(es).fields)).1
  }

  lemma {:induction false} PoolGrowth(es: seq<Entry>)
    ensures PoolOk(PoolAfter(es)) && |PoolAfter(es).bytes| <= 1 + 1024 * |es|
    ensures es != [] ==> forall k :: 0 <= k < 4 ==> OffsetsOf(es)[k] < 1 + 1024 * |es|
  {
    if es == [] {
      assert EMPTY_POOL.bytes[1..1] == [];
    } else {
      PoolGrowth(Front(es));
      InternAllHolds(PoolAfter(Front(es)), Texts(Last(es).fields));
    }
  }

  /** The records of every entry, in order. */
  function TableOf(es: seq<Entry>, ranks: map<nat, nat>): (t: seq<byte>)
    requires Packable(es, ranks)
    ensures |t| == RECORD_SIZE * |es|
  {
    if es == [] then []
    else
      PoolGrowth(es);
      var e := Last(es);
      TableOf(Front(es), ranks) + Record(e.port, RankOf(ranks, e.port), OffsetsOf(es))
  }

  /** The whole file. */
  function Pack(es: seq<Entry>, ranks: map<nat, nat>): seq<byte>
    requires Packable(es, ranks)
  {
    PoolGrowth(es);
    Assembled(|es|, TableOf(es, ranks), PoolAfter(es).bytes)
  }

  /** Header, records, strings. */
  function Assembled(count: nat, table: seq<byte>, pool: seq<byte>): seq<byte>
    requires count < TWO_32 && HEADER_SIZE + |table| < TWO_32 && |pool| < TWO_32
  {
    Header(count, HEADER_SIZE + |table|, |pool|) + table + pool
  }

  function Header(count: nat, stringsOffset: nat, stringsLen: nat): (h: seq<byte>)
    requires count < TWO_32 && stringsOffset < TWO_32 && stringsLen < TWO_32
    ensures |h| == HEADER_SIZE
  {
    MAGIC + (Le32(VERSION) + (Le32(count) + (Le32(HEADER_SIZE) + (Le32(stringsOffset) + Le32(stringsLen)))))
  }

  lemma PackStep(es: seq<Entry>, ranks: map<nat, nat>, i: nat)
    requires Packable(es, ranks) && i < |es|
    ensures Packable(es[..i + 1], ranks) && Packable(es[..i], ranks)
    ensures PoolAfter(es[..i + 1]) == InternAll(PoolAfter(es[..i]), Texts(es[i].fields)).0
    ensures OffsetsOf(es[..i + 1]) == InternAll(PoolAfter(es[..i]), Texts(es[i].fields)).1
    ensures AllFit(OffsetsOf(es[..i + 1]))
    ensures TableOf(es[..i + 1], ranks) ==
            TableOf(es[..i], ranks) + Record(es[i].port, RankOf(ranks, es[i].port), OffsetsOf(es[..i + 1]))
  {
    assert Front(es[..i + 1]) == es[..i] && Last(es[..i + 1]) == es[i];
    PoolGrowth(es[..i + 1]);
  }

  /** The loop body of pack(): one entry's texts go to the pool, its record to the
      table. */
  method PackEntry(pool: StringPool, f: Fields) returns (os: seq<nat>)
    modifies pool
    ensures (pool.State(), os) == InternAll(old(pool.State()), Texts(f))
  {
    var texts := Texts(f);
    os := [];
    for k := 0 to |texts|
      invariant (pool.State(), os) == InternAll(old(pool.State()), texts[..k])
    {
      var o := pool.Intern(texts[k]);
      os := os + [o];
      assert Front(texts[..k + 1]) == texts[..k];
    }
    assert texts[..|texts|] == texts;
  }

  /** pack()'s loop: one pool and one table grown in place. */
  method PackRows(es: seq<Entry>, ranks: map<nat, nat>) returns (pool: StringPool, table: seq<byte>)
    requires Packable(es, ranks)
    ensures fresh(pool) && pool.State() == PoolAfter(es) && table == TableOf(es, ranks)
  {
    pool := new StringPool();
    table := [];
    for i := 0 to |es|
      invariant fresh(pool) && pool.State() == PoolAfter(es[..i])
      invariant Packable(es[..i], ranks) && table == TableOf(es[..i], ranks)
    {
      PackStep(es, ranks, i);
      var os := PackEntry(pool, es[i].fields);
      table := table + Record(es[i].port, RankOf(ranks, es[i].port), os);
    }
    assert es[..|es|] == es;
  }

  /** pack() as written. */
  method PackTable(es: seq<Entry>, ranks: map<nat, nat>) returns (data: seq<byte>)
    requires Packable(es, ranks)
    ensures data == Pack(es, ranks)
  {
    var pool, table := PackRows(es, ranks);
    PoolGrowth(es);
    data := Assembled(|es|, table, pool.bytes);
  }

  // ---- Deduplication ----------------------------------------------------------------------

  lemma InternFinds(p: Pool, text: string)
    ensures var (q, o) := Interned(p, text);
            && U.Encode(text) in q.offsets && q.offsets[U.Encode(text)] == o
            && (forall d :: d in p.offsets ==> d in q.offsets && q.offsets[d] == p.offsets[d])
            && (U.Encode(text) in p.offsets ==> q == p)
  {
  }

  ghost predicate KeepsOffsets(p: Pool, q: Pool) {
    forall d :: d in p.offsets ==> d in q.offsets && q.offsets[d] == p.offsets[d]
  }

  lemma {:induction false} InternAllFinds(p: Pool, texts: seq<string>)
    ensures var (q, os) := InternAll(p, texts);
            && KeepsOffsets(p, q)
            && (forall k :: 0 <= k < |texts| ==> U.Encode(texts[k]) in q.offsets && q.offsets[U.Encode(texts[k])] == os[k])
  {
    if texts != [] {
      InternAllFinds(p, Front(texts));
      InternFinds(InternAll(p, Front(texts)).0, Last(texts));
    }
  }

  lemma {:induction false} PoolKeepsOffsets(es: seq<Entry>, i: nat)
    requires i <= |es|
    ensures KeepsOffsets(PoolAfter(es[..i]), PoolAfter(es))
    decreases |es|
  {
    if i < |es| {
      assert Front(es)[..i] == es[..i];
      PoolKeepsOffsets(Front(es), i);
      InternAllFinds(PoolAfter(Front(es)), Texts(Last(es).fields));
    } else {
      assert es[..i] == es;
    }
  }

  /** The offset packed for text k of entry i. */
  function OffsetAt(es: seq<Entry>, i: nat, k: nat): nat
    requires i < |es| && k < 4
  {
    OffsetsOf(es[..i + 1])[k]
  }

  /** Wherever it occurs, a text is packed as the one offset the finished pool has for it. */
  lemma OffsetIsThePools(es: seq<Entry>, i: nat, k: nat)
    requires i < |es| && k < 4
    ensures var d := U.Encode(Texts(es[i].fields)[k]);
            d in PoolAfter(es).offsets && OffsetAt(es, i, k) == PoolAfter(es).offsets[d]
  {
    var upTo := es[..i + 1];
    assert Front(upTo) == es[..i] && Last(upTo) == es[i];
    InternAllFinds(PoolAfter(es[..i]), Texts(es[i].fields));
    PoolKeepsOffsets(es, i + 1);
  }

  /** So equal texts share one string, and the empty one is always at offset 0. */
  lemma EqualTextsShareAString(es: seq<Entry>, i: nat, k: nat, j: nat, l: nat)
    requires i < |es| && j < |es| && k < 4 && l < 4
    requires Texts(es[i].fields)[k] == Texts(es[j].fields)[l]
    ensures OffsetAt(es, i, k) == OffsetAt(es, j, l)
    ensures Texts(es[i].fields)[k] == "" ==> OffsetAt(es, i, k) == 0
  {
    OffsetIsThePools(es, i, k);
    OffsetIsThePools(es, j, l);
    if Texts(es[i].fields)[k] == "" {
      U.EncodeKeepsWholeCharacters("");
      PoolKeepsOffsets(es, 0);
      assert es[..0] == [];
    }
  }

  /** And interning a text the pool has adds nothing to it. */
  lemma KnownTextsAddNothing(p: Pool, text: string)
    requires U.Encode(text) in p.offsets
    ensures Interned(p, text) == (p, p.offsets[U.Encode(text)])
  {
    InternFinds(p, text);
  }
}
