/** Opening the embedded table (src/core/packed_db.zig) and looking ports up in it
    (src/core/ports.zig). */
module PortLookup {
  import opened Basics
  import opened Bytes
  import opened PackedTable
  import U = Utf8

  // ---- Opening ------------------------------------------------------------------------

  datatype OpenError =
    | TooSmall | WrongMagic | WrongVersion | RecordsTooLong | StringsMisplaced | StringsTooLong

  datatype Table = Table(count: nat, recordSize: nat, records: seq<byte>, strings: seq<byte>)

  datatype Opened = Table(table: Table) | Error(error: OpenError)

  datatype HeaderFields = HeaderFields(
    magic: seq<byte>, version: nat, count: nat, tableOffset: nat, stringsOffset: nat, stringsLen: nat)

  function ReadHeader(h: seq<byte>): HeaderFields
    requires |h| == HEADER_SIZE
  {
    HeaderFields(h[0..4], FromLe32(h[4..8]), FromLe32(h[8..12]), FromLe32(h[12..16]),
            FromLe32(h[16..20]), FromLe32(h[20..24]))
  }

  /** open(): every mismatch stops the build. */
  function Open(data: seq<byte>, magic: seq<byte>, version: nat, recordSize: nat): Opened
    requires |magic| == 4
  {
    if |data| < HEADER_SIZE then Error(TooSmall)
    else OpenBy(data, ReadHeader(data[..HEADER_SIZE]), magic, version, recordSize)
  }

  /** open() past the size check, by its header. */
  function OpenBy(data: seq<byte>, h: HeaderFields, magic: seq<byte>, version: nat, recordSize: nat): Opened {
    var tableEnd := h.tableOffset + h.count * recordSize;
    if h.magic != magic then Error(WrongMagic)
    else if h.version != version then Error(WrongVersion)
    else if tableEnd > |data| then Error(RecordsTooLong)
    else if h.stringsOffset != tableEnd then Error(StringsMisplaced)
    else if h.stringsOffset + h.stringsLen > |data| then Error(StringsTooLong)
    else
      Opened.Table(Table.Table(h.count, recordSize, data[h.tableOffset..tableEnd],
                               data[h.stringsOffset..h.stringsOffset + h.stringsLen]))
  }

  /** An opened table holds whole records only. */
  ghost predicate WellFormed(t: Table) {
    t.recordSize == RECORD_SIZE && |t.records| == t.count * RECORD_SIZE
  }

  lemma OpenedIsWellFormed(data: seq<byte>)
    requires Open(data, MAGIC, VERSION, RECORD_SIZE).Table?
    ensures WellFormed(Open(data, MAGIC, VERSION, RECORD_SIZE).table)
  {
  }

  lemma HeaderReads(count: nat, stringsOffset: nat, stringsLen: nat)
    requires count < TWO_32 && stringsOffset < TWO_32 && stringsLen < TWO_32
    ensures ReadHeader(Header(count, stringsOffset, stringsLen)) ==
            HeaderFields(MAGIC, VERSION, count, HEADER_SIZE, stringsOffset, stringsLen)
  {
    var h := Header(count, stringsOffset, stringsLen);
    assert h[4..8] == Le32(VERSION) && h[8..12] == Le32(count) && h[12..16] == Le32(HEADER_SIZE);
    assert h[16..20] == Le32(stringsOffset) && h[20..24] == Le32(stringsLen);
    Le32RoundTrip(VERSION);
    Le32RoundTrip(count);
    Le32RoundTrip(HEADER_SIZE);
    Le32RoundTrip(stringsOffset);
    Le32RoundTrip(stringsLen);
  }

  lemma AssembledSlices(count: nat, table: seq<byte>, pool: seq<byte>)
    requires count < TWO_32 && HEADER_SIZE + |table| < TWO_32 && |pool| < TWO_32
    ensures var data, end := Assembled(count, table, pool), HEADER_SIZE + |table|;
            && |data| == end + |pool|
            && data[..HEADER_SIZE] == Header(count, end, |pool|)
            && data[HEADER_SIZE..end] == table
            && data[end..end + |pool|] == pool
  {
    var h := Header(count, HEADER_SIZE + |table|, |pool|);
    SliceRight(h, table, HEADER_SIZE, HEADER_SIZE + |table|);
  }

  lemma AssembledOpens(count: nat, table: seq<byte>, pool: seq<byte>)
    requires count < TWO_32 && HEADER_SIZE + |table| < TWO_32 && |pool| < TWO_32
    requires |table| == count * RECORD_SIZE
    ensures Open(Assembled(count, table, pool), MAGIC, VERSION, RECORD_SIZE) ==
            Opened.Table(Table.Table(count, RECORD_SIZE, table, pool))
  {
    AssembledSlices(count, table, pool);
    HeaderReads(count, HEADER_SIZE + |table|, |pool|);
  }

  /** Whatever pack() writes passes every check of open(), which finds in it exactly
      the records and the strings. */
  lemma PackedOpens(es: seq<Entry>, ranks: map<nat, nat>)
    requires Packable(es, ranks)
    ensures Open(Pack(es, ranks), MAGIC, VERSION, RECORD_SIZE) ==
            Opened.Table(PackedTableOf(es, ranks))
  {
    PoolGrowth(es);
    AssembledOpens(|es|, TableOf(es, ranks), PoolAfter(es).bytes);
  }

  function PackedTableOf(es: seq<Entry>, ranks: map<nat, nat>): Table
    requires Packable(es, ranks)
  {
    Table.Table(|es|, RECORD_SIZE, TableOf(es, ranks), PoolAfter(es).bytes)
  }

  // ---- Reading records ------------------------------------------------------------------

  function RecordAt(t: Table, i: nat): (r: seq<byte>)
    requires WellFormed(t) && i < t.count
    ensures |r| == RECORD_SIZE
  {
    Slot(t.records, i)
  }

  function PortAt(t: Table, i: nat): nat
    requires WellFormed(t) && i < t.count
  {
    FromLe16(RecordAt(t, i)[0..2])
  }

  function RankAt(t: Table, i: nat): nat
    requires WellFormed(t) && i < t.count
  {
    FromLe16(RecordAt(t, i)[2..4])
  }

  /** What a four-byte field of a record reads as: an offset to the empty string, or out
      of the pool, reads as none. */
  function PoolString(strings: seq<byte>, field: seq<byte>): Option<seq<byte>>
    requires |field| == 4
  {
    var offset := FromLe32(field);
    if offset >= |strings| then None
    else
      var len := strings[offset];
      if len == 0 || offset + 1 + len > |strings| then None
      else Some(strings[offset + 1..offset + 1 + len])
  }

  datatype Service = Service(
    name: seq<byte>, iana: Option<seq<byte>>, description: Option<seq<byte>>, category: Option<seq<byte>>)

  function OrElse<T>(a: Option<T>, b: Option<T>): Option<T> {
    if a.Some? then a else b
  }

  function DecodeRecord(strings: seq<byte>, r: seq<byte>): Option<Service>
    requires |r| == RECORD_SIZE
  {
    var display, iana := PoolString(strings, r[4..8]), PoolString(strings, r[8..12]);
    var name := OrElse(display, iana);
    if name == None then None
    else Some(Service(name.value, iana, PoolString(strings, r[12..16]), PoolString(strings, r[16..20])))
  }

  // ---- What a packed record reads as ------------------------------------------------------

  /** A text as the table gives it back: cut to fit, none when empty. */
  function AsRead(text: string): Option<seq<byte>> {
    if text == "" then None else Some(U.Encode(text))
  }

  function ServiceOf(f: Fields): Option<Service> {
    var name := OrElse(AsRead(f.display), AsRead(f.iana));
    if name == None then None
    else Some(Service(name.value, AsRead(f.iana), AsRead(f.description), AsRead(f.category)))
  }

  lemma HeldStringReads(strings: seq<byte>, offset: nat, text: string)
    requires offset < TWO_32 && HoldsAt(strings, offset, U.Encode(text))
    ensures PoolString(strings, Le32(offset)) == AsRead(text)
  {
    Le32RoundTrip(offset);
    U.EncodeKeepsWholeCharacters(text);
  }

  lemma RecordReads(port: nat, rank: nat, os: seq<nat>)
    requires port < TWO_16 && rank < TWO_16 && |os| == 4
    requires AllFit(os)
    ensures var r := Record(port, rank, os);
            && FromLe16(r[0..2]) == port && FromLe16(r[2..4]) == rank
            && r[4..8] == Le32(os[0]) && r[8..12] == Le32(os[1])
            && r[12..16] == Le32(os[2]) && r[16..20] == Le32(os[3])
  {
    var r := Record(port, rank, os);
    assert r[0..2] == Le16(port);
    assert r[2..4] == Le16(rank);
    Le16RoundTrip(port);
    Le16RoundTrip(rank);
  }

  /** The pool only grows, so what an earlier entry interned stays where it was. */
  lemma {:induction false} PoolKeeps(es: seq<Entry>, i: nat)
    requires i <= |es|
    ensures PoolAfter(es[..i]).bytes <= PoolAfter(es).bytes
    decreases |es|
  {
    if i < |es| {
      PoolKeeps(Front(es), i);
      assert Front(es)[..i] == es[..i];
      PoolGrowth(Front(es));
      InternAllHolds(PoolAfter(Front(es)), Texts(Last(es).fields));
    } else {
      assert es[..i] == es;
    }
  }

  lemma TableGrows(es: seq<Entry>, ranks: map<nat, nat>)
    requires Packable(es, ranks) && es != []
    ensures Packable(Front(es), ranks) && AllFit(OffsetsOf(es))
    ensures TableOf(es, ranks) ==
            TableOf(Front(es), ranks) + Record(Last(es).port, RankOf(ranks, Last(es).port), OffsetsOf(es))
  {
    PoolGrowth(es);
  }

  function Slot(table: seq<byte>, i: nat): (r: seq<byte>)
    requires i * RECORD_SIZE + RECORD_SIZE <= |table|
    ensures |r| == RECORD_SIZE
  {
    table[i * RECORD_SIZE..i * RECORD_SIZE + RECORD_SIZE]
  }

  lemma SlotsStay(front: seq<byte>, last: seq<byte>, n: nat, i: nat)
    requires |front| == RECORD_SIZE * n && |last| == RECORD_SIZE && i <= n
    ensures Slot(front + last, i) == if i == n then last else Slot(front, i)
  {
    if i == n {
      SliceRight(front, last, i * RECORD_SIZE, i * RECORD_SIZE + RECORD_SIZE);
    } else {
      SliceLeft(front, last, i * RECORD_SIZE, i * RECORD_SIZE + RECORD_SIZE);
    }
  }

  lemma {:induction false} TableKeeps(es: seq<Entry>, ranks: map<nat, nat>, i: nat)
    requires Packable(es, ranks) && i < |es|
    requires AllFit(OffsetsOf(es[..i + 1]))
    ensures Slot(TableOf(es, ranks), i) ==
            Record(es[i].port, RankOf(ranks, es[i].port), OffsetsOf(es[..i + 1]))
    decreases |es|
  {
    TableGrows(es, ranks);
    var last := Record(Last(es).port, RankOf(ranks, Last(es).port), OffsetsOf(es));
    SlotsStay(TableOf(Front(es), ranks), last, |es| - 1, i);
    if i + 1 < |es| {
      assert Front(es)[..i + 1] == es[..i + 1];
      TableKeeps(Front(es), ranks, i);
    } else {
      assert es[..i + 1] == es;
    }
  }

  lemma InternedTextHeld(p: Pool, texts: seq<string>, k: nat, bytes: seq<byte>)
    requires PoolOk(p) && k < |texts| && InternAll(p, texts).0.bytes <= bytes
    ensures HoldsAt(bytes, InternAll(p, texts).1[k], U.Encode(texts[k]))
  {
    InternAllHolds(p, texts);
    var (q, os) := InternAll(p, texts);
    HoldsLonger(q.bytes, bytes, os[k], U.Encode(texts[k]));
  }

  lemma PoolStep(es: seq<Entry>, i: nat)
    requires i < |es| <= TWO_16
    ensures PoolOk(PoolAfter(es[..i]))
    ensures InternAll(PoolAfter(es[..i]), Texts(es[i].fields)).0.bytes <= PoolAfter(es).bytes
    ensures |PoolAfter(es).bytes| < TWO_32
  {
    assert Front(es[..i + 1]) == es[..i] && Last(es[..i + 1]) == es[i];
    PoolGrowth(es);
    PoolGrowth(es[..i]);
    PoolKeeps(es, i + 1);
  }

  /** Texts interned by the time of entry i are still in the finished pool. */
  lemma PackedTextHeld(es: seq<Entry>, i: nat, k: nat)
    requires i < |es| <= TWO_16 && k < 4
    ensures var o := InternAll(PoolAfter(es[..i]), Texts(es[i].fields)).1[k];
            o < TWO_32 && HoldsAt(PoolAfter(es).bytes, o, U.Encode(Texts(es[i].fields)[k]))
  {
    PoolStep(es, i);
    InternedTextHeld(PoolAfter(es[..i]), Texts(es[i].fields), k, PoolAfter(es).bytes);
  }

  /** So they read back from it. */
  lemma PackedTextsRead(es: seq<Entry>, i: nat, k: nat)
    requires i < |es| <= TWO_16 && k < 4
    ensures var o := InternAll(PoolAfter(es[..i]), Texts(es[i].fields)).1[k];
            o < TWO_32 && PoolString(PoolAfter(es).bytes, Le32(o)) == AsRead(Texts(es[i].fields)[k])
  {
    PackedTextHeld(es, i, k);
    HeldStringReads(PoolAfter(es).bytes, InternAll(PoolAfter(es[..i]), Texts(es[i].fields)).1[k],
                    Texts(es[i].fields)[k]);
  }

  lemma OffsetsFit(es: seq<Entry>, i: nat)
    requires i < |es| <= TWO_16
    ensures AllFit(OffsetsOf(es[..i + 1]))
  {
    PoolGrowth(es[..i + 1]);
  }

  lemma PackedRecordAt(es: seq<Entry>, ranks: map<nat, nat>, i: nat)
    requires Packable(es, ranks) && i < |es|
    ensures AllFit(OffsetsOf(es[..i + 1]))
    ensures RecordAt(PackedTableOf(es, ranks), i) ==
            Record(es[i].port, RankOf(ranks, es[i].port), OffsetsOf(es[..i + 1]))
  {
    OffsetsFit(es, i);
    TableKeeps(es, ranks, i);
  }

  lemma PackedKeyReads(es: seq<Entry>, ranks: map<nat, nat>, i: nat)
    requires Packable(es, ranks) && i < |es|
    ensures PortAt(PackedTableOf(es, ranks), i) == es[i].port
    ensures RankAt(PackedTableOf(es, ranks), i) == RankOf(ranks, es[i].port)
  {
    PackedRecordAt(es, ranks, i);
    RecordReads(es[i].port, RankOf(ranks, es[i].port), OffsetsOf(es[..i + 1]));
  }

  /** Record i of a packed table gives back the texts of entry i. */
  lemma PackedServiceReads(es: seq<Entry>, ranks: map<nat, nat>, i: nat)
    requires Packable(es, ranks) && i < |es|
    ensures DecodeRecord(PackedTableOf(es, ranks).strings, RecordAt(PackedTableOf(es, ranks), i))
            == ServiceOf(es[i].fields)
  {
    PackedRecordAt(es, ranks, i);
    RecordReads(es[i].port, RankOf(ranks, es[i].port), OffsetsOf(es[..i + 1]));
    OffsetsStep(es, i);
    PackedTextsRead(es, i, 0);
    PackedTextsRead(es, i, 1);
    PackedTextsRead(es, i, 2);
    PackedTextsRead(es, i, 3);
  }

  lemma OffsetsStep(es: seq<Entry>, i: nat)
    requires i < |es|
    ensures OffsetsOf(es[..i + 1]) == InternAll(PoolAfter(es[..i]), Texts(es[i].fields)).1
  {
    assert Front(es[..i + 1]) == es[..i] && Last(es[..i + 1]) == es[i];
  }

  // ---- Reading the whole table back -------------------------------------------------------

  /** What unpack() makes of a file: not ours at all (None in the source), broken (an
      exception), or the fields and ranks of its ports. */
  datatype Unpacked =
    | NotOurs | Broken
    | Read(fields: map<nat, seq<string>>, ranks: map<nat, nat>)

  datatype Row = Row(port: nat, rank: nat, texts: seq<string>)

  /** A Python slice, clipped to what is there. */
  function Clipped(data: seq<byte>, from: nat, to: nat): seq<byte> {
    if from >= |data| || to <= from then [] else data[from..Min(to, |data|)]
  }

  /** unpack's string(): the length byte is trusted as far as the pool goes. */
  function TextAt(pool: seq<byte>, offset: nat): Option<string> {
    if offset >= |pool| then None
    else U.TextOf(Clipped(pool, offset + 1, offset + 1 + pool[offset]))
  }

  /** string() closes over the pool. */
  function Strings(pool: seq<byte>): nat -> Option<string> {
    (offset: nat) => TextAt(pool, offset)
  }

  lemma StringsRead(pool: seq<byte>, offset: nat)
    ensures Strings(pool)(offset) == TextAt(pool, offset)
  {
  }

  function RowAt(data: seq<byte>, at: nat, text: nat -> Option<string>): Option<Row> {
    if at + RECORD_SIZE > |data| then None else RowFrom(data[at..at + RECORD_SIZE], text)
  }

  function RowFrom(r: seq<byte>, text: nat -> Option<string>): Option<Row>
    requires |r| == RECORD_SIZE
  {
    var a, b := text(FromLe32(r[4..8])), text(FromLe32(r[8..12]));
    var c, d := text(FromLe32(r[12..16])), text(FromLe32(r[16..20]));
    if a == None || b == None || c == None || d == None then None
    else Some(Row(FromLe16(r[0..2]), FromLe16(r[2..4]), [a.value, b.value, c.value, d.value]))
  }

  /** A row put into the two dicts; a rank of 0 is no rank. */
  function WithRow(u: Unpacked, row: Option<Row>): Unpacked {
    if !u.Read? then u
    else if row == None then Broken
    else
      var Row(port, rank, texts) := row.value;
      Read(u.fields[port := texts], if rank != 0 then u.ranks[port := rank] else u.ranks)
  }

  function WithRows(rows: seq<Option<Row>>): Unpacked {
    if rows == [] then Read(map[], map[]) else WithRow(WithRows(Front(rows)), Last(rows))
  }

  function RowsOf(data: seq<byte>, tableOffset: nat, text: nat -> Option<string>, count: nat): seq<Option<Row>> {
    seq(count, i requires 0 <= i < count => RowAt(data, tableOffset + i * RECORD_SIZE, text))
  }

  function RowsBehind(data: seq<byte>, h: HeaderFields): seq<Option<Row>> {
    var pool := Clipped(data, h.stringsOffset, h.stringsOffset + h.stringsLen);
    RowsOf(data, h.tableOffset, Strings(pool), h.count)
  }

  function Unpack(data: seq<byte>): Unpacked {
    if |data| < HEADER_SIZE then NotOurs
    else
      var h := ReadHeader(data[..HEADER_SIZE]);
      if h.magic != MAGIC || h.version != VERSION then NotOurs
      else WithRows(RowsBehind(data, h))
  }

  lemma {:induction false} BrokenStays(rows: seq<Option<Row>>, i: nat)
    requires i <= |rows| && WithRows(rows[..i]) == Broken
    ensures WithRows(rows) == Broken
    decreases |rows|
  {
    if i < |rows| {
      assert Front(rows)[..i] == rows[..i];
      BrokenStays(Front(rows), i);
    } else {
      assert rows[..i] == rows;
    }
  }

  /** unpack()'s loop, filling two dicts; an exception ends it. */
  method FillDicts(rows: seq<Option<Row>>) returns (u: Unpacked)
    ensures u == WithRows(rows)
  {
    var fields: map<nat, seq<string>>, ranks: map<nat, nat> := map[], map[];
    for i := 0 to |rows|
      invariant WithRows(rows[..i]) == Read(fields, ranks)
    {
      assert Front(rows[..i + 1]) == rows[..i];
      if rows[i] == None {
        BrokenStays(rows, i + 1);
        return Broken;
      }
      var Row(port, rank, texts) := rows[i].value;
      fields := fields[port := texts];
      if rank != 0 {
        ranks := ranks[port := rank];
      }
    }
    assert rows[..|rows|] == rows;
    return Read(fields, ranks);
  }

  method UnpackTable(data: seq<byte>) returns (u: Unpacked)
    ensures u == Unpack(data)
  {
    if |data| < HEADER_SIZE { return NotOurs; }
    var h := ReadHeader(data[..HEADER_SIZE]);
    if h.magic != MAGIC || h.version != VERSION { return NotOurs; }
    u := FillDicts(RowsBehind(data, h));
  }

  /** A text cut to what the length byte can say. */
  function CutText(text: string): string {
    U.Fitting(text, U.LIMIT)
  }

  function Cuts(texts: seq<string>): seq<string> {
    seq(|texts|, k requires 0 <= k < |texts| => CutText(texts[k]))
  }

  function CutTexts(f: Fields): seq<string> {
    Cuts(Texts(f))
  }

  function RowOf(e: Entry, ranks: map<nat, nat>): Row {
    Row(e.port, RankOf(ranks, e.port), CutTexts(e.fields))
  }

  lemma HeldIsClipped(pool: seq<byte>, offset: nat, data: seq<byte>)
    requires HoldsAt(pool, offset, data)
    ensures Clipped(pool, offset + 1, offset + 1 + pool[offset]) == data
  {
  }

  lemma HeldTextReads(pool: seq<byte>, offset: nat, text: string)
    requires HoldsAt(pool, offset, U.Encode(text))
    ensures TextAt(pool, offset) == Some(CutText(text))
  {
    U.EncodeKeepsWholeCharacters(text);
    HeldIsClipped(pool, offset, U.Encode(text));
    U.TextOfReads(U.Encode(text), CutText(text));
  }

  ghost predicate ReadsEach(text: nat -> Option<string>, os: seq<nat>, texts: seq<string>) {
    |os| == |texts| && forall k :: 0 <= k < |os| ==> text(os[k]) == Some(texts[k])
  }

  /** Texts interned together all read back, cut to fit, from any later pool. */
  lemma InternedTextsRead(p: Pool, texts: seq<string>, bytes: seq<byte>)
    requires PoolOk(p) && InternAll(p, texts).0.bytes <= bytes
    ensures ReadsEach(Strings(bytes), InternAll(p, texts).1, Cuts(texts))
  {
    var os := InternAll(p, texts).1;
    forall k | 0 <= k < |texts| ensures Strings(bytes)(os[k]) == Some(Cuts(texts)[k]) {
      InternedTextHeld(p, texts, k, bytes);
      HeldTextReads(bytes, os[k], texts[k]);
      StringsRead(bytes, os[k]);
    }
  }

  lemma RowFromReads(port: nat, rank: nat, os: seq<nat>, text: nat -> Option<string>, texts: seq<string>)
    requires port < TWO_16 && rank < TWO_16 && |os| == 4 && AllFit(os) && ReadsEach(text, os, texts)
    ensures RowFrom(Record(port, rank, os), text) == Some(Row(port, rank, texts))
  {
    RecordReads(port, rank, os);
    forall k | 0 <= k < 4 ensures FromLe32(Le32(os[k])) == os[k] {
      Le32RoundTrip(os[k]);
    }
    assert texts == [texts[0], texts[1], texts[2], texts[3]];
  }

  lemma PackedRowFrom(es: seq<Entry>, ranks: map<nat, nat>, i: nat)
    requires Packable(es, ranks) && i < |es|
    ensures RowFrom(RecordAt(PackedTableOf(es, ranks), i), Strings(PoolAfter(es).bytes)) ==
            Some(RowOf(es[i], ranks))
  {
    PackedRecordAt(es, ranks, i);
    PoolStep(es, i);
    OffsetsStep(es, i);
    InternedTextsRead(PoolAfter(es[..i]), Texts(es[i].fields), PoolAfter(es).bytes);
    RowFromReads(es[i].port, RankOf(ranks, es[i].port), OffsetsOf(es[..i + 1]),
                 Strings(PoolAfter(es).bytes), CutTexts(es[i].fields));
  }

  lemma AssembledRecord(count: nat, table: seq<byte>, pool: seq<byte>, i: nat)
    requires count < TWO_32 && HEADER_SIZE + |table| < TWO_32 && |pool| < TWO_32
    requires |table| == count * RECORD_SIZE && i < count
    ensures var at := HEADER_SIZE + i * RECORD_SIZE;
            && at + RECORD_SIZE <= |Assembled(count, table, pool)|
            && Assembled(count, table, pool)[at..at + RECORD_SIZE] ==
               table[i * RECORD_SIZE..i * RECORD_SIZE + RECORD_SIZE]
  {
    var at := HEADER_SIZE + i * RECORD_SIZE;
    var h := Header(count, HEADER_SIZE + |table|, |pool|);
    SliceLeft(h + table, pool, at, at + RECORD_SIZE);
    assert (h + table)[at..at + RECORD_SIZE] == table[i * RECORD_SIZE..i * RECORD_SIZE + RECORD_SIZE];
  }

  lemma PackedRow(es: seq<Entry>, ranks: map<nat, nat>, i: nat)
    requires Packable(es, ranks) && i < |es|
    ensures RowAt(Pack(es, ranks), HEADER_SIZE + i * RECORD_SIZE, Strings(PoolAfter(es).bytes)) ==
            Some(RowOf(es[i], ranks))
  {
    PoolGrowth(es);
    AssembledRecord(|es|, TableOf(es, ranks), PoolAfter(es).bytes, i);
    PackedRowFrom(es, ranks, i);
  }

  /** The two dicts hold just these rows: the texts of each, and its rank unless 0. */
  ghost predicate HoldRows(u: Unpacked, rows: seq<Row>) {
    && u.Read?
    && (forall i :: 0 <= i < |rows| ==> HoldRow(u, rows[i]))
    && (forall p :: p in u.fields ==> exists i :: 0 <= i < |rows| && rows[i].port == p)
    && u.ranks.Keys <= u.fields.Keys
  }

  ghost predicate HoldRow(u: Unpacked, r: Row)
    requires u.Read?
  {
    && r.port in u.fields && u.fields[r.port] == r.texts
    && (if r.rank != 0 then r.port in u.ranks && u.ranks[r.port] == r.rank else r.port !in u.ranks)
  }

  ghost predicate RowsAscend(rows: seq<Row>) {
    forall i, j :: 0 <= i < j < |rows| ==> rows[i].port < rows[j].port
  }

  lemma RowAdds(u: Unpacked, rows: seq<Row>)
    requires rows != [] && RowsAscend(rows) && HoldRows(u, Front(rows))
    ensures HoldRows(WithRow(u, Some(Last(rows))), rows)
  {
    var v, last := WithRow(u, Some(Last(rows))), Last(rows);
    forall i | 0 <= i < |rows| ensures HoldRow(v, rows[i]) {
      if i < |rows| - 1 {
        assert HoldRow(u, Front(rows)[i]) && rows[i].port != last.port;
      } else {
        assert last.port !in u.fields;
      }
    }
    forall p | p in v.fields ensures exists i :: 0 <= i < |rows| && rows[i].port == p {
      if p in u.fields {
        var i :| 0 <= i < |Front(rows)| && Front(rows)[i].port == p;
        assert rows[i].port == p;
      } else {
        assert rows[|rows| - 1].port == p;
      }
    }
  }

  lemma {:induction false} RowsRead(rows: seq<Option<Row>>, read: seq<Row>)
    requires |rows| == |read| && RowsAscend(read)
    requires forall i :: 0 <= i < |rows| ==> rows[i] == Some(read[i])
    ensures HoldRows(WithRows(rows), read)
  {
    if rows != [] {
      RowsRead(Front(rows), Front(read));
      assert Last(rows) == Some(Last(read));
      RowAdds(WithRows(Front(rows)), read);
    }
  }

  lemma AssembledClips(count: nat, table: seq<byte>, pool: seq<byte>)
    requires count < TWO_32 && HEADER_SIZE + |table| < TWO_32 && |pool| < TWO_32
    ensures var end := HEADER_SIZE + |table|;
            Clipped(Assembled(count, table, pool), end, end + |pool|) == pool
  {
    AssembledSlices(count, table, pool);
  }

  lemma UnpackIs(data: seq<byte>, h: HeaderFields)
    requires |data| >= HEADER_SIZE && ReadHeader(data[..HEADER_SIZE]) == h
    requires h.magic == MAGIC && h.version == VERSION
    ensures Unpack(data) == WithRows(RowsBehind(data, h))
  {
  }

  lemma RowsBehindAre(data: seq<byte>, h: HeaderFields, pool: seq<byte>)
    requires Clipped(data, h.stringsOffset, h.stringsOffset + h.stringsLen) == pool
    ensures RowsBehind(data, h) == RowsOf(data, h.tableOffset, Strings(pool), h.count)
  {
  }

  lemma AssembledUnpacks(data: seq<byte>, count: nat, table: seq<byte>, pool: seq<byte>)
    requires count < TWO_32 && HEADER_SIZE + |table| < TWO_32 && |pool| < TWO_32
    requires data == Assembled(count, table, pool)
    ensures Unpack(data) == WithRows(RowsOf(data, HEADER_SIZE, Strings(pool), count))
  {
    var end := HEADER_SIZE + |table|;
    AssembledSlices(count, table, pool);
    HeaderReads(count, end, |pool|);
    AssembledClips(count, table, pool);
    var h := HeaderFields(MAGIC, VERSION, count, HEADER_SIZE, end, |pool|);
    UnpackIs(data, h);
    RowsBehindAre(data, h, pool);
  }

  lemma RowsOfAt(data: seq<byte>, tableOffset: nat, text: nat -> Option<string>, count: nat, i: nat)
    requires i < count
    ensures RowsOf(data, tableOffset, text, count)[i] == RowAt(data, tableOffset + i * RECORD_SIZE, text)
  {
  }

  lemma RowsOfAre(data: seq<byte>, tableOffset: nat, text: nat -> Option<string>, rows: seq<Row>)
    requires forall i :: 0 <= i < |rows| ==> RowAt(data, tableOffset + i * RECORD_SIZE, text) == Some(rows[i])
    ensures forall i :: 0 <= i < |rows| ==> RowsOf(data, tableOffset, text, |rows|)[i] == Some(rows[i])
  {
    forall i | 0 <= i < |rows|
      ensures RowsOf(data, tableOffset, text, |rows|)[i] == Some(rows[i])
    {
      RowsOfAt(data, tableOffset, text, |rows|, i);
    }
  }

  function RowsFor(es: seq<Entry>, ranks: map<nat, nat>): seq<Row> {
    seq(|es|, i requires 0 <= i < |es| => RowOf(es[i], ranks))
  }

  lemma PackedRows(es: seq<Entry>, ranks: map<nat, nat>)
    requires Packable(es, ranks)
    ensures forall i :: 0 <= i < |es| ==>
      RowAt(Pack(es, ranks), HEADER_SIZE + i * RECORD_SIZE, Strings(PoolAfter(es).bytes)) == Some(RowsFor(es, ranks)[i])
  {
    forall i | 0 <= i < |es|
      ensures RowAt(Pack(es, ranks), HEADER_SIZE + i * RECORD_SIZE, Strings(PoolAfter(es).bytes)) == Some(RowsFor(es, ranks)[i])
    {
      PackedRow(es, ranks, i);
    }
  }

  lemma PackUnpacks(es: seq<Entry>, ranks: map<nat, nat>)
    requires Packable(es, ranks)
    ensures Unpack(Pack(es, ranks)) == WithRows(RowsOf(Pack(es, ranks), HEADER_SIZE, Strings(PoolAfter(es).bytes), |es|))
  {
    PoolGrowth(es);
    assert Pack(es, ranks) == Assembled(|es|, TableOf(es, ranks), PoolAfter(es).bytes);
    AssembledUnpacks(Pack(es, ranks), |es|, TableOf(es, ranks), PoolAfter(es).bytes);
  }

  /** unpack() of what pack() wrote: the ports that went in and no others, each with
      its texts cut to fit and, where it has one, its rank. */
  lemma UnpackReadsBack(es: seq<Entry>, ranks: map<nat, nat>)
    requires Packable(es, ranks) && Ascending(es)
    ensures HoldRows(Unpack(Pack(es, ranks)), RowsFor(es, ranks))
  {
    PackUnpacks(es, ranks);
    PackedRows(es, ranks);
    RowsOfAre(Pack(es, ranks), HEADER_SIZE, Strings(PoolAfter(es).bytes), RowsFor(es, ranks));
    RowsRead(RowsOf(Pack(es, ranks), HEADER_SIZE, Strings(PoolAfter(es).bytes), |es|), RowsFor(es, ranks));
  }

  // ---- Looking ports up -------------------------------------------------------------------

  function PortsOf(t: Table): (ports: seq<nat>)
    requires WellFormed(t)
    ensures |ports| == t.count && forall i :: 0 <= i < t.count ==> ports[i] == PortAt(t, i)
  {
    seq(t.count, i requires 0 <= i < t.count => PortAt(t, i))
  }

  /** The search of indexOf between two bounds. */
  function FindIn(ports: seq<nat>, port: nat, low: nat, high: nat): Option<nat>
    requires low <= high <= |ports|
    decreases high - low
  {
    if low >= high then None
    else
      var mid := low + (high - low) / 2;
      if port < ports[mid] then FindIn(ports, port, low, mid)
      else if port > ports[mid] then FindIn(ports, port, mid + 1, high)
      else Some(mid)
  }

  function Find(t: Table, port: nat): Option<nat>
    requires WellFormed(t)
  {
    FindIn(PortsOf(t), port, 0, t.count)
  }

  /** The loop of indexOf, over the ports of the records. */
  method Search(ports: seq<nat>, port: nat) returns (r: Option<nat>)
    ensures r == FindIn(ports, port, 0, |ports|)
  {
    var low: nat, high: nat := 0, |ports|;
    while low < high
      invariant low <= high <= |ports|
      invariant FindIn(ports, port, low, high) == FindIn(ports, port, 0, |ports|)
    {
      var mid: nat := low + (high - low) / 2;
      var key := ports[mid];
      if port < key {
        high := mid;
      } else if port > key {
        low := mid + 1;
      } else {
        return Some(mid);
      }
    }
    return None;
  }

  method IndexOf(t: Table, port: nat) returns (r: Option<nat>)
    requires WellFormed(t)
    ensures r == Find(t, port)
  {
    r := Search(PortsOf(t), port);
  }

  function Lookup(t: Table, port: nat): Option<Service>
    requires WellFormed(t)
  {
    FoundIsThere(t, port);
    if Find(t, port) == None then None else DecodeRecord(t.strings, RecordAt(t, Find(t, port).value))
  }

  function Rank(t: Table, port: nat): nat
    requires WellFormed(t)
  {
    FoundIsThere(t, port);
    if Find(t, port) == None then 0 else RankAt(t, Find(t, port).value)
  }

  /** Records strictly ascending by port. */
  ghost predicate Sorted(t: Table)
    requires WellFormed(t)
  {
    Grows(PortsOf(t))
  }

  ghost predicate Grows(ports: seq<nat>) {
    forall i, j :: 0 <= i < j < |ports| ==> ports[i] < ports[j]
  }

  lemma {:induction false} FoundInPorts(ports: seq<nat>, port: nat, low: nat, high: nat)
    requires low <= high <= |ports|
    ensures var r := FindIn(ports, port, low, high);
            r.Some? ==> low <= r.value < high && ports[r.value] == port
    decreases high - low
  {
    if low < high {
      var mid := low + (high - low) / 2;
      if port < ports[mid] {
        FoundInPorts(ports, port, low, mid);
      } else if port > ports[mid] {
        FoundInPorts(ports, port, mid + 1, high);
      }
    }
  }

  lemma {:induction false} FindsInPorts(ports: seq<nat>, i: nat, low: nat, high: nat)
    requires Grows(ports) && low <= i < high <= |ports|
    ensures FindIn(ports, ports[i], low, high) == Some(i)
    decreases high - low
  {
    var mid := low + (high - low) / 2;
    if i < mid {
      FindsInPorts(ports, i, low, mid);
    } else if i > mid {
      FindsInPorts(ports, i, mid + 1, high);
    }
  }

  /** What the search finds is the port asked for, sorted or not. */
  lemma FoundIsThere(t: Table, port: nat)
    requires WellFormed(t)
    ensures Find(t, port).Some? ==>
              Find(t, port).value < t.count && PortAt(t, Find(t, port).value) == port
  {
    FoundInPorts(PortsOf(t), port, 0, t.count);
  }

  /** In a sorted table it finds every port there is. */
  lemma FindsWhatIsThere(t: Table, i: nat)
    requires WellFormed(t) && Sorted(t) && i < t.count
    ensures Find(t, PortAt(t, i)) == Some(i)
  {
    FindsInPorts(PortsOf(t), i, 0, t.count);
  }

  lemma PackedIsSorted(es: seq<Entry>, ranks: map<nat, nat>)
    requires Packable(es, ranks) && Ascending(es)
    ensures WellFormed(PackedTableOf(es, ranks)) && Sorted(PackedTableOf(es, ranks))
  {
    var t := PackedTableOf(es, ranks);
    forall i | 0 <= i < t.count ensures PortsOf(t)[i] == es[i].port {
      PackedKeyReads(es, ranks, i);
    }
  }

  /** Every port that was packed is looked up as its own entry, with its own rank. */
  lemma LookupFindsEveryEntry(es: seq<Entry>, ranks: map<nat, nat>, i: nat)
    requires Packable(es, ranks) && Ascending(es) && i < |es|
    ensures Lookup(PackedTableOf(es, ranks), es[i].port) == ServiceOf(es[i].fields)
    ensures Rank(PackedTableOf(es, ranks), es[i].port) == RankOf(ranks, es[i].port)
  {
    PackedIsSorted(es, ranks);
    PackedKeyReads(es, ranks, i);
    PackedServiceReads(es, ranks, i);
    FindsWhatIsThere(PackedTableOf(es, ranks), i);
  }

  /** And every other port is none, unranked. */
  lemma LookupFindsNothingElse(es: seq<Entry>, ranks: map<nat, nat>, port: nat)
    requires Packable(es, ranks)
    requires forall i :: 0 <= i < |es| ==> es[i].port != port
    ensures Lookup(PackedTableOf(es, ranks), port) == None
    ensures Rank(PackedTableOf(es, ranks), port) == 0
  {
    var t := PackedTableOf(es, ranks);
    FoundIsThere(t, port);
    var r := Find(t, port);
    if r.Some? {
      PackedKeyReads(es, ranks, r.value);
      assert false;
    }
  }

  // ---- What is refused ----------------------------------------------------------------------

  /** The header, field by field, where the format puts it. */
  function HeaderOf(data: seq<byte>): HeaderFields
    requires |data| >= 24
  {
    HeaderFields(data[..4], FromLe32(data[4..8]), FromLe32(data[8..12]), FromLe32(data[12..16]),
                 FromLe32(data[16..20]), FromLe32(data[20..24]))
  }

  lemma HeaderFieldsAt(data: seq<byte>)
    requires |data| >= 24
    ensures ReadHeader(data[..HEADER_SIZE]) == HeaderOf(data)
  {
    var h := data[..HEADER_SIZE];
    assert h[0..4] == data[..4] && h[4..8] == data[4..8] && h[8..12] == data[8..12];
    assert h[12..16] == data[12..16] && h[16..20] == data[16..20] && h[20..24] == data[20..24];
  }

  /** The layout open() asks for: records that end within the file, and strings right behind
      them that do too. */
  predicate LaidOut(h: HeaderFields, size: nat, recordSize: nat) {
    var end := h.tableOffset + h.count * recordSize;
    end <= size && h.stringsOffset == end && end + h.stringsLen <= size
  }

  lemma OpenByExactly(data: seq<byte>, h: HeaderFields, magic: seq<byte>, version: nat, recordSize: nat)
    ensures var o := OpenBy(data, h, magic, version, recordSize);
            && (o.Table? <==> h.magic == magic && h.version == version && LaidOut(h, |data|, recordSize))
            && (o.Table? ==>
                  && o.table.count == h.count && o.table.recordSize == recordSize
                  && o.table.records == Clipped(data, h.tableOffset, h.stringsOffset)
                  && o.table.strings == Clipped(data, h.stringsOffset, h.stringsOffset + h.stringsLen))
  {
  }

  /** open() takes a file exactly if it has a header with this magic and version and is laid
      out by it; and then records and strings are just the bytes the header says. */
  lemma OpensExactly(data: seq<byte>, magic: seq<byte>, version: nat, recordSize: nat)
    requires |magic| == 4
    ensures var o := Open(data, magic, version, recordSize);
            && (o.Table? <==>
                  && |data| >= 24 && HeaderOf(data).magic == magic && HeaderOf(data).version == version
                  && LaidOut(HeaderOf(data), |data|, recordSize))
            && (o.Table? ==>
                  && o.table.count == HeaderOf(data).count && o.table.recordSize == recordSize
                  && o.table.records == Clipped(data, HeaderOf(data).tableOffset, HeaderOf(data).stringsOffset)
                  && o.table.strings == Clipped(data, HeaderOf(data).stringsOffset,
                                                HeaderOf(data).stringsOffset + HeaderOf(data).stringsLen))
  {
    if |data| >= 24 {
      HeaderFieldsAt(data);
      OpenByExactly(data, HeaderOf(data), magic, version, recordSize);
    }
  }

  lemma {:induction false} RowsAreOurs(rows: seq<Option<Row>>)
    ensures WithRows(rows) != NotOurs
  {
    if rows != [] {
      RowsAreOurs(Front(rows));
    }
  }

  /** unpack() takes a file for none of ours exactly if it has no header with the magic and
      the version. */
  lemma NotOursExactly(data: seq<byte>)
    ensures Unpack(data) == NotOurs <==>
            |data| < 24 || HeaderOf(data).magic != MAGIC || HeaderOf(data).version != VERSION
  {
    if |data| >= 24 {
      HeaderFieldsAt(data);
      RowsAreOurs(RowsBehind(data, ReadHeader(data[..HEADER_SIZE])));
    }
  }
}
