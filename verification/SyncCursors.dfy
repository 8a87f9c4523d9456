/**
 Per-Device Sync Cursors: coalesced per connection, checkpointed in batches, kept
 monotone in the database.
 */
module SyncCursors {
  import opened Wrappers

  /** A Device's consumed position in one Conversation. */
  datatype SyncCursor = SyncCursor(conversationId: string, lastSeq: int)

  const CURSOR_CHECKPOINT_BATCH := 64

  predicate CrockfordDigit(c: char) {
    || '0' <= c <= '9'
    || ('A' <= c <= 'Z' && c !in {'I', 'L', 'O', 'U'})
    || ('a' <= c <= 'z' && c !in {'i', 'l', 'o', 'u'})
  }

  predicate IsUlid(value: string) {
    |value| == 26 && forall i :: 0 <= i < 26 ==> CrockfordDigit(value[i])
  }

  const BASE32 := "0123456789ABCDEFGHJKMNPQRSTVWXYZ"

  /** The same digit as it is written in the alphabet. */
  function Upper(c: char): char {
    if 'a' <= c <= 'z' then 'A' + (c - 'a') else c
  }

  /** A ULID is 26 digits of Crockford's alphabet, in either case. */
  lemma UlidIsBase32(value: string)
    ensures IsUlid(value) <==> |value| == 26 && forall i :: 0 <= i < 26 ==> Upper(value[i]) in BASE32
  {
    if |value| == 26 {
      forall i | 0 <= i < 26 ensures CrockfordDigit(value[i]) <==> Upper(value[i]) in BASE32 {
        DigitIsBase32(value[i]);
      }
    }
  }

  lemma DigitIsBase32(c: char)
    ensures CrockfordDigit(c) <==> Upper(c) in BASE32
  {
  }

  predicate WellFormed(c: SyncCursor) {
    IsUlid(c.conversationId) && c.lastSeq >= 1
  }

  /** The value stored under a key, 0 standing for no entry; every stored position is at least 1. */
  function At<K>(m: map<K, int>, k: K): int {
    if k in m then Max(m[k], 0) else 0
  }

  function Raised(m: map<string, int>, c: SyncCursor): map<string, int> {
    m[c.conversationId := if c.conversationId in m then Max(m[c.conversationId], c.lastSeq) else c.lastSeq]
  }

  /** One connection's unflushed reports: one entry per Conversation, the highest position wins. */
  class CursorCheckpoint {
    var pending: map<string, int>

    constructor ()
      ensures pending == map[]
    {
      pending := map[];
    }

    /** Tells whether a whole batch of distinct Conversations is waiting. */
    method Record(c: SyncCursor) returns (full: bool)
      modifies this
      ensures pending == Raised(old(pending), c)
      ensures full <==> |pending| >= CURSOR_CHECKPOINT_BATCH
    {
      if c.conversationId in pending {
        pending := pending[c.conversationId := Max(pending[c.conversationId], c.lastSeq)];
      } else {
        pending := pending[c.conversationId := c.lastSeq];
      }
      full := |pending| >= CURSOR_CHECKPOINT_BATCH;
    }

    /** A snapshot in some order: each pending entry once. */
    method Batch() returns (batch: seq<SyncCursor>)
      ensures IsListing(batch, pending)
    {
      batch := [];
      var left := pending.Keys;
      while left != {}
        invariant left <= pending.Keys
        invariant forall i :: 0 <= i < |batch| ==> batch[i].conversationId in pending.Keys - left
                                                   && batch[i].lastSeq == pending[batch[i].conversationId]
        invariant forall k :: k in pending.Keys - left ==> SyncCursor(k, pending[k]) in batch
        invariant forall i, j :: 0 <= i < j < |batch| ==> batch[i].conversationId != batch[j].conversationId
        decreases left
      {
        var k :| k in left;
        batch := batch + [SyncCursor(k, pending[k])];
        left := left - {k};
      }
    }

    method Clear()
      modifies this
      ensures pending == map[]
    {
      pending := map[];
    }
  }

  ghost predicate IsListing(batch: seq<SyncCursor>, m: map<string, int>) {
    && (forall i, j :: 0 <= i < j < |batch| ==> batch[i].conversationId != batch[j].conversationId)
    && (forall c :: c in batch <==> c.conversationId in m && m[c.conversationId] == c.lastSeq)
  }

  /** The highest well-formed position a batch reports for a Conversation, 0 for none. */
  function Highest(batch: seq<SyncCursor>, k: string): int {
    if batch == [] then 0 else
      var c := batch[|batch| - 1];
      Max(Highest(batch[..|batch| - 1], k), Worth(c, k))
  }

  /** The highest well-formed position of every Conversation reported. */
  function Normalised(cursors: seq<SyncCursor>): map<string, int> {
    map c | c in cursors && WellFormed(c) :: c.conversationId := Highest(cursors, c.conversationId)
  }

  /** Keep the well-formed, highest cursor per Conversation. */
  method NormaliseCursors(cursors: seq<SyncCursor>) returns (highest: map<string, int>)
    ensures highest == Normalised(cursors)
    ensures forall k :: At(highest, k) == Highest(cursors, k)
    ensures forall k :: k in highest ==> IsUlid(k) && highest[k] >= 1
  {
    highest := map[];
    for i := 0 to |cursors|
      invariant forall k :: At(highest, k) == Highest(cursors[..i], k)
      invariant forall k :: k in highest <==> exists j :: 0 <= j < i && cursors[j].conversationId == k && WellFormed(cursors[j])
      invariant forall k :: k in highest ==> IsUlid(k) && highest[k] >= 1
    {
      var cursor := cursors[i];
      assert cursors[..i + 1][..i] == cursors[..i];
      if !IsUlid(cursor.conversationId) || cursor.lastSeq < 1 {
        continue;
      }
      highest := Raised(highest, cursor);
    }
    assert cursors[..|cursors|] == cursors;
    NormalisedAt(cursors, highest);
  }

  lemma NormalisedAt(cursors: seq<SyncCursor>, m: map<string, int>)
    requires forall k :: At(m, k) == Highest(cursors, k)
    requires forall k :: k in m <==> exists j :: 0 <= j < |cursors| && cursors[j].conversationId == k && WellFormed(cursors[j])
    requires forall k :: k in m ==> m[k] >= 1
    ensures m == Normalised(cursors)
  {
    var n := Normalised(cursors);
    forall k | k in m ensures k in n {
      var j :| 0 <= j < |cursors| && cursors[j].conversationId == k && WellFormed(cursors[j]);
      assert cursors[j] in cursors;
    }
    forall k | k in n ensures k in m && m[k] == n[k] {
      var c :| c in cursors && WellFormed(c) && c.conversationId == k;
      var j :| 0 <= j < |cursors| && cursors[j] == c;
      assert At(m, k) == m[k];
    }
  }

  /** JOIN conversations, then INSERT ... ON CONFLICT DO UPDATE SET last_seq = GREATEST(...). */
  function Upserted(stored: map<string, int>, known: set<string>, rows: map<string, int>): map<string, int> {
    map k | k in stored.Keys + (rows.Keys * known) ::
      if k in rows && k in known then (if k in stored then Max(stored[k], rows[k]) else rows[k]) else stored[k]
  }

  /** One Device's row set in the database. */
  class CursorTable {
    var stored: map<string, int>
    const known: set<string>

    constructor (known: set<string>)
      ensures stored == map[] && this.known == known
    {
      stored := map[];
      this.known := known;
    }

    /** `ok` is whether the statement succeeds; an empty batch needs no statement. */
    method Save(cursors: seq<SyncCursor>, ok: bool) returns (saved: bool)
      modifies this
      ensures saved <==> ok || Normalised(cursors) == map[]
      ensures stored == if saved then Upserted(old(stored), known, Normalised(cursors)) else old(stored)
      ensures saved ==> forall k :: At(stored, k) ==
                          if k in known then Max(At(old(stored), k), Highest(cursors, k)) else At(old(stored), k)
    {
      var rows := NormaliseCursors(cursors);
      if rows == map[] {
        assert forall k :: Highest(cursors, k) == At(rows, k) == 0;
        assert Upserted(stored, known, rows) == stored;
        return true;
      }
      if !ok {
        return false;
      }
      stored := Upserted(stored, known, rows);
      return true;
    }
  }

  lemma {:induction false} HighestOfListing(batch: seq<SyncCursor>, k: string)
    ensures Highest(batch, k) >= 0
    ensures forall c :: c in batch && c.conversationId == k && WellFormed(c) ==> c.lastSeq <= Highest(batch, k)
    ensures Highest(batch, k) > 0 ==> IsUlid(k) && SyncCursor(k, Highest(batch, k)) in batch
  {
    if batch != [] {
      HighestOfListing(batch[..|batch| - 1], k);
    }
  }

  /** A flushed snapshot reports exactly the pending positions of well-formed Conversations. */
  lemma SnapshotIsFaithful(batch: seq<SyncCursor>, pending: map<string, int>, k: string)
    requires IsListing(batch, pending) && IsUlid(k)
    ensures Highest(batch, k) == At(pending, k)
  {
    HighestOfListing(batch, k);
    if k in pending {
      assert SyncCursor(k, pending[k]) in batch;
    }
  }

  lemma HighestOfMore(batch: seq<SyncCursor>, c: SyncCursor, k: string)
    ensures Highest(batch + [c], k) == Max(Highest(batch, k), Worth(c, k))
  {
  }

  /** The client's queue of reports; `sent` is everything the socket ever took. */
  class CursorReporter {
    var queued: map<string, int>
    ghost var sent: seq<SyncCursor>

    constructor ()
      ensures queued == map[] && sent == []
    {
      queued, sent := map[], [];
    }

    /** The highest position reported or still waiting to be. */
    ghost function Claimed(k: string): int
      reads this
    {
      Max(Highest(sent, k), At(queued, k))
    }

    method ScheduleCursorReport(k: string, safe: Option<nat>)
      modifies this`queued
      ensures forall j :: Claimed(j) == if j == k && safe.Some? then Max(old(Claimed(j)), safe.value) else old(Claimed(j))
      ensures queued == if safe.None? then old(queued) else
                          old(queued)[k := if k in old(queued) then Max(old(queued)[k], safe.value) else safe.value]
    {
      if safe.None? {
        return;
      }
      queued := queued[k := if k in queued then Max(queued[k], safe.value) else safe.value];
      HighestOfListing(sent, k);
    }

    /** Send every queued report, keeping those the socket refuses; nothing claimed is lost. */
    method FlushCursorReports(accepted: set<string>)
      modifies this
      ensures queued == old(queued) - accepted
      ensures forall k :: IsUlid(k) ==> Claimed(k) == old(Claimed(k))
    {
      var entries := queued;
      var left := entries.Keys;
      while left != {}
        invariant left <= entries.Keys && entries == old(queued)
        invariant queued == entries - (accepted - left)
        invariant forall k :: IsUlid(k) ==> Claimed(k) == old(Claimed(k))
        decreases left
      {
        var k :| k in left;
        assert queued[k] == entries[k];
        if k in accepted {
          forall j | IsUlid(j)
            ensures Highest(sent + [SyncCursor(k, entries[k])], j) == Max(Highest(sent, j), Worth(SyncCursor(k, entries[k]), j))
            ensures Highest(sent, j) >= 0
          {
            HighestOfMore(sent, SyncCursor(k, entries[k]), j);
            HighestOfListing(sent, j);
          }
          sent := sent + [SyncCursor(k, entries[k])];
          queued := queued - {k};
        }
        left := left - {k};
      }
    }
  }

  function Reach(stored: map<string, int>, pending: map<string, int>, k: string): int {
    Max(At(stored, k), At(pending, k))
  }

  /** What a report says about k: its position when well-formed, else nothing. */
  function Worth(c: SyncCursor, k: string): int {
    if c.conversationId == k && WellFormed(c) then c.lastSeq else 0
  }

  /** The well-formed part of a buffer. */
  function Sane(buffer: map<string, int>): map<string, int> {
    map k | k in buffer && IsUlid(k) && buffer[k] >= 1 :: buffer[k]
  }

  /** Saving a buffer. */
  function Saved(stored: map<string, int>, known: set<string>, buffer: map<string, int>): map<string, int> {
    Upserted(stored, known, Sane(buffer))
  }

  /** The table and one connection's buffer after a flush whose statement would succeed or not. */
  function Flushing(stored: map<string, int>, known: set<string>, buffer: map<string, int>, ok: bool):
        (map<string, int>, map<string, int>) {
    if ok || Sane(buffer) == map[] then (Saved(stored, known, buffer), map[]) else (stored, buffer)
  }

  /** The same after a report, which flushes a full batch. */
  function Reporting(stored: map<string, int>, known: set<string>, buffer: map<string, int>, cursor: SyncCursor, ok: bool):
        (map<string, int>, map<string, int>) {
    var raised := Raised(buffer, cursor);
    if |raised| >= CURSOR_CHECKPOINT_BATCH then Flushing(stored, known, raised, ok) else (stored, raised)
  }

  lemma NothingToFlush(stored: map<string, int>, known: set<string>, ok: bool)
    ensures Flushing(stored, known, map[], ok) == (stored, map[])
  {
    assert Sane(map[]) == map[];
    assert Upserted(stored, known, map[]) == stored;
  }

  /** Normalising a snapshot leaves exactly the well-formed part of the buffer. */
  lemma ListingNormalised(batch: seq<SyncCursor>, buffer: map<string, int>)
    requires IsListing(batch, buffer)
    ensures Normalised(batch) == Sane(buffer)
  {
    forall k | k in Normalised(batch) ensures k in Sane(buffer) && Normalised(batch)[k] == buffer[k] {
      var c :| c in batch && WellFormed(c) && c.conversationId == k;
      SnapshotIsFaithful(batch, buffer, k);
    }
    forall k | k in Sane(buffer) ensures k in Normalised(batch) {
      assert SyncCursor(k, buffer[k]) in batch;
    }
  }

  /** The cursor half of one connection's session. */
  class CursorSession {
    const cursors: CursorCheckpoint
    const table: CursorTable

    constructor (table: CursorTable)
      ensures fresh(cursors) && cursors.pending == map[] && this.table == table
    {
      cursors := new CursorCheckpoint();
      this.table := table;
    }

    /** Write the snapshot; forget it only once the database took it. */
    method FlushCursors(ok: bool)
      modifies cursors, table
      ensures (table.stored, cursors.pending) == Flushing(old(table.stored), table.known, old(cursors.pending), ok)
      ensures ok ==> cursors.pending == map[]
      ensures cursors.pending == map[] || (cursors.pending == old(cursors.pending) && table.stored == old(table.stored))
      ensures forall k :: IsUlid(k) && k in table.known ==>
                && Reach(table.stored, cursors.pending, k) == Reach(old(table.stored), old(cursors.pending), k)
                && At(table.stored, k) >= At(old(table.stored), k)
    {
      if cursors.pending == map[] {
        NothingToFlush(table.stored, table.known, ok);
        return;
      }
      var batch := cursors.Batch();
      ListingNormalised(batch, cursors.pending);
      forall k | IsUlid(k) ensures Highest(batch, k) == At(cursors.pending, k) {
        SnapshotIsFaithful(batch, cursors.pending, k);
      }
      var saved := table.Save(batch, ok);
      if saved {
        cursors.Clear();
      }
    }

    /** Coalesce one report; a full batch is flushed at once. */
    method RecordCursor(cursor: SyncCursor, ok: bool)
      modifies cursors, table
      ensures (table.stored, cursors.pending) == Reporting(old(table.stored), table.known, old(cursors.pending), cursor, ok)
      ensures forall k :: IsUlid(k) && k in table.known ==>
                && Reach(table.stored, cursors.pending, k)
                   == Max(Reach(old(table.stored), old(cursors.pending), k), Worth(cursor, k))
                && At(table.stored, k) >= At(old(table.stored), k)
      ensures ok ==> |cursors.pending| < CURSOR_CHECKPOINT_BATCH
    {
      var full := cursors.Record(cursor);
      if full {
        FlushCursors(ok);
      }
    }
  }

  // ------------------------------------------------------ all connections of a Device

  /** The stored cursors of one Device and the buffers of its live connections. */
  datatype DeviceState = DeviceState(stored: map<string, int>, buffers: map<ConnectionId, map<string, int>>)

  datatype Act =
    | Open(conn: ConnectionId)
    | Report(conn: ConnectionId, cursor: SyncCursor, ok: bool)  // ok: would an eager flush succeed
    | Flush(conn: ConnectionId, ok: bool)
    | Close(conn: ConnectionId, ok: bool)                       // after a last flush

  function Flushed(d: DeviceState, known: set<string>, conn: ConnectionId, ok: bool): DeviceState {
    if conn in d.buffers then
      var (stored, buffer) := Flushing(d.stored, known, d.buffers[conn], ok);
      DeviceState(stored, d.buffers[conn := buffer])
    else d
  }

  function Acted(d: DeviceState, known: set<string>, act: Act): DeviceState {
    match act
    case Open(conn) => if conn in d.buffers then d else d.(buffers := d.buffers[conn := map[]])
    case Report(conn, cursor, ok) =>
      if conn !in d.buffers then d else
        var (stored, buffer) := Reporting(d.stored, known, d.buffers[conn], cursor, ok);
        DeviceState(stored, d.buffers[conn := buffer])
    case Flush(conn, ok) => Flushed(d, known, conn, ok)
    case Close(conn, ok) =>
      var flushed := Flushed(d, known, conn, ok);
      flushed.(buffers := flushed.buffers - {conn})
  }

  function ActedAll(d: DeviceState, known: set<string>, acts: seq<Act>): DeviceState {
    if acts == [] then d
    else Acted(ActedAll(d, known, acts[..|acts| - 1]), known, acts[|acts| - 1])
  }

  /** The position is in the database, or safe in the buffer of a live connection. */
  ghost predicate Reached(d: DeviceState, k: string, v: int) {
    At(d.stored, k) >= v || exists conn :: conn in d.buffers && At(d.buffers[conn], k) >= v
  }

  /** No stored or buffered position is higher. */
  ghost predicate Bounded(d: DeviceState, k: string, v: int) {
    At(d.stored, k) <= v && forall conn :: conn in d.buffers ==> At(d.buffers[conn], k) <= v
  }

  /** `v` is the maximum over the stored position and every live buffer. */
  ghost predicate IsLevel(d: DeviceState, k: string, v: int) {
    Reached(d, k, v) && Bounded(d, k, v)
  }

  /** The highest well-formed report accepted by a live connection in a run, or the start. */
  function HighestReport(d: DeviceState, known: set<string>, acts: seq<Act>, k: string, start: int): int {
    if acts == [] then start else
      var front, act := acts[..|acts| - 1], acts[|acts| - 1];
      var before := HighestReport(d, known, front, k, start);
      if act.Report? && act.conn in ActedAll(d, known, front).buffers then Max(before, Worth(act.cursor, k)) else before
  }

  /** The state when a connection is torn down: its last flush fails, and nothing else holds v. */
  ghost predicate Drops(d: DeviceState, conn: ConnectionId, ok: bool, k: string, v: int) {
    !ok && conn in d.buffers && At(d.buffers[conn], k) >= v
    && At(d.stored, k) < v && forall other :: other in d.buffers && other != conn ==> At(d.buffers[other], k) < v
  }

  /**
   The highest report is not lost: no connection was torn down with a failing flush while
   it alone held the highest position so far, unless one as high was reported since.
   */
  ghost predicate Kept(d: DeviceState, known: set<string>, acts: seq<Act>, k: string, start: int) {
    acts == [] ||
    var front, act := acts[..|acts| - 1], acts[|acts| - 1];
    var now, v := ActedAll(d, known, front), HighestReport(d, known, front, k, start);
    if act.Report? && act.conn in now.buffers && Worth(act.cursor, k) >= v && Worth(act.cursor, k) > 0 then true
    else if act.Close? then Kept(d, known, front, k, start) && !Drops(now, act.conn, act.ok, k, v)
    else Kept(d, known, front, k, start)
  }

  lemma SavedAt(stored: map<string, int>, known: set<string>, buffer: map<string, int>, k: string)
    requires IsUlid(k)
    ensures At(Saved(stored, known, buffer), k) == if k in known then Max(At(stored, k), At(buffer, k)) else At(stored, k)
  {
  }

  /** A flush keeps the higher of what is stored and what is buffered, and only raises what is stored. */
  lemma FlushingAt(stored: map<string, int>, known: set<string>, buffer: map<string, int>, ok: bool, k: string)
    requires IsUlid(k) && k in known
    ensures
      var (s, b) := Flushing(stored, known, buffer, ok);
      && At(stored, k) <= At(s, k) <= Max(At(stored, k), At(buffer, k)) == Max(At(s, k), At(b, k))
      && At(b, k) <= At(buffer, k) && (ok ==> At(b, k) == 0)
  {
    SavedAt(stored, known, buffer, k);
  }

  lemma ReportingAt(stored: map<string, int>, known: set<string>, buffer: map<string, int>, cursor: SyncCursor, ok: bool, k: string)
    requires IsUlid(k) && k in known
    ensures
      var (s, b) := Reporting(stored, known, buffer, cursor, ok);
      && At(stored, k) <= At(s, k)
      && Max(At(s, k), At(b, k)) == Max(Max(At(stored, k), At(buffer, k)), Worth(cursor, k))
  {
    FlushingAt(stored, known, Raised(buffer, cursor), ok, k);
  }

  /** Trading one connection's buffer against the table moves the level only by what that pair gains. */
  lemma LevelOfPair(d: DeviceState, conn: ConnectionId, s: map<string, int>, b: map<string, int>, k: string, v: int, gain: int)
    requires conn in d.buffers && Bounded(d, k, v) && gain >= 0
    requires At(d.stored, k) <= At(s, k)
    requires Max(At(s, k), At(b, k)) == Max(Max(At(d.stored, k), At(d.buffers[conn], k)), gain)
    ensures Bounded(DeviceState(s, d.buffers[conn := b]), k, Max(v, gain))
    ensures Reached(DeviceState(s, d.buffers[conn := b]), k, Max(v, gain)) <==> Reached(d, k, v) || gain >= v
  {
    var after := DeviceState(s, d.buffers[conn := b]);
    assert conn in after.buffers && after.buffers[conn] == b;
    forall other | other in d.buffers && other != conn ensures after.buffers[other] == d.buffers[other] {
    }
    if Reached(d, k, v) && At(d.stored, k) < v && v >= gain {
      var c :| c in d.buffers && At(d.buffers[c], k) >= v;
      assert c in after.buffers;
    }
    if Reached(after, k, Max(v, gain)) && At(s, k) < Max(v, gain) {
      var c :| c in after.buffers && At(after.buffers[c], k) >= Max(v, gain);
      assert c in d.buffers;
    }
  }

  lemma OpenKeepsLevel(d: DeviceState, known: set<string>, conn: ConnectionId, k: string, v: int)
    requires Bounded(d, k, v) && v >= 0
    ensures Bounded(Acted(d, known, Open(conn)), k, v)
    ensures Reached(Acted(d, known, Open(conn)), k, v) <==> Reached(d, k, v)
  {
    var after := Acted(d, known, Open(conn));
    forall c | c in d.buffers ensures c in after.buffers && after.buffers[c] == d.buffers[c] {
    }
    if c :| c in after.buffers && At(after.buffers[c], k) >= v {
      assert c in d.buffers || v == 0;
    }
  }

  lemma CloseKeepsLevel(d: DeviceState, known: set<string>, conn: ConnectionId, ok: bool, k: string, v: int)
    requires k in known && IsUlid(k) && Bounded(d, k, v) && v >= 0
    ensures
      var after := Acted(d, known, Close(conn, ok));
      && Bounded(after, k, v) && At(after.stored, k) >= At(d.stored, k)
      && (Reached(after, k, v) <==> Reached(d, k, v) && !Drops(d, conn, ok, k, v))
  {
    var after := Acted(d, known, Close(conn, ok));
    if conn in d.buffers {
      FlushingAt(d.stored, known, d.buffers[conn], ok, k);
      assert forall c :: c in after.buffers ==> c in d.buffers && c != conn && after.buffers[c] == d.buffers[c];
      assert forall c :: c in d.buffers && c != conn ==> c in after.buffers;
    } else {
      assert after.buffers == d.buffers;
    }
  }

  /**
   Through any interleaving of reports, eager, failed and successful flushes, openings
   and closings, clean or not: nothing exceeds the highest well-formed report, the stored
   position never decreases, and the maximum of stored and buffered positions is that
   highest report exactly when no failing teardown dropped it.
   */
  lemma {:induction false} NoReportIsLost(d: DeviceState, known: set<string>, acts: seq<Act>, k: string, start: int)
    requires k in known && IsUlid(k) && start >= 0 && IsLevel(d, k, start)
    ensures HighestReport(d, known, acts, k, start) >= start
    ensures Bounded(ActedAll(d, known, acts), k, HighestReport(d, known, acts, k, start))
    ensures IsLevel(ActedAll(d, known, acts), k, HighestReport(d, known, acts, k, start)) <==> Kept(d, known, acts, k, start)
    ensures acts != [] ==> At(ActedAll(d, known, acts).stored, k) >= At(ActedAll(d, known, acts[..|acts| - 1]).stored, k)
  {
    if acts != [] {
      hide Flushing, Reporting, Reached, Bounded, Drops, At;
      var front, act := acts[..|acts| - 1], acts[|acts| - 1];
      NoReportIsLost(d, known, front, k, start);
      var now := ActedAll(d, known, front);
      var v := HighestReport(d, known, front, k, start);
      match act
      case Open(conn) => OpenKeepsLevel(now, known, conn, k, v);
      case Report(conn, cursor, ok) =>
        if conn in now.buffers {
          ReportingAt(now.stored, known, now.buffers[conn], cursor, ok, k);
          var (s, b) := Reporting(now.stored, known, now.buffers[conn], cursor, ok);
          LevelOfPair(now, conn, s, b, k, v, Worth(cursor, k));
        }
      case Flush(conn, ok) =>
        if conn in now.buffers {
          FlushingAt(now.stored, known, now.buffers[conn], ok, k);
          var (s, b) := Flushing(now.stored, known, now.buffers[conn], ok);
          LevelOfPair(now, conn, s, b, k, v, 0);
        }
      case Close(conn, ok) => CloseKeepsLevel(now, known, conn, ok, k, v);
    }
  }

  /** One report, and a teardown whose flush fails: the position is neither stored nor buffered any more. */
  lemma FailedTeardownDropsAReport(k: string, conn: ConnectionId)
    requires IsUlid(k)
    ensures
      var start := DeviceState(map[], map[]);
      var acts := [Open(conn), Report(conn, SyncCursor(k, 5), true), Close(conn, false)];
      && ActedAll(start, {k}, acts) == start
      && HighestReport(start, {k}, acts, k, 0) == 5 && !Kept(start, {k}, acts, k, 0)
  {
    var start := DeviceState(map[], map[]);
    var acts := [Open(conn), Report(conn, SyncCursor(k, 5), true), Close(conn, false)];
    ReportIsBuffered(k, conn);
    assert acts[..2] == [Open(conn), Report(conn, SyncCursor(k, 5), true)];
    assert Sane(map[k := 5]) == map[k := 5];
    assert ActedAll(start, {k}, acts) == start;
    AllFlushedMeansAllStored(start, {k}, acts, k);
  }

  lemma ReportIsBuffered(k: string, conn: ConnectionId)
    requires IsUlid(k)
    ensures
      var start := DeviceState(map[], map[]);
      var acts := [Open(conn), Report(conn, SyncCursor(k, 5), true)];
      && ActedAll(start, {k}, acts) == DeviceState(map[], map[conn := map[k := 5]])
      && HighestReport(start, {k}, acts, k, 0) == 5
  {
    var start := DeviceState(map[], map[]);
    var acts := [Open(conn), Report(conn, SyncCursor(k, 5), true)];
    assert acts[..1] == [Open(conn)] && acts[..1][..0] == [];
    assert ActedAll(start, {k}, []) == start;
    assert ActedAll(start, {k}, acts[..1]) == DeviceState(map[], map[conn := map[]]);
    assert HighestReport(start, {k}, acts[..1], k, 0) == 0;
  }

  /** Every teardown's last flush succeeded. */
  ghost predicate ClosedCleanly(acts: seq<Act>) {
    forall i :: 0 <= i < |acts| && acts[i].Close? ==> acts[i].ok
  }

  /** So nothing is lost while every teardown is clean. */
  lemma {:induction false} CleanClosingsKeepAll(d: DeviceState, known: set<string>, acts: seq<Act>, k: string, start: int)
    requires ClosedCleanly(acts)
    ensures Kept(d, known, acts, k, start)
  {
    if acts != [] {
      CleanClosingsKeepAll(d, known, acts[..|acts| - 1], k, start);
    }
  }

  /** Once every buffer is empty, the database holds the highest well-formed report, exactly when none was dropped. */
  lemma AllFlushedMeansAllStored(d: DeviceState, known: set<string>, acts: seq<Act>, k: string)
    requires k in known && IsUlid(k) && d == DeviceState(map[], map[])
    requires forall conn :: conn in ActedAll(d, known, acts).buffers ==> ActedAll(d, known, acts).buffers[conn] == map[]
    ensures At(ActedAll(d, known, acts).stored, k) == HighestReport(d, known, acts, k, 0) <==> Kept(d, known, acts, k, 0)
  {
    NoReportIsLost(d, known, acts, k, 0);
  }
}
