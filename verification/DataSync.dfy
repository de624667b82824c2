/**
 Versioned table rows (internal/handler/data_sync.go): optimistic writes, tombstones and incremental
 pulls. Times are clock ticks; `server_time` and `since` are whole seconds.
 */
module DataSyncLaw {
  import opened Common
  import Versions

  datatype Key = Key(user: string, app: string, table: string, record: string)

  datatype Row = Row(data: string, version: int, deleted: bool, updatedAt: int)

  type Rows = map<Key, Row>

  // ---------- writes ----------

  /** One write the database sees. A version of zero or less asks for no check. */
  datatype Op =
    | Put(k: Key, data: string, version: int, deleted: bool, at: int)
    | Remove(k: Key, at: int)

  datatype Outcome = Saved(version: int) | Conflict(serverVersion: int, serverData: string) | NotFound

  predicate Accepts(rows: Rows, op: Op) {
    match op
    case Put(k, _, version, _, _) => k !in rows || version <= 0 || rows[k].version <= version
    case Remove(k, _) => k in rows
  }

  function Apply(rows: Rows, op: Op): Rows {
    if !Accepts(rows, op) then rows
    else
      match op
      case Put(k, data, _, deleted, at) =>
        rows[k := Row(data, if k in rows then rows[k].version + 1 else 1, deleted, at)]
      case Remove(k, at) => rows[k := rows[k].(deleted := true, version := rows[k].version + 1, updatedAt := at)]
  }

  function OutcomeOf(rows: Rows, op: Op): Outcome {
    if Accepts(rows, op) then Saved(Apply(rows, op)[op.k].version)
    else if op.Put? then Conflict(rows[op.k].version, rows[op.k].data)
    else NotFound
  }

  function Run(rows: Rows, ops: seq<Op>): Rows {
    if ops == [] then rows else Apply(Run(rows, ops[..|ops| - 1]), ops[|ops| - 1])
  }

  function Outcomes(rows: Rows, ops: seq<Op>): seq<Outcome> {
    if ops == [] then []
    else Outcomes(rows, ops[..|ops| - 1]) + [OutcomeOf(Run(rows, ops[..|ops| - 1]), ops[|ops| - 1])]
  }

  lemma RunSnoc(rows: Rows, ops: seq<Op>, op: Op)
    ensures Run(rows, ops + [op]) == Apply(Run(rows, ops), op)
    ensures Outcomes(rows, ops + [op]) == Outcomes(rows, ops) + [OutcomeOf(Run(rows, ops), op)]
  {
    assert (ops + [op])[..|ops|] == ops;
  }

  /** Writes sent in one batch or in several leave the same rows. */
  lemma {:induction false} RunSplit(rows: Rows, first: seq<Op>, second: seq<Op>)
    ensures Run(rows, first + second) == Run(Run(rows, first), second)
  {
    if second == [] {
      assert first + second == first;
    } else {
      RunSplit(rows, first, second[..|second| - 1]);
      assert first + second == (first + second[..|second| - 1]) + [second[|second| - 1]];
      RunSnoc(rows, first + second[..|second| - 1], second[|second| - 1]);
    }
  }

  // ---------- versions ----------

  function VersionOf(rows: Rows, k: Key): int {
    if k in rows then rows[k].version else 0
  }

  /** Accepted writes and deletes of one record. */
  function Writes(rows: Rows, ops: seq<Op>, k: Key): nat {
    if ops == [] then 0
    else
      var front, op := ops[..|ops| - 1], ops[|ops| - 1];
      Writes(rows, front, k) + if op.k == k && Accepts(Run(rows, front), op) then 1 else 0
  }

  /** A version is a count: it rises by exactly one per accepted write or delete, and by nothing else. */
  lemma {:induction false} VersionCountsWrites(rows: Rows, ops: seq<Op>, k: Key)
    ensures VersionOf(Run(rows, ops), k) == VersionOf(rows, k) + Writes(rows, ops, k)
    ensures k in rows ==> k in Run(rows, ops)
    ensures Writes(rows, ops, k) == 0 && k in rows ==> Run(rows, ops)[k] == rows[k]
  {
    if ops != [] {
      VersionCountsWrites(rows, ops[..|ops| - 1], k);
    }
  }

  predicate Positive(rows: Rows) {
    forall k :: k in rows ==> rows[k].version >= 1
  }

  lemma {:induction false} VersionsArePositive(ops: seq<Op>)
    ensures Positive(Run(map[], ops))
  {
    if ops != [] {
      VersionsArePositive(ops[..|ops| - 1]);
    }
  }

  /** Within a record's history a version number names one content. */
  lemma VersionIdentifiesContent(rows: Rows, ops: seq<Op>, k: Key)
    requires k in rows
    ensures k in Run(rows, ops)
    ensures Run(rows, ops)[k].version == rows[k].version <==> Run(rows, ops)[k] == rows[k]
  {
    VersionCountsWrites(rows, ops, k);
  }

  /**
   No lost update: a client saw a record, anything happened since, and now it writes back with the
   version it saw. The write goes through exactly if the record is still what the client saw.
   */
  lemma NoLostUpdate(past: seq<Op>, since: seq<Op>, k: Key, data: string, deleted: bool, at: int)
    requires k in Run(map[], past)
    ensures var seen := Run(map[], past)[k];
            var now := Run(map[], past + since);
            && k in now
            && (Accepts(now, Put(k, data, seen.version, deleted, at)) <==> now[k] == seen)
            && (Accepts(now, Put(k, data, seen.version, deleted, at)) <==> now[k].version == seen.version)
  {
    VersionsArePositive(past);
    RunSplit(map[], past, since);
    VersionIdentifiesContent(Run(map[], past), since, k);
    VersionCountsWrites(Run(map[], past), since, k);
  }

  /** No state of the run ever carried this version of the record. */
  ghost predicate NeverGiven(ops: seq<Op>, k: Key, version: int) {
    forall i :: 0 <= i <= |ops| ==> VersionOf(Run(map[], ops[..i]), k) != version
  }

  /** Every version up to the current one was the record's version at some time. */
  lemma {:induction false} WasGiven(ops: seq<Op>, k: Key, version: int) returns (i: nat)
    requires 1 <= version <= Writes(map[], ops, k)
    ensures i <= |ops| && VersionOf(Run(map[], ops[..i]), k) == version
  {
    var front := ops[..|ops| - 1];
    if version <= Writes(map[], front, k) {
      i := WasGiven(front, k, version);
      assert front[..i] == ops[..i];
    } else {
      i := |ops|;
      assert ops[..i] == ops;
      VersionCountsWrites(map[], ops, k);
    }
  }

  lemma {:induction false} WritesOfPrefix(ops: seq<Op>, k: Key, i: nat)
    requires i <= |ops|
    ensures VersionOf(Run(map[], ops[..i]), k) <= Writes(map[], ops, k)
    decreases |ops|
  {
    if i < |ops| {
      WritesOfPrefix(ops[..|ops| - 1], k, i);
      assert ops[..|ops| - 1][..i] == ops[..i];
    } else {
      assert ops[..i] == ops;
      VersionCountsWrites(map[], ops, k);
    }
  }

  /**
   The check only refuses versions that are behind. Over any run, a positive version passes over a
   different stored one, losing whatever was written there, exactly if no client was ever given it.
   */
  lemma AheadOfServerOverwrites(ops: seq<Op>, k: Key, data: string, version: int, deleted: bool, at: int)
    requires k in Run(map[], ops) && version > 0
    ensures var now := Run(map[], ops);
            Accepts(now, Put(k, data, version, deleted, at)) && now[k].version != version <==> NeverGiven(ops, k, version)
  {
    VersionCountsWrites(map[], ops, k);
    if version <= Writes(map[], ops, k) {
      var i := WasGiven(ops, k, version);
    } else {
      forall i | 0 <= i <= |ops| ensures VersionOf(Run(map[], ops[..i]), k) != version {
        WritesOfPrefix(ops, k, i);
      }
    }
  }

  lemma UnseenVersionLosesUpdate(k: Key)
    ensures var before := Run(map[], [Put(k, "mine", 0, false, 1), Put(k, "theirs", 1, false, 2)]);
            && before == map[k := Row("theirs", 2, false, 2)]
            && Apply(before, Put(k, "stale", 9, false, 3)) == map[k := Row("stale", 3, false, 3)]
  {
    var first, second := Put(k, "mine", 0, false, 1), Put(k, "theirs", 1, false, 2);
    assert [first, second][..1] == [first] && [first][..0] == [];
    assert Run(map[], [first]) == Apply(Run(map[], []), first);
  }

  // ---------- requests ----------

  predicate NameChar(c: char) {
    'A' <= c <= 'Z' || 'a' <= c <= 'z' || '0' <= c <= '9' || c == '_' || c == '.' || c == '-'
  }

  const MAX_IDENTIFIER := 100

  predicate ValidIdentifier(name: string) {
    name != "" && |name| <= MAX_IDENTIFIER && forall i :: 0 <= i < |name| ==> NameChar(name[i])
  }

  datatype Entry = Entry(record: string, data: string, version: int, deleted: bool)

  /** The write of one batch entry; identifiers are trimmed first. */
  function PutOf(user: string, app: string, table: string, e: Entry, at: int): Op {
    Put(Key(user, app, table, Versions.Trim(e.record)), e.data, e.version, e.deleted, at)
  }

  function Puts(user: string, app: string, table: string, entries: seq<Entry>, at: int): seq<Op> {
    if entries == [] then []
    else Puts(user, app, table, entries[..|entries| - 1], at) + [PutOf(user, app, table, entries[|entries| - 1], at)]
  }

  /** How many entries are handled before the first bad identifier or database fault. */
  function Handled(entries: seq<Entry>, faults: set<nat>, i: nat): (n: nat)
    requires i <= |entries|
    ensures i <= n <= |entries|
    ensures forall j :: i <= j < n ==> ValidIdentifier(Versions.Trim(entries[j].record)) && j !in faults
    ensures n < |entries| ==> !ValidIdentifier(Versions.Trim(entries[n].record)) || n in faults
    decreases |entries| - i
  {
    if i == |entries| || !ValidIdentifier(Versions.Trim(entries[i].record)) || i in faults then i
    else Handled(entries, faults, i + 1)
  }

  // ---------- pulls ----------

  const TICKS := 1_000_000_000

  datatype Item = Item(data: string, version: int, deleted: bool, updatedAt: int)

  function ItemOf(r: Row): Item {
    Item(r.data, r.version, r.deleted, r.updatedAt / TICKS)
  }

  /** Whose rows a pull asks for: one table, or all of them. */
  datatype Scope = Scope(user: string, app: string, table: Option<string>)

  predicate InScope(k: Key, scope: Scope) {
    k.user == scope.user && k.app == scope.app && (scope.table.None? || k.table == scope.table.value)
  }

  predicate After(r: Row, since: Option<int>) {
    since.None? || r.updatedAt > since.value * TICKS
  }

  function Pull(rows: Rows, scope: Scope, since: Option<int>): map<Key, Item> {
    map k | k in rows && InScope(k, scope) && After(rows[k], since) :: ItemOf(rows[k])
  }

  // ---------- a client that pulls incrementally ----------

  datatype World = World(rows: Rows, mirror: map<Key, Item>, since: Option<int>)

  /** A pull is two instants: its query, and the clock read for `server_time` when the query is done. */
  datatype Event = Write(op: Op) | Query(time: int) | Stamp(time: int)

  function When(e: Event): int {
    match e
    case Write(op) => op.at
    case Query(time) => time
    case Stamp(time) => time
  }

  /** The client overlays what it gets and keeps the answer's `server_time` as its next `since`. */
  function Happen(w: World, e: Event, scope: Scope): World {
    match e
    case Write(op) => w.(rows := Apply(w.rows, op))
    case Query(time) => w.(mirror := w.mirror + Pull(w.rows, scope, w.since))
    case Stamp(time) => w.(since := Some(time / TICKS))
  }

  function Live(events: seq<Event>, scope: Scope): World {
    if events == [] then World(map[], map[], None)
    else Happen(Live(events[..|events| - 1], scope), events[|events| - 1], scope)
  }

  predicate Beyond(at: int, since: Option<int>) {
    since.None? || at > since.value * TICKS
  }

  /** When the writes since the last query happened. */
  function Pending(events: seq<Event>): seq<int> {
    if events == [] then []
    else
      match events[|events| - 1]
      case Write(op) => Pending(events[..|events| - 1]) + [op.at]
      case Query(_) => []
      case Stamp(_) => Pending(events[..|events| - 1])
  }

  /**
   What falls between a query and its stamp is later than the start of the stamp's second. A stamp whose
   query failed and was ignored has everything since the last good query before it.
   */
  predicate QuietStamps(events: seq<Event>) {
    events == [] ||
    (var front, last := events[..|events| - 1], events[|events| - 1];
     && QuietStamps(front)
     && (last.Stamp? ==> forall at :: at in Pending(front) ==> Beyond(at, Some(last.time / TICKS))))
  }

  /** The clock is strictly increasing. */
  predicate StrictClock(events: seq<Event>) {
    forall i, j :: 0 <= i < j < |events| ==> When(events[i]) < When(events[j])
  }

  predicate Mirrored(w: World, k: Key)
    requires k in w.rows
  {
    k in w.mirror && w.mirror[k] == ItemOf(w.rows[k])
  }

  /** What the client may not have seen yet is exactly what its next query will return. */
  ghost predicate Synced(w: World, scope: Scope, pending: seq<int>) {
    && (forall k :: k in w.mirror ==> k in w.rows && InScope(k, scope))
    && (forall k :: k in w.rows && InScope(k, scope) ==>
          Mirrored(w, k) || (After(w.rows[k], w.since) && w.rows[k].updatedAt in pending))
  }

  lemma QueryCompletes(w: World, time: int, scope: Scope, pending: seq<int>)
    requires Synced(w, scope, pending)
    ensures Happen(w, Query(time), scope).mirror == Pull(w.rows, scope, None)
    ensures Synced(Happen(w, Query(time), scope), scope, [])
  {
    var v, full := Happen(w, Query(time), scope), Pull(w.rows, scope, None);
    forall k | k in full ensures k in v.mirror && v.mirror[k] == full[k] {
      assert Mirrored(w, k) || After(w.rows[k], w.since);
    }
    assert v.mirror.Keys == full.Keys;
  }

  lemma WriteKeepsSynced(w: World, op: Op, scope: Scope, pending: seq<int>)
    requires Synced(w, scope, pending) && Beyond(op.at, w.since)
    ensures Synced(Happen(w, Write(op), scope), scope, pending + [op.at])
  {
    var v := Happen(w, Write(op), scope);
    forall k | k in v.rows && InScope(k, scope)
      ensures Mirrored(v, k) || (After(v.rows[k], v.since) && v.rows[k].updatedAt in pending + [op.at])
    {
      if !(k == op.k && Accepts(w.rows, op)) {
        assert k in w.rows && v.rows[k] == w.rows[k];
        assert Mirrored(w, k) || (After(w.rows[k], w.since) && w.rows[k].updatedAt in pending);
      }
    }
  }

  lemma StampKeepsSynced(w: World, time: int, scope: Scope, pending: seq<int>)
    requires Synced(w, scope, pending) && forall at :: at in pending ==> Beyond(at, Some(time / TICKS))
    ensures Synced(Happen(w, Stamp(time), scope), scope, pending)
  {
    var v := Happen(w, Stamp(time), scope);
    forall k | k in v.rows && InScope(k, scope)
      ensures Mirrored(v, k) || (After(v.rows[k], v.since) && v.rows[k].updatedAt in pending)
    {
      assert Mirrored(w, k) || (After(w.rows[k], w.since) && w.rows[k].updatedAt in pending);
    }
  }

  lemma {:induction false} CursorIsPast(events: seq<Event>, scope: Scope)
    requires StrictClock(events)
    ensures Live(events, scope).since.Some? ==>
              events != [] && Live(events, scope).since.value * TICKS <= When(events[|events| - 1])
  {
    if events != [] {
      var front, last := events[..|events| - 1], events[|events| - 1];
      assert forall i, j :: 0 <= i < j < |front| ==> When(events[i]) < When(events[j]);
      CursorIsPast(front, scope);
      if front != [] {
        assert front[|front| - 1] == events[|front| - 1];
        assert When(events[|front| - 1]) < When(events[|front|]);
      }
    }
  }

  lemma {:induction false} AlwaysSynced(events: seq<Event>, scope: Scope)
    requires StrictClock(events) && QuietStamps(events)
    ensures Synced(Live(events, scope), scope, Pending(events))
  {
    if events != [] {
      var front, last := events[..|events| - 1], events[|events| - 1];
      assert forall i, j :: 0 <= i < j < |front| ==> When(events[i]) < When(events[j]);
      AlwaysSynced(front, scope);
      match last
      case Write(op) =>
        CursorIsPast(front, scope);
        if front != [] {
          assert When(events[|front| - 1]) < When(events[|front|]);
        }
        WriteKeepsSynced(Live(front, scope), op, scope, Pending(front));
      case Query(time) => QueryCompletes(Live(front, scope), time, scope, Pending(front));
      case Stamp(time) => StampKeepsSynced(Live(front, scope), time, scope, Pending(front));
    }
  }

  /**
   Incremental pulls refine full pulls: over every interleaving of writes and pulls under a strict clock,
   if no write falls between a query and the second of its stamp, a client that has just pulled holds
   exactly what a full pull would give it, tombstones included.
   */
  lemma IncrementalPullIsFullPull(events: seq<Event>, time: int, scope: Scope)
    requires StrictClock(events) && QuietStamps(events)
    ensures var w := Live(events + [Query(time)], scope); w.mirror == Pull(w.rows, scope, None)
  {
    assert (events + [Query(time)])[..|events|] == events;
    AlwaysSynced(events, scope);
    QueryCompletes(Live(events, scope), time, scope, Pending(events));
  }

  /** Where a record's last accepted write stands with the client. */
  datatype Fate = Seen | Due | Missed

  /** The first query after the write decides, once and for all: is the write beyond the cursor it carries? */
  function FateOf(events: seq<Event>, scope: Scope, k: Key): Fate {
    if events == [] then Seen
    else
      var w, before := Live(events[..|events| - 1], scope), FateOf(events[..|events| - 1], scope, k);
      match events[|events| - 1]
      case Write(op) => if op.k == k && Accepts(w.rows, op) then Due else before
      case Query(_) => if before == Due && k in w.rows then (if After(w.rows[k], w.since) then Seen else Missed) else before
      case Stamp(_) => before
  }

  /** The clock of the stamps never goes back. */
  predicate StampsOrdered(events: seq<Event>) {
    forall i, j :: 0 <= i < j < |events| && events[i].Stamp? && events[j].Stamp? ==> events[i].time <= events[j].time
  }

  lemma {:induction false} CursorIsStamp(events: seq<Event>, scope: Scope) returns (i: nat)
    requires Live(events, scope).since.Some?
    ensures i < |events| && events[i].Stamp? && Live(events, scope).since.value == events[i].time / TICKS
  {
    var last := events[|events| - 1];
    if last.Stamp? {
      i := |events| - 1;
    } else {
      i := CursorIsStamp(events[..|events| - 1], scope);
    }
  }

  lemma CursorRises(front: seq<Event>, time: int, scope: Scope)
    requires StampsOrdered(front + [Stamp(time)])
    ensures Live(front, scope).since.Some? ==> Live(front, scope).since.value <= time / TICKS
  {
    if Live(front, scope).since.Some? {
      var i := CursorIsStamp(front, scope);
      var events := front + [Stamp(time)];
      assert events[i] == front[i] && events[|front|] == Stamp(time);
    }
  }

  /** What a fate says of the mirror: only a seen row is there as it is, and a missed one never will be. */
  predicate Fated(w: World, scope: Scope, k: Key, fate: Fate) {
    if k in w.rows && InScope(k, scope) then
      if fate == Seen then Mirrored(w, k)
      else
        && (k in w.mirror ==> w.mirror[k].version < w.rows[k].version)
        && (fate == Missed ==> !After(w.rows[k], w.since))
    else k !in w.mirror
  }

  lemma EventKeepsFate(w: World, e: Event, scope: Scope, k: Key, fate: Fate, fate': Fate)
    requires Fated(w, scope, k, fate)
    requires e.Stamp? && w.since.Some? ==> w.since.value <= e.time / TICKS
    requires fate' == (match e
                       case Write(op) => if op.k == k && Accepts(w.rows, op) then Due else fate
                       case Query(_) => if fate == Due && k in w.rows then (if After(w.rows[k], w.since) then Seen else Missed) else fate
                       case Stamp(_) => fate)
    ensures Fated(Happen(w, e, scope), scope, k, fate')
  {
    match e
    case Write(op) => assert k in w.mirror ==> Mirrored(w, k) || w.mirror[k].version < w.rows[k].version;
    case Query(_) => assert k in Pull(w.rows, scope, w.since) <==> k in w.rows && InScope(k, scope) && After(w.rows[k], w.since);
    case Stamp(time) =>
  }

  lemma {:induction false} FateHolds(events: seq<Event>, scope: Scope, k: Key)
    requires StampsOrdered(events)
    ensures Fated(Live(events, scope), scope, k, FateOf(events, scope, k))
  {
    if events != [] {
      var front, last := events[..|events| - 1], events[|events| - 1];
      FateHolds(front, scope, k);
      assert front + [last] == events;
      if last.Stamp? {
        CursorRises(front, last.time, scope);
      }
      EventKeepsFate(Live(front, scope), last, scope, k, FateOf(front, scope, k), FateOf(events, scope, k));
    }
  }

  /**
   Exactly, over every run, whatever the clocks of writes and queries: a client that has just pulled
   holds a full pull if and only if each record's last accepted write was beyond the cursor carried by
   the first query after it; the records for which it was are the ones mirrored.
   */
  lemma MirrorIsCompleteIff(events: seq<Event>, time: int, scope: Scope)
    requires StampsOrdered(events)
    ensures var all := events + [Query(time)];
            var w := Live(all, scope);
            && (forall k :: k in w.rows && InScope(k, scope) ==> (Mirrored(w, k) <==> FateOf(all, scope, k) == Seen))
            && (w.mirror == Pull(w.rows, scope, None) <==> forall k :: k in w.rows && InScope(k, scope) ==> FateOf(all, scope, k) == Seen)
  {
    var all := events + [Query(time)];
    var w := Live(all, scope);
    forall k | k in w.mirror ensures k in w.rows && InScope(k, scope) {
      FateHolds(all, scope, k);
    }
    forall k | k in w.rows && InScope(k, scope) ensures Mirrored(w, k) <==> FateOf(all, scope, k) == Seen {
      FateHolds(all, scope, k);
    }
    MirrorIsFull(w, scope);
  }

  lemma MirrorIsFull(w: World, scope: Scope)
    requires forall k :: k in w.mirror ==> k in w.rows && InScope(k, scope)
    ensures w.mirror == Pull(w.rows, scope, None) <==> forall k :: k in w.rows && InScope(k, scope) ==> Mirrored(w, k)
  {
    var full := Pull(w.rows, scope, None);
    if w.mirror == full {
      forall k | k in w.rows && InScope(k, scope) ensures Mirrored(w, k) {
        assert k in full;
      }
    } else if forall k :: k in w.rows && InScope(k, scope) ==> Mirrored(w, k) {
      assert w.mirror.Keys == full.Keys;
    }
  }

  /**
   For one write after a complete query: one accepted write is picked up by the next pull if and only if it is
   later than the start of the second of this pull's stamp, whichever of the two comes first.
   */
  lemma WriteIsPickedUpIff(w: World, op: Op, stamp: int, time: int, scope: Scope)
    requires Synced(w, scope, []) && InScope(op.k, scope)
    requires Accepts(w.rows, op)
    ensures var before := Happen(Happen(w, Write(op), scope), Stamp(stamp), scope);
            var later := Happen(Happen(w, Stamp(stamp), scope), Write(op), scope);
            var after := Happen(before, Query(time), scope);
            && later == before
            && (after.mirror == Pull(after.rows, scope, None) <==> op.at > stamp / TICKS * TICKS)
  {
    var written := Happen(w, Write(op), scope);
    var before := Happen(written, Stamp(stamp), scope);
    var after := Happen(before, Query(time), scope);
    if op.at > stamp / TICKS * TICKS {
      WriteKeepsSynced(w.(since := Some(stamp / TICKS)), op, scope, []);
      QueryCompletes(before, time, scope, [op.at]);
    } else {
      assert op.k !in Pull(before.rows, scope, before.since);
      assert op.k in Pull(after.rows, scope, None);
      assert op.k in w.mirror ==> Mirrored(w, op.k);
      assert op.k in w.mirror ==> w.mirror[op.k].version < after.rows[op.k].version;
    }
  }

  lemma LiveThree(a: Event, b: Event, c: Event, scope: Scope)
    ensures Live([a, b, c], scope) == Happen(Happen(Happen(World(map[], map[], None), a, scope), b, scope), c, scope)
  {
    assert [a, b, c][..2] == [a, b] && [a, b][..1] == [a] && [a][..0] == [];
    assert Live([a], scope) == Happen(Live([], scope), a, scope);
  }

  /** Late in the gap: a first pull stamped in the second after its query never learns of a write in between. */
  lemma GapWriteIsMissed(k: Key)
    ensures var scope := Scope(k.user, k.app, None);
            var w := Happen(Live([Query(1), Write(Put(k, "late", 0, false, 2)), Stamp(TICKS)], scope), Query(9 * TICKS), scope);
            k in w.rows && k !in w.mirror
  {
    LiveThree(Query(1), Write(Put(k, "late", 0, false, 2)), Stamp(TICKS), Scope(k.user, k.app, None));
  }

  /** A write in the same tick as a stamp on a full second is never pulled. */
  lemma SameTickWriteIsMissed(k: Key)
    ensures var scope := Scope(k.user, k.app, None);
            var w := Happen(Live([Query(1), Stamp(TICKS), Write(Put(k, "late", 0, false, TICKS))], scope), Query(9 * TICKS), scope);
            k in w.rows && k !in w.mirror
  {
    LiveThree(Query(1), Stamp(TICKS), Write(Put(k, "late", 0, false, TICKS)), Scope(k.user, k.app, None));
  }

  /** A pull of all tables whose query fails answers with a `server_time` all the same, and skips what it missed. */
  lemma FailedQuerySkipsRows(k: Key)
    ensures var scope := Scope(k.user, k.app, None);
            var w := Live([Write(Put(k, "lost", 0, false, 1)), Stamp(TICKS), Query(9 * TICKS)], scope);
            k in w.rows && k !in w.mirror
  {
    LiveThree(Write(Put(k, "lost", 0, false, 1)), Stamp(TICKS), Query(9 * TICKS), Scope(k.user, k.app, None));
  }
}

/** The handlers as methods on the table they update. `fault` is a database error. */
module DataSync {
  import opened Common
  import opened DataSyncLaw
  import Versions
  import Query

  datatype Answer = Done(outcome: Outcome) | BadRequest | ServerError

  class Store {
    var rows: Rows
    ghost var trace: seq<Op>

    constructor ()
      ensures Valid() && rows == map[]
    {
      rows, trace := map[], [];
    }

    ghost predicate Valid()
      reads this
    {
      rows == Run(map[], trace)
    }

    /** One record: look it up, check the version, then update or create. */
    method WriteRow(k: Key, data: string, version: int, deleted: bool, now: int) returns (outcome: Outcome)
      requires Valid()
      modifies this
      ensures Valid() && trace == old(trace) + [Put(k, data, version, deleted, now)]
      ensures rows == Apply(old(rows), Put(k, data, version, deleted, now))
      ensures outcome == OutcomeOf(old(rows), Put(k, data, version, deleted, now))
    {
      RunSnoc(map[], trace, Put(k, data, version, deleted, now));
      trace := trace + [Put(k, data, version, deleted, now)];
      if k in rows {
        var row := rows[k];
        if version > 0 && row.version > version {
          return Conflict(row.version, row.data);
        }
        row := row.(data := data, version := row.version + 1, deleted := deleted, updatedAt := now);
        rows := rows[k := row];
        return Saved(row.version);
      }
      rows := rows[k := Row(data, 1, deleted, now)];
      return Saved(1);
    }

    method SaveTableData(user: string, app: string, table: string, e: Entry, now: int, fault: bool) returns (answer: Answer)
      requires Valid()
      modifies this
      ensures Valid()
      ensures answer.Done? <==> ValidIdentifier(Versions.Trim(table)) && ValidIdentifier(Versions.Trim(e.record)) && !fault
      ensures answer == BadRequest <==> !ValidIdentifier(Versions.Trim(table)) || !ValidIdentifier(Versions.Trim(e.record))
      ensures var op := PutOf(user, app, Versions.Trim(table), e.(deleted := false), now);
              if answer.Done? then rows == Apply(old(rows), op) && answer == Done(OutcomeOf(old(rows), op)) else rows == old(rows)
    {
      var name, record := Versions.Trim(table), Versions.Trim(e.record);
      if !ValidIdentifier(name) || !ValidIdentifier(record) {
        return BadRequest;
      }
      if fault {
        return ServerError;
      }
      var outcome := WriteRow(Key(user, app, name, record), e.data, e.version, false, now);
      return Done(outcome);
    }

    /**
     The batch is the single-record write folded over the entries before the first bad one; those stay
     saved even when the answer is an error.
     */
    method SaveTableDataBatch(user: string, app: string, table: string, entries: seq<Entry>, now: int, faults: set<nat>)
      returns (ok: bool, outcomes: seq<Outcome>)
      requires Valid()
      modifies this
      ensures Valid()
      ensures ok <==> ValidIdentifier(Versions.Trim(table)) && Handled(entries, faults, 0) == |entries|
      ensures !ValidIdentifier(Versions.Trim(table)) ==> rows == old(rows)
      ensures var ops := Puts(user, app, Versions.Trim(table), entries[..Handled(entries, faults, 0)], now);
              ValidIdentifier(Versions.Trim(table)) ==> (rows == Run(old(rows), ops) && outcomes == Outcomes(old(rows), ops))
    {
      outcomes := [];
      var name := Versions.Trim(table);
      if !ValidIdentifier(name) {
        return false, outcomes;
      }
      var i := 0;
      while i < |entries|
        invariant 0 <= i <= |entries|
        invariant Valid()
        invariant Handled(entries, faults, i) == Handled(entries, faults, 0)
        invariant rows == Run(old(rows), Puts(user, app, name, entries[..i], now))
        invariant outcomes == Outcomes(old(rows), Puts(user, app, name, entries[..i], now))
      {
        var e := entries[i];
        var written := SaveEntry(user, app, name, e, now, i in faults);
        if written.None? {
          return false, outcomes;
        }
        outcomes := outcomes + [written.value];
        assert entries[..i + 1][..i] == entries[..i];
        RunSnoc(old(rows), Puts(user, app, name, entries[..i], now), PutOf(user, app, name, e, now));
        i := i + 1;
      }
      return true, outcomes;
    }

    method SaveEntry(user: string, app: string, table: string, e: Entry, now: int, fault: bool) returns (written: Option<Outcome>)
      requires Valid()
      modifies this
      ensures Valid()
      ensures written.Some? <==> ValidIdentifier(Versions.Trim(e.record)) && !fault
      ensures var op := PutOf(user, app, table, e, now);
              if written.Some? then rows == Apply(old(rows), op) && written == Some(OutcomeOf(old(rows), op)) else rows == old(rows)
    {
      var record := Versions.Trim(e.record);
      if !ValidIdentifier(record) || fault {
        return None;
      }
      var outcome := WriteRow(Key(user, app, table, record), e.data, e.version, e.deleted, now);
      return Some(outcome);
    }

    method DeleteTableData(user: string, app: string, table: string, record: string, now: int, fault: bool) returns (answer: Answer)
      requires Valid()
      modifies this
      ensures Valid()
      ensures answer.Done? <==> ValidIdentifier(Versions.Trim(table)) && ValidIdentifier(Versions.Trim(record)) && !fault
      ensures answer == BadRequest <==> !ValidIdentifier(Versions.Trim(table)) || !ValidIdentifier(Versions.Trim(record))
      ensures var op := Remove(Key(user, app, Versions.Trim(table), Versions.Trim(record)), now);
              if answer.Done? then rows == Apply(old(rows), op) && answer == Done(OutcomeOf(old(rows), op)) else rows == old(rows)
    {
      var name, id := Versions.Trim(table), Versions.Trim(record);
      if !ValidIdentifier(name) || !ValidIdentifier(id) {
        return BadRequest;
      }
      if fault {
        return ServerError;
      }
      var k := Key(user, app, name, id);
      RunSnoc(map[], trace, Remove(k, now));
      trace := trace + [Remove(k, now)];
      if k !in rows {
        return Done(NotFound);
      }
      rows := rows[k := rows[k].(deleted := true, version := rows[k].version + 1, updatedAt := now)];
      return Done(Saved(rows[k].version));
    }

    /** One table, oldest change first; a `since` that is not a number asks for everything. `stamp` is the clock after the query. */
    method GetTableData(user: string, app: string, table: string, since: string, stamp: int, fault: bool)
      returns (ok: bool, records: seq<(string, Item)>, serverTime: int)
      requires Valid()
      ensures ok <==> ValidIdentifier(Versions.Trim(table)) && !fault
      ensures ok ==> Lists(records, Pull(rows, Scope(user, app, Some(Versions.Trim(table))), Versions.Atoi(since)),
                           user, app, Versions.Trim(table))
      ensures ok ==> forall i, j :: 0 <= i < j < |records| ==> records[i].1.updatedAt <= records[j].1.updatedAt
      ensures ok ==> serverTime == stamp / TICKS
    {
      var name := Versions.Trim(table);
      if !ValidIdentifier(name) || fault {
        return false, [], 0;
      }
      records := Select(rows, user, app, name, Versions.Atoi(since));
      return true, records, stamp / TICKS;
    }

    /** Every table of the user, grouped. The query's error is dropped: the answer is then empty, but stamped. */
    method SyncAllTables(user: string, app: string, since: string, stamp: int, fault: bool)
      returns (tables: map<string, seq<(string, Item)>>, serverTime: int)
      requires Valid()
      ensures serverTime == stamp / TICKS
      ensures tables.Keys == if fault then {} else set k | k in Pull(rows, Scope(user, app, None), Versions.Atoi(since)) :: k.table
      ensures forall t :: t in tables ==>
                Lists(tables[t], Pull(rows, Scope(user, app, Some(t)), Versions.Atoi(since)), user, app, t)
    {
      if fault {
        return map[], stamp / TICKS;
      }
      var all := Pull(rows, Scope(user, app, None), Versions.Atoi(since));
      var names := set k | k in all :: k.table;
      var rest := names;
      tables := map[];
      while rest != {}
        invariant rest <= names && tables.Keys == names - rest
        invariant forall t :: t in tables ==>
                    Lists(tables[t], Pull(rows, Scope(user, app, Some(t)), Versions.Atoi(since)), user, app, t)
        decreases |rest|
      {
        var t :| t in rest;
        var records := Select(rows, user, app, t, Versions.Atoi(since));
        tables := tables[t := records];
        rest := rest - {t};
      }
      return tables, stamp / TICKS;
    }
  }

  /** `ORDER BY updated_at`: the chosen rows of one table, oldest change first. */
  method Select(rows: Rows, user: string, app: string, table: string, since: Option<int>) returns (records: seq<(string, Item)>)
    ensures Lists(records, Pull(rows, Scope(user, app, Some(table)), since), user, app, table)
    ensures forall i, j :: 0 <= i < j < |records| ==> records[i].1.updatedAt <= records[j].1.updatedAt
  {
    var keys := SortKeys(rows, user, app, table, since);
    var top := Query.Top(keys, |keys|);
    records := Fetch(rows, top, user, app, table);
    OldestFirst(keys, top, records);
    AllListed(keys, top, records, Pull(rows, Scope(user, app, Some(table)), since), user, app, table);
  }

  /** The pulled records of one table, each with its `updated_at`. */
  function SortKeys(rows: Rows, user: string, app: string, table: string, since: Option<int>): (keys: map<string, Query.Key>)
    ensures forall id :: id in keys <==> Key(user, app, table, id) in Pull(rows, Scope(user, app, Some(table)), since)
    ensures forall id :: id in keys ==> keys[id] == Query.Key(rows[Key(user, app, table, id)].updatedAt, 0, 0)
  {
    var ids := set k | k in rows && InScope(k, Scope(user, app, Some(table))) && After(rows[k], since) :: k.record;
    assert forall id :: id in ids <==> Key(user, app, table, id) in Pull(rows, Scope(user, app, Some(table)), since);
    map id | id in ids :: Query.Key(rows[Key(user, app, table, id)].updatedAt, 0, 0)
  }

  method Fetch(rows: Rows, ids: seq<string>, user: string, app: string, table: string) returns (records: seq<(string, Item)>)
    requires forall i :: 0 <= i < |ids| ==> Key(user, app, table, ids[i]) in rows
    ensures |records| == |ids|
    ensures forall i :: 0 <= i < |ids| ==> records[i] == (ids[i], ItemOf(rows[Key(user, app, table, ids[i])]))
  {
    records := [];
    for n := 0 to |ids|
      invariant |records| == n
      invariant forall i :: 0 <= i < n ==> records[i] == (ids[i], ItemOf(rows[Key(user, app, table, ids[i])]))
    {
      records := records + [(ids[n], ItemOf(rows[Key(user, app, table, ids[n])]))];
    }
  }

  /** Sorting by ticks sorts by seconds. */
  lemma OldestFirst(keys: map<string, Query.Key>, top: seq<string>, records: seq<(string, Item)>)
    requires Query.IsTop(keys, |keys|, top) && |records| == |top|
    requires forall i :: 0 <= i < |top| && top[i] in keys ==> records[i].1.updatedAt == keys[top[i]].a / TICKS
    requires forall id :: id in keys ==> keys[id].b == 0
    ensures forall i, j :: 0 <= i < j < |records| ==> records[i].1.updatedAt <= records[j].1.updatedAt
  {
    forall i, j | 0 <= i < j < |records| ensures records[i].1.updatedAt <= records[j].1.updatedAt {
      assert Query.AtMost(keys[top[i]], keys[top[j]]);
      SecondsOrder(keys[top[i]].a, keys[top[j]].a);
    }
  }

  /** The list holds each pulled row of the table once. */
  ghost predicate Lists(records: seq<(string, Item)>, pulled: map<Key, Item>, user: string, app: string, table: string) {
    && (forall i :: 0 <= i < |records| ==>
          (Key(user, app, table, records[i].0) in pulled && pulled[Key(user, app, table, records[i].0)] == records[i].1))
    && (forall k :: k in pulled ==> exists i :: 0 <= i < |records| && records[i].0 == k.record)
    && (forall i, j :: 0 <= i < j < |records| ==> records[i].0 != records[j].0)
  }

  lemma AllListed(keys: map<string, Query.Key>, top: seq<string>, records: seq<(string, Item)>, pulled: map<Key, Item>,
                  user: string, app: string, table: string)
    requires Query.IsTop(keys, |keys|, top) && |records| == |top|
    requires forall id :: id in keys <==> Key(user, app, table, id) in pulled
    requires forall k :: k in pulled ==> k == Key(user, app, table, k.record)
    requires forall i :: 0 <= i < |top| && top[i] in keys ==> records[i] == (top[i], pulled[Key(user, app, table, top[i])])
    ensures Lists(records, pulled, user, app, table)
  {
    Query.UnlimitedListsAll(keys, top);
    forall k | k in pulled ensures exists i :: 0 <= i < |records| && records[i].0 == k.record {
      assert k.record in keys && k.record in Elements(top);
      var i :| 0 <= i < |top| && top[i] == k.record;
      assert records[i].0 == k.record;
    }
  }

  lemma SecondsOrder(a: int, b: int)
    requires a <= b
    ensures a / TICKS <= b / TICKS
  {
  }
}
