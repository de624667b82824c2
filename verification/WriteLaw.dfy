/**
 When a table row may be written, what a write leaves and what a pull then answers
 (internal/handler/data_sync.go).
 */
module WriteLaw {
  import opened Common
  import opened DataSyncLaw
  import opened TextLaw
  import Versions

  /** The row to be written is unknown, or no version is sent, or the stored one is no newer than the one sent. */
  predicate MayWrite(rows: Rows, k: Key, version: int) {
    k !in rows || version <= 0 || rows[k].version <= version
  }

  /**
   A write goes through exactly if it may; the row then holds the data with the next version, 1 if it is
   new, and no other row changes. A refused write changes nothing and answers what the server has.
   */
  lemma PutIff(rows: Rows, k: Key, data: string, version: int, deleted: bool, at: int)
    ensures var op := Put(k, data, version, deleted, at);
            var next := if k in rows then rows[k].version + 1 else 1;
      if MayWrite(rows, k, version) then
        Apply(rows, op) == rows[k := Row(data, next, deleted, at)] && OutcomeOf(rows, op) == Saved(next)
      else Apply(rows, op) == rows && OutcomeOf(rows, op) == Conflict(rows[k].version, rows[k].data)
  {
  }

  /** A delete leaves the data, marked, with the next version; of a row that is not there it changes nothing. */
  lemma RemoveIff(rows: Rows, k: Key, at: int)
    ensures var op := Remove(k, at);
      if k in rows then
        && Apply(rows, op) == rows[k := Row(rows[k].data, rows[k].version + 1, true, at)]
        && OutcomeOf(rows, op) == Saved(rows[k].version + 1)
      else Apply(rows, op) == rows && OutcomeOf(rows, op) == NotFound
  {
  }

  /** A write without a version always goes through, in every reachable state and for every record. */
  lemma UnversionedWins(ops: seq<Op>, k: Key, data: string, deleted: bool, at: int)
    ensures var rows := Run(map[], ops);
            var op := Put(k, data, 0, deleted, at);
      && OutcomeOf(rows, op) == Saved(Writes(map[], ops, k) + 1)
      && Run(map[], ops + [op]) == rows[k := Row(data, Writes(map[], ops, k) + 1, deleted, at)]
  {
    VersionCountsWrites(map[], ops, k);
    RunSnoc(map[], ops, Put(k, data, 0, deleted, at));
  }

  /** Rows of other records are never touched. */
  lemma {:induction false} OthersStay(rows: Rows, ops: seq<Op>, k: Key)
    requires forall i :: 0 <= i < |ops| ==> ops[i].k != k
    ensures k in Run(rows, ops) <==> k in rows
    ensures k in rows ==> Run(rows, ops)[k] == rows[k]
  {
    if ops != [] {
      OthersStay(rows, ops[..|ops| - 1], k);
    }
  }

  // ---------- names ----------

  predicate InRange(c: char, low: char, high: char) {
    low <= c <= high
  }

  /** A name has one to a hundred characters: letters, digits, `_`, `.` and `-`. */
  lemma IdentifierIff(name: string)
    ensures ValidIdentifier(name) <==> 1 <= |name| <= 100 && forall i :: 0 <= i < |name| ==> Spelling(name[i])
  {
  }

  predicate Spelling(c: char) {
    InRange(c, 'A', 'Z') || InRange(c, 'a', 'z') || InRange(c, '0', '9') || c in {'_', '.', '-'}
  }

  // ---------- pulls ----------

  /**
   A pull answers exactly the rows of the user and application, of one table or all, changed later than
   the start of the second asked for, each with its version, its mark and the second of its last change.
   */
  lemma PullIs(rows: Rows, scope: Scope, since: Option<int>, k: Key)
    ensures var pulled := Pull(rows, scope, since);
      && (k in pulled <==>
            && k in rows && k.user == scope.user && k.app == scope.app && (scope.table.Some? ==> k.table == scope.table.value)
            && (since.Some? ==> rows[k].updatedAt > since.value * 1_000_000_000))
      && (k in pulled ==>
            pulled[k] == Item(rows[k].data, rows[k].version, rows[k].deleted, rows[k].updatedAt / 1_000_000_000))
  {
  }

  /** The write a batch entry asks for: the record's name without the blanks around it, everything else as sent. */
  lemma EntryIs(user: string, app: string, table: string, e: Entry, at: int, left: string, record: string, right: string)
    requires e.record == left + record + right && Blank(left) && Blank(right) && Tight(record)
    ensures PutOf(user, app, table, e, at) == Put(Key(user, app, table, record), e.data, e.version, e.deleted, at)
  {
    TrimIs(left, record, right);
  }

  /** The writes of a batch: one for each entry, in order. */
  lemma {:induction false} PutsAre(user: string, app: string, table: string, entries: seq<Entry>, at: int)
    ensures var ops := Puts(user, app, table, entries, at);
      && |ops| == |entries|
      && forall i :: 0 <= i < |entries| ==>
           ops[i] == Put(Key(user, app, table, Versions.Trim(entries[i].record)), entries[i].data, entries[i].version,
                         entries[i].deleted, at)
  {
    if entries != [] {
      PutsAre(user, app, table, entries[..|entries| - 1], at);
    }
  }
}
