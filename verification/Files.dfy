/**
 Result files of generation tasks: rows plus the disk they describe
 (internal/service/generation_file.go, and the resumable download of
 `finalizeSucceeded` in internal/service/async_runner.go).
 */
module Files {
  import opened Common

  /** What the upstream says about one produced file. */
  datatype Media = Media(kind: string, mime: string, url: string, durationMs: int, width: int, height: int)

  datatype FileRow = FileRow(id: string, task: string, user: string, path: string, media: Media)

  /** Rows in creation order, and the relative paths that exist on disk. */
  datatype Store = Store(rows: seq<FileRow>, disk: set<string>)

  /** How storing one file ends: stored, disk write failed, or row insert failed (file removed again or not). */
  datatype SaveOutcome = Saved | WriteFailed | RowFailed(removed: bool)

  /** What the outside world does while one media item is fetched and stored. */
  datatype Fetch = Fetch(reachable: bool, month: string, ext: string, id: string, save: SaveOutcome)

  /** Result of a multi-file download attempt. */
  datatype Download = Download(store: Store, ids: seq<string>, complete: bool)

  // ---------- file names ----------

  function Decimal(n: nat): string {
    if n < 10 then [('0' as int + n) as char] else Decimal(n / 10) + [('0' as int + n % 10) as char]
  }

  lemma {:induction false} DecimalInjective(a: nat, b: nat)
    requires Decimal(a) == Decimal(b)
    ensures a == b
  {
    var x, y := Decimal(a), Decimal(b);
    assert x[|x| - 1] == y[|y| - 1];
    assert x[..|x| - 1] == y[..|y| - 1];
    if a >= 10 && b >= 10 {
      assert x[..|x| - 1] == Decimal(a / 10) && y[..|y| - 1] == Decimal(b / 10);
      DecimalInjective(a / 10, b / 10);
    } else if a >= 10 {
      assert x[..|x| - 1] == Decimal(a / 10);
    } else if b >= 10 {
      assert y[..|y| - 1] == Decimal(b / 10);
    }
  }

  /** `{base}{ext}` first, then `{base}-1{ext}`, `{base}-2{ext}`, ... */
  function FileName(base: string, suffix: nat, ext: string): string {
    if suffix == 0 then base + ext else base + "-" + Decimal(suffix) + ext
  }

  lemma FileNameInjective(base: string, a: nat, b: nat, ext: string)
    requires FileName(base, a, ext) == FileName(base, b, ext)
    ensures a == b
  {
    var x, y := FileName(base, a, ext), FileName(base, b, ext);
    if a > 0 && b > 0 {
      assert x == (base + "-") + Decimal(a) + ext && y == (base + "-") + Decimal(b) + ext;
      assert Decimal(a) == x[|base| + 1..|x| - |ext|] == y[|base| + 1..|y| - |ext|] == Decimal(b);
      DecimalInjective(a, b);
    }
  }

  /** All names with a smaller suffix are taken; each takes its own place on the disk. */
  lemma {:induction false} TakenNames(disk: set<string>, base: string, ext: string, suffix: nat)
    requires forall k :: 0 <= k < suffix ==> FileName(base, k, ext) in disk
    ensures suffix <= |disk|
  {
    if suffix > 0 {
      var last := FileName(base, suffix - 1, ext);
      forall k | 0 <= k < suffix - 1 ensures FileName(base, k, ext) in disk - {last} {
        if FileName(base, k, ext) == last {
          FileNameInjective(base, k, suffix - 1, ext);
        }
      }
      TakenNames(disk - {last}, base, ext, suffix - 1);
    }
  }

  /** The first suffix whose name is free. The search ends: a finite disk cannot hold every name. */
  function FirstFree(disk: set<string>, base: string, ext: string, suffix: nat): (free: nat)
    requires forall k :: 0 <= k < suffix ==> FileName(base, k, ext) in disk
    ensures FileName(base, free, ext) !in disk
    ensures forall k :: 0 <= k < free ==> FileName(base, k, ext) in disk
    decreases |disk| + 1 - suffix
  {
    TakenNames(disk, base, ext, suffix);
    if FileName(base, suffix, ext) in disk then FirstFree(disk, base, ext, suffix + 1) else suffix
  }

  // ---------- storing ----------

  function BasePath(month: string, user: string, task: string): string {
    month + "/" + user + "/" + task
  }

  /** One `SaveResult`: the new row, or nothing. */
  function Save(s: Store, task: string, user: string, media: Media, f: Fetch): (r: (Store, Option<FileRow>)) {
    var base := BasePath(f.month, user, task);
    var path := FileName(base, FirstFree(s.disk, base, f.ext, 0), f.ext);
    var row := FileRow(f.id, task, user, path, media);
    match f.save
    case Saved => (Store(s.rows + [row], s.disk + {path}), Some(row))
    case WriteFailed => (s, None)
    case RowFailed(removed) => (if removed then s else s.(disk := s.disk + {path}), None)
  }

  /** `ListForTask`. */
  function RowsOf(rows: seq<FileRow>, task: string): seq<FileRow> {
    if rows == [] then []
    else
      var last := rows[|rows| - 1];
      RowsOf(rows[..|rows| - 1], task) + if last.task == task then [last] else []
  }

  function Ids(rows: seq<FileRow>): seq<string> {
    if rows == [] then [] else Ids(rows[..|rows| - 1]) + [rows[|rows| - 1].id]
  }

  /** Fetch and store `media[from..]`, stopping at the first item that fails. */
  function SaveFrom(s: Store, task: string, user: string, media: seq<Media>, world: nat -> Fetch,
                    from: nat, ids: seq<string>): Download
    decreases |media| - from
  {
    if from >= |media| then Download(s, ids, true)
    else if !world(from).reachable then Download(s, ids, false)
    else
      var saved := Save(s, task, user, media[from], world(from));
      if saved.1.None? then Download(saved.0, ids, false)
      else SaveFrom(saved.0, task, user, media, world, from + 1, ids + [saved.1.value.id])
  }

  /** A whole attempt: keep what earlier attempts stored, fetch only the rest. */
  function Attempt(s: Store, task: string, user: string, media: seq<Media>, world: nat -> Fetch): Download {
    var existing := RowsOf(s.rows, task);
    var resume := if |existing| > |media| then |media| else |existing|;
    SaveFrom(s, task, user, media, world, resume, Ids(existing[..resume]))
  }

  function Attempts(s: Store, task: string, user: string, media: seq<Media>, worlds: seq<nat -> Fetch>): Store {
    if worlds == [] then s
    else Attempt(Attempts(s, task, user, media, worlds[..|worlds| - 1]), task, user, media, worlds[|worlds| - 1]).store
  }

  // ---------- main results ----------

  /** The rows of a task describe the first media items, in order. */
  predicate IsPrefix(s: Store, task: string, media: seq<Media>) {
    var rows := RowsOf(s.rows, task);
    |rows| <= |media| && forall i :: 0 <= i < |rows| ==> rows[i].media == media[i]
  }

  lemma RowsSnoc(rows: seq<FileRow>, row: FileRow, task: string)
    ensures RowsOf(rows + [row], task) == RowsOf(rows, task) + if row.task == task then [row] else []
  {
    assert (rows + [row])[..|rows|] == rows;
  }

  /** What one attempt may do to the store: append rows for the next media items, and report them all. */
  ghost predicate Extends(s: Store, task: string, media: seq<Media>, d: Download) {
    && IsPrefix(d.store, task, media)
    && s.rows <= d.store.rows
    && s.disk <= d.store.disk
    && RowsOf(s.rows, task) <= RowsOf(d.store.rows, task)
    && d.ids == Ids(RowsOf(d.store.rows, task))
    && (d.complete <==> |RowsOf(d.store.rows, task)| == |media|)
  }

  lemma {:induction false} SaveFromExtends(
    s: Store, task: string, user: string, media: seq<Media>, world: nat -> Fetch, from: nat, ids: seq<string>)
    requires IsPrefix(s, task, media) && from == |RowsOf(s.rows, task)| && ids == Ids(RowsOf(s.rows, task))
    ensures Extends(s, task, media, SaveFrom(s, task, user, media, world, from, ids))
    decreases |media| - from
  {
    if from < |media| && world(from).reachable && world(from).save == Saved {
      var saved := Save(s, task, user, media[from], world(from));
      var ids' := ids + [saved.1.value.id];
      SaveExtends(s, task, user, media, world(from));
      SaveFromExtends(saved.0, task, user, media, world, from + 1, ids');
      ExtendsTransitive(s, saved.0, task, media, SaveFrom(saved.0, task, user, media, world, from + 1, ids'));
    } else {
      SaveFromStops(s, task, user, media, world, from, ids);
    }
  }

  /** The download goes through exactly if every item still missing is fetched, written and recorded. */
  lemma AttemptCompletes(s: Store, task: string, user: string, media: seq<Media>, world: nat -> Fetch)
    ensures Attempt(s, task, user, media, world).complete
       <==> forall i :: |RowsOf(s.rows, task)| <= i < |media| ==> world(i).reachable && world(i).save == Saved
  {
    var existing := RowsOf(s.rows, task);
    var resume := if |existing| > |media| then |media| else |existing|;
    SaveFromCompletes(s, task, user, media, world, resume, Ids(existing[..resume]));
    AllStoredMeans(world, resume, |media|);
  }

  lemma SaveFromStops(
    s: Store, task: string, user: string, media: seq<Media>, world: nat -> Fetch, from: nat, ids: seq<string>)
    requires IsPrefix(s, task, media) && from == |RowsOf(s.rows, task)| && ids == Ids(RowsOf(s.rows, task))
    requires from < |media| ==> !world(from).reachable || world(from).save != Saved
    ensures Extends(s, task, media, SaveFrom(s, task, user, media, world, from, ids))
  {
    assert SaveFrom(s, task, user, media, world, from, ids).store.rows == s.rows;
  }

  /** Every item from here on is fetched, written and recorded. */
  predicate AllStored(world: nat -> Fetch, from: nat, n: nat)
    decreases n - from
  {
    from >= n || (world(from).reachable && world(from).save == Saved && AllStored(world, from + 1, n))
  }

  lemma {:induction false} AllStoredMeans(world: nat -> Fetch, from: nat, n: nat)
    ensures AllStored(world, from, n) <==> forall i :: from <= i < n ==> world(i).reachable && world(i).save == Saved
    decreases n - from
  {
    if from < n {
      AllStoredMeans(world, from + 1, n);
    }
  }

  lemma {:induction false} SaveFromCompletes(
    s: Store, task: string, user: string, media: seq<Media>, world: nat -> Fetch, from: nat, ids: seq<string>)
    ensures SaveFrom(s, task, user, media, world, from, ids).complete <==> AllStored(world, from, |media|)
    decreases |media| - from
  {
    if from < |media| && world(from).reachable && world(from).save == Saved {
      var saved := Save(s, task, user, media[from], world(from));
      SaveFromCompletes(saved.0, task, user, media, world, from + 1, ids + [saved.1.value.id]);
    }
  }

  lemma SaveExtends(s: Store, task: string, user: string, media: seq<Media>, f: Fetch)
    requires IsPrefix(s, task, media) && |RowsOf(s.rows, task)| < |media|
    ensures var rows := RowsOf(s.rows, task);
      var saved := Save(s, task, user, media[|rows|], f);
      saved.1.Some? ==>
        && s.rows <= saved.0.rows && s.disk <= saved.0.disk && rows <= RowsOf(saved.0.rows, task)
        && RowsOf(saved.0.rows, task) == rows + [saved.1.value]
        && IsPrefix(saved.0, task, media)
        && Ids(RowsOf(saved.0.rows, task)) == Ids(rows) + [saved.1.value.id]
  {
    var saved := Save(s, task, user, media[|RowsOf(s.rows, task)|], f);
    if saved.1.Some? {
      RowsSnoc(s.rows, saved.1.value, task);
      var rows := RowsOf(s.rows, task);
      assert (rows + [saved.1.value])[..|rows|] == rows;
    }
  }

  lemma ExtendsTransitive(s: Store, mid: Store, task: string, media: seq<Media>, d: Download)
    requires s.rows <= mid.rows && s.disk <= mid.disk && RowsOf(s.rows, task) <= RowsOf(mid.rows, task)
    requires Extends(mid, task, media, d)
    ensures Extends(s, task, media, d)
  {
  }

  /**
   Any number of attempts, each failing wherever it likes: the rows stored are always a prefix of
   the media in media order, and nothing stored is ever fetched again.
   */
  lemma {:induction false} AttemptsKeepPrefix(s: Store, task: string, user: string, media: seq<Media>, worlds: seq<nat -> Fetch>)
    requires IsPrefix(s, task, media)
    ensures var s' := Attempts(s, task, user, media, worlds);
      && IsPrefix(s', task, media)
      && s.rows <= s'.rows
      && RowsOf(s.rows, task) <= RowsOf(s'.rows, task)
  {
    if worlds != [] {
      var before := Attempts(s, task, user, media, worlds[..|worlds| - 1]);
      AttemptsKeepPrefix(s, task, user, media, worlds[..|worlds| - 1]);
      var existing := RowsOf(before.rows, task);
      assert existing[..|existing|] == existing;
      SaveFromExtends(before, task, user, media, worlds[|worlds| - 1], |existing|, Ids(existing));
    }
  }

  /**
   One attempt: it goes through exactly if every item without a row yet is fetched, written and recorded,
   and then reports one id per item, in order. What was stored stays either way.
   */
  lemma AttemptLaw(s: Store, task: string, user: string, media: seq<Media>, world: nat -> Fetch)
    requires IsPrefix(s, task, media)
    ensures var d := Attempt(s, task, user, media, world);
      var had, rows := RowsOf(s.rows, task), RowsOf(d.store.rows, task);
      && (d.complete <==> forall i :: |had| <= i < |media| ==> world(i).reachable && world(i).save == Saved)
      && had <= rows && |d.ids| == |rows| <= |media| && (d.complete ==> |rows| == |media|)
      && forall i :: 0 <= i < |rows| ==> rows[i].media == media[i] && d.ids[i] == rows[i].id
  {
    var existing := RowsOf(s.rows, task);
    assert existing[..|existing|] == existing;
    SaveFromExtends(s, task, user, media, world, |existing|, Ids(existing));
    AttemptCompletes(s, task, user, media, world);
    IdsAreRowIds(RowsOf(Attempt(s, task, user, media, world).store.rows, task));
  }

  /** The attempt that completes returns one file per media item, in order, whichever attempt stored it. */
  lemma CompletedAttemptIsExact(
    s: Store, task: string, user: string, media: seq<Media>, worlds: seq<nat -> Fetch>, world: nat -> Fetch)
    requires RowsOf(s.rows, task) == []
    ensures var d := Attempt(Attempts(s, task, user, media, worlds), task, user, media, world);
      var rows := RowsOf(d.store.rows, task);
      d.complete ==>
        && |rows| == |d.ids| == |media|
        && forall i :: 0 <= i < |media| ==> rows[i].media == media[i] && d.ids[i] == rows[i].id
  {
    AttemptsKeepPrefix(s, task, user, media, worlds);
    var before := Attempts(s, task, user, media, worlds);
    var existing := RowsOf(before.rows, task);
    assert existing[..|existing|] == existing;
    SaveFromExtends(before, task, user, media, world, |existing|, Ids(existing));
    IdsAreRowIds(RowsOf(Attempt(before, task, user, media, world).store.rows, task));
  }

  /** A first attempt. */
  lemma FreshAttempt(s: Store, task: string, user: string, media: seq<Media>, world: nat -> Fetch)
    ensures var d := Attempt(s, task, user, media, world);
      var rows := RowsOf(d.store.rows, task);
      RowsOf(s.rows, task) == [] && d.complete ==>
        && |rows| == |d.ids| == |media|
        && forall i :: 0 <= i < |media| ==> rows[i].media == media[i] && d.ids[i] == rows[i].id
  {
    if RowsOf(s.rows, task) == [] {
      CompletedAttemptIsExact(s, task, user, media, [], world);
      assert Attempts(s, task, user, media, []) == s;
    }
  }

  lemma {:induction false} IdsAreRowIds(rows: seq<FileRow>)
    ensures |Ids(rows)| == |rows|
    ensures forall i :: 0 <= i < |rows| ==> Ids(rows)[i] == rows[i].id
  {
    if rows != [] {
      IdsAreRowIds(rows[..|rows| - 1]);
    }
  }

  /** Rows of other tasks are not disturbed, and every stored row's file is on disk under a path of its own. */
  ghost predicate Backed(s: Store) {
    && (forall i :: 0 <= i < |s.rows| ==> s.rows[i].path in s.disk)
    && (forall i, j :: 0 <= i < j < |s.rows| ==> s.rows[i].path != s.rows[j].path)
  }

  lemma {:induction false} SaveFromKeepsBacked(
    s: Store, task: string, user: string, media: seq<Media>, world: nat -> Fetch, from: nat, ids: seq<string>, other: string)
    requires Backed(s) && other != task
    ensures var d := SaveFrom(s, task, user, media, world, from, ids);
      Backed(d.store) && RowsOf(d.store.rows, other) == RowsOf(s.rows, other)
    decreases |media| - from
  {
    if from < |media| && world(from).reachable {
      var saved := Save(s, task, user, media[from], world(from));
      SaveKeepsBacked(s, task, user, media[from], world(from), other);
      if saved.1.Some? {
        SaveFromKeepsBacked(saved.0, task, user, media, world, from + 1, ids + [saved.1.value.id], other);
      }
    }
  }

  lemma {:induction false} SaveFromKeepsOthers(
    s: Store, task: string, user: string, media: seq<Media>, world: nat -> Fetch, from: nat, ids: seq<string>, other: string)
    requires other != task
    ensures RowsOf(SaveFrom(s, task, user, media, world, from, ids).store.rows, other) == RowsOf(s.rows, other)
    decreases |media| - from
  {
    if from < |media| && world(from).reachable && world(from).save == Saved {
      var saved := Save(s, task, user, media[from], world(from));
      RowsSnoc(s.rows, saved.1.value, other);
      SaveFromKeepsOthers(saved.0, task, user, media, world, from + 1, ids + [saved.1.value.id], other);
    }
  }

  lemma AttemptKeepsOthers(s: Store, task: string, user: string, media: seq<Media>, world: nat -> Fetch, other: string)
    requires other != task
    ensures RowsOf(Attempt(s, task, user, media, world).store.rows, other) == RowsOf(s.rows, other)
  {
    var existing := RowsOf(s.rows, task);
    var resume := if |existing| > |media| then |media| else |existing|;
    SaveFromKeepsOthers(s, task, user, media, world, resume, Ids(existing[..resume]), other);
  }

  lemma SaveKeepsBacked(s: Store, task: string, user: string, media: Media, f: Fetch, other: string)
    requires Backed(s) && other != task
    ensures var saved := Save(s, task, user, media, f).0; Backed(saved) && RowsOf(saved.rows, other) == RowsOf(s.rows, other)
  {
    var saved := Save(s, task, user, media, f);
    if saved.1.Some? {
      RowsSnoc(s.rows, saved.1.value, other);
    }
  }

  /**
   One stored file: it lies under the month and the owner, named after the task, with the first suffix
   that is free; its row carries what upstream said. A failed write leaves nothing, a failed row insert at
   most the file.
   */
  lemma SavedFile(s: Store, task: string, user: string, media: Media, f: Fetch) returns (k: nat)
    ensures var r, base := Save(s, task, user, media, f), f.month + "/" + user + "/" + task;
            var path := if k == 0 then base + f.ext else base + "-" + Decimal(k) + f.ext;
      && path !in s.disk
      && match f.save
         case Saved =>
           var row := FileRow(f.id, task, user, path, media);
           r == (Store(s.rows + [row], s.disk + {path}), Some(row))
         case WriteFailed => r == (s, None)
         case RowFailed(removed) => r == (if removed then s else Store(s.rows, s.disk + {path}), None)
    ensures var base := f.month + "/" + user + "/" + task;
            forall j :: 0 < j < k ==> base + "-" + Decimal(j) + f.ext in s.disk
    ensures k > 0 ==> f.month + "/" + user + "/" + task + f.ext in s.disk
  {
    var base := f.month + "/" + user + "/" + task;
    k := FirstFree(s.disk, base, f.ext, 0);
    forall j | 0 < j < k ensures base + "-" + Decimal(j) + f.ext in s.disk {
      assert FileName(base, j, f.ext) in s.disk;
    }
    if k > 0 {
      assert FileName(base, 0, f.ext) in s.disk;
    }
  }

  // ---------- deletion ----------

  /** Where deleting a task's files stops: never, at row `at` before or after its disk file is gone. */
  datatype DeleteFault = NoFault | DiskFault(at: nat) | RowFault(at: nat)

  function RemoveRow(rows: seq<FileRow>, id: string): seq<FileRow> {
    if rows == [] then []
    else RemoveRow(rows[..|rows| - 1], id) + if rows[|rows| - 1].id == id then [] else [rows[|rows| - 1]]
  }

  function DeleteRows(s: Store, doomed: seq<FileRow>, fault: DeleteFault, at: nat): (Store, bool)
    decreases |doomed| - at
  {
    if at >= |doomed| then (s, true)
    else if fault == DiskFault(at) then (s, false)
    else
      var gone := s.(disk := s.disk - {doomed[at].path});
      if fault == RowFault(at) then (gone, false)
      else DeleteRows(gone.(rows := RemoveRow(gone.rows, doomed[at].id)), doomed, fault, at + 1)
  }

  function DeleteForTask(s: Store, task: string, fault: DeleteFault): (Store, bool) {
    DeleteRows(s, RowsOf(s.rows, task), fault, 0)
  }

  lemma {:induction false} RemoveRowMembers(rows: seq<FileRow>, id: string, row: FileRow)
    ensures row in RemoveRow(rows, id) <==> row in rows && row.id != id
  {
    if rows != [] {
      RemoveRowMembers(rows[..|rows| - 1], id, row);
      assert rows == rows[..|rows| - 1] + [rows[|rows| - 1]];
    }
  }

  lemma {:induction false} RowsOfMembers(rows: seq<FileRow>, task: string, row: FileRow)
    ensures row in RowsOf(rows, task) <==> row in rows && row.task == task
  {
    if rows != [] {
      RowsOfMembers(rows[..|rows| - 1], task, row);
      assert rows == rows[..|rows| - 1] + [rows[|rows| - 1]];
    }
  }

  /** How many of so many rows go before a fault stops the clean-up. */
  function Gone(fault: DeleteFault, n: nat): nat {
    match fault
    case NoFault => n
    case DiskFault(at) => if at < n then at else n
    case RowFault(at) => if at < n then at else n
  }

  /** And how many files: a row that cannot be deleted has lost its file already. */
  function GoneFiles(fault: DeleteFault, n: nat): nat {
    if fault.RowFault? && fault.at < n then fault.at + 1 else Gone(fault, n)
  }

  lemma {:induction false} DeleteRowsMembers(s: Store, doomed: seq<FileRow>, fault: DeleteFault, at: nat, row: FileRow)
    requires at <= Gone(fault, |doomed|)
    ensures var d := DeleteRows(s, doomed, fault, at);
      && (d.1 <==> Gone(fault, |doomed|) == |doomed|)
      && (row in d.0.rows <==> row in s.rows && forall i :: at <= i < Gone(fault, |doomed|) ==> doomed[i].id != row.id)
      && d.0.disk == s.disk - (set i | at <= i < GoneFiles(fault, |doomed|) :: doomed[i].path)
    decreases |doomed| - at
  {
    if at < Gone(fault, |doomed|) {
      var next := Store(RemoveRow(s.rows, doomed[at].id), s.disk - {doomed[at].path});
      DeleteRowsMembers(next, doomed, fault, at + 1, row);
      RemoveRowMembers(s.rows, doomed[at].id, row);
      assert (set i | at <= i < GoneFiles(fault, |doomed|) :: doomed[i].path)
          == {doomed[at].path} + (set i | at + 1 <= i < GoneFiles(fault, |doomed|) :: doomed[i].path);
    } else if at < |doomed| {
      assert (set i | at <= i < GoneFiles(fault, |doomed|) :: doomed[i].path)
          == if fault.RowFault? then {doomed[at].path} else {};
    }
  }

  /** A fault-free clean-up leaves no row of the task. */
  lemma DeleteForTaskLeavesNone(s: Store, task: string)
    ensures var d := DeleteForTask(s, task, NoFault);
      d.1 && RowsOf(d.0.rows, task) == []
  {
    var doomed, d := RowsOf(s.rows, task), DeleteForTask(s, task, NoFault).0;
    var left := RowsOf(d.rows, task);
    DeleteRowsMembers(s, doomed, NoFault, 0, FileRow("", "", "", "", Media("", "", "", 0, 0, 0)));
    if left != [] {
      var row := left[0];
      RowsOfMembers(d.rows, task, row);
      DeleteRowsMembers(s, doomed, NoFault, 0, row);
      RowsOfMembers(s.rows, task, row);
    }
  }

  /** A fault-free clean-up removes the task's rows and no other (row ids are unique), and no other row's file. */
  lemma DeleteForTaskExact(s: Store, task: string, row: FileRow)
    requires forall i, j :: 0 <= i < j < |s.rows| ==> s.rows[i].id != s.rows[j].id
    requires Backed(s)
    ensures var d := DeleteForTask(s, task, NoFault).0;
      && (row in d.rows <==> row in s.rows && row.task != task)
      && (row in d.rows ==> row.path in d.disk)
  {
    var doomed := RowsOf(s.rows, task);
    DeleteRowsMembers(s, doomed, NoFault, 0, row);
    RowsOfMembers(s.rows, task, row);
    forall i | 0 <= i < |doomed|
      ensures doomed[i] in s.rows && doomed[i].task == task
    {
      RowsOfMembers(s.rows, task, doomed[i]);
    }
    if row in s.rows && row.task != task {
      forall i | 0 <= i < |doomed| ensures doomed[i].id != row.id && doomed[i].path != row.path {
        DistinctRowsDiffer(s, doomed[i], row);
      }
    }
  }

  /**
   A clean-up that fails at its k-th row has removed exactly the task's first k rows, oldest first, with
   their files, and also the file of the row it could not delete; it reports the failure.
   */
  lemma FaultyCleanUp(s: Store, task: string, fault: DeleteFault, row: FileRow)
    requires forall i, j :: 0 <= i < j < |s.rows| ==> s.rows[i].id != s.rows[j].id
    requires fault != NoFault && fault.at < |RowsOf(s.rows, task)|
    ensures var d, doomed := DeleteForTask(s, task, fault), RowsOf(s.rows, task);
      && !d.1
      && (row in d.0.rows <==> row in s.rows && row !in doomed[..fault.at])
      && d.0.disk == s.disk - (set i | 0 <= i < fault.at + (if fault.RowFault? then 1 else 0) :: doomed[i].path)
  {
    var doomed := RowsOf(s.rows, task);
    DeleteRowsMembers(s, doomed, fault, 0, row);
    if row in s.rows {
      forall i | 0 <= i < fault.at ensures doomed[i].id == row.id <==> doomed[i] == row {
        RowsOfMembers(s.rows, task, doomed[i]);
        if doomed[i].id == row.id {
          SameIdSameRow(s.rows, doomed[i], row);
        }
      }
      assert row in doomed[..fault.at] <==> exists i :: 0 <= i < fault.at && doomed[i] == row;
    }
  }

  lemma SameIdSameRow(rows: seq<FileRow>, a: FileRow, b: FileRow)
    requires forall i, j :: 0 <= i < j < |rows| ==> rows[i].id != rows[j].id
    requires a in rows && b in rows && a.id == b.id
    ensures a == b
  {
  }

  lemma DistinctRowsDiffer(s: Store, a: FileRow, b: FileRow)
    requires forall i, j :: 0 <= i < j < |s.rows| ==> s.rows[i].id != s.rows[j].id
    requires Backed(s) && a in s.rows && b in s.rows && a != b
    ensures a.id != b.id && a.path != b.path
  {
    var i :| 0 <= i < |s.rows| && s.rows[i] == a;
    var j :| 0 <= j < |s.rows| && s.rows[j] == b;
    assert i < j || j < i;
  }

  // ---------- the service ----------

  class FileService {
    var rows: seq<FileRow>
    var disk: set<string>

    constructor ()
      ensures S() == Store([], {})
    {
      rows, disk := [], {};
    }

    ghost function S(): Store
      reads this
    {
      Store(rows, disk)
    }

    method SaveResult(task: string, user: string, media: Media, f: Fetch) returns (row: Option<FileRow>)
      modifies this
      ensures (S(), row) == Save(old(S()), task, user, media, f)
      ensures row.Some? ==> row.value.path !in old(disk) && row.value.path in disk
    {
      var base := BasePath(f.month, user, task);
      var path, suffix := base + f.ext, 0;
      while path in disk
        invariant S() == old(S())
        invariant path == FileName(base, suffix, f.ext)
        invariant forall k :: 0 <= k < suffix ==> FileName(base, k, f.ext) in disk
        invariant FirstFree(disk, base, f.ext, 0) == FirstFree(disk, base, f.ext, suffix)
        decreases |disk| + 1 - suffix
      {
        TakenNames(disk, base, f.ext, suffix);
        suffix := suffix + 1;
        path := base + "-" + Decimal(suffix) + f.ext;
        TakenNames(disk, base, f.ext, suffix);
      }
      if f.save == WriteFailed {
        return None;
      }
      ghost var before := disk;
      disk := disk + {path};
      if f.save.RowFailed? {
        if f.save.removed {
          disk := disk - {path};
          assert disk == before;
        }
        return None;
      }
      rows := rows + [FileRow(f.id, task, user, path, media)];
      return Some(rows[|rows| - 1]);
    }

    /** The download loop of `finalizeSucceeded`. */
    method FetchMissing(task: string, user: string, media: seq<Media>, world: nat -> Fetch)
      returns (ids: seq<string>, complete: bool)
      modifies this
      ensures Download(S(), ids, complete) == Attempt(old(S()), task, user, media, world)
    {
      var existing := RowsOf(rows, task);
      var resume := |existing|;
      if resume > |media| {
        resume := |media|;
      }
      ids := Ids(existing[..resume]);
      ids, complete := FetchFrom(task, user, media, world, resume, ids);
    }

    method FetchFrom(task: string, user: string, media: seq<Media>, world: nat -> Fetch, resume: nat, had: seq<string>)
      returns (ids: seq<string>, complete: bool)
      requires resume <= |media|
      modifies this
      ensures Download(S(), ids, complete) == SaveFrom(old(S()), task, user, media, world, resume, had)
    {
      ids := had;
      var i := resume;
      while i < |media|
        invariant resume <= i <= |media|
        invariant SaveFrom(S(), task, user, media, world, i, ids) == SaveFrom(old(S()), task, user, media, world, resume, had)
      {
        if !world(i).reachable {
          return ids, false;
        }
        var row := SaveResult(task, user, media[i], world(i));
        if row.None? {
          return ids, false;
        }
        ids := ids + [row.value.id];
        i := i + 1;
      }
      return ids, true;
    }

    method DeleteTaskFiles(task: string, fault: DeleteFault) returns (ok: bool)
      modifies this
      ensures (S(), ok) == DeleteForTask(old(S()), task, fault)
    {
      var doomed := RowsOf(rows, task);
      var i := 0;
      while i < |doomed|
        invariant 0 <= i <= |doomed|
        invariant DeleteRows(S(), doomed, fault, i) == DeleteForTask(old(S()), task, fault)
      {
        if fault == DiskFault(i) {
          return false;
        }
        disk := disk - {doomed[i].path};
        if fault == RowFault(i) {
          return false;
        }
        rows := RemoveRow(rows, doomed[i].id);
        i := i + 1;
      }
      return true;
    }
  }
}
