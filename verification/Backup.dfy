/**
 Backup versions per user, application and data type (internal/handler/client_sync.go): append,
 prune to ten, switch the current version, pull. An application belongs to one tenant, `tenantOf`.
 */
module BackupLaw {
  import opened Common
  import SensitiveJson

  datatype Group = Group(user: string, app: string, dataType: string)

  /** A data text: a tree when it parses as JSON. */
  datatype Document = Tree(json: SensitiveJson.Json) | Unparsed(text: string)

  datatype Row = Row(group: Group, tenant: string, version: int, current: bool, document: Document)

  /** Backup id to row; soft-deleted rows are out of every query and so out of the map. */
  type Rows = map<string, Row>

  const MAX_SYNC_VERSIONS := 10

  const AI_CONFIG := "ai_config"
  const RANDOM_WORD_AI_CONFIG := "random_word_ai_config"

  predicate ValidType(dataType: string) {
    dataType in {"scripts", "danmaku_groups", AI_CONFIG, RANDOM_WORD_AI_CONFIG}
  }

  predicate HoldsSecrets(dataType: string) {
    dataType == AI_CONFIG || dataType == RANDOM_WORD_AI_CONFIG
  }

  // ---------- operations ----------

  function Members(rows: Rows, g: Group): set<string> {
    set id | id in rows && rows[id].group == g
  }

  /** A bound on the versions of a group, as a set of ids: the strictly newer ones. */
  function Newer(rows: Rows, g: Group, version: int): set<string> {
    set id | id in rows && rows[id].group == g && rows[id].version > version
  }

  /** `ORDER BY version DESC` puts it first; 0 for an empty group. */
  ghost predicate IsMaxVersion(rows: Rows, g: Group, max: int) {
    && (forall id :: id in Members(rows, g) ==> rows[id].version <= max)
    && (if Members(rows, g) == {} then max == 0 else exists id :: id in Members(rows, g) && rows[id].version == max)
  }

  function Uncurrent(rows: Rows, g: Group): Rows {
    map id | id in rows :: if rows[id].group == g then rows[id].(current := false) else rows[id]
  }

  function Append(rows: Rows, id: string, g: Group, tenant: string, version: int, document: Document): Rows {
    Uncurrent(rows, g)[id := Row(g, tenant, version, true, document)]
  }

  /** Delete all but the ten newest of the group, except where the delete fails. */
  function Prune(rows: Rows, g: Group, failed: set<string>): Rows {
    map id | id in rows && !Doomed(rows, g, failed, id) :: rows[id]
  }

  predicate Doomed(rows: Rows, g: Group, failed: set<string>, id: string)
    requires id in rows
  {
    rows[id].group == g && |Newer(rows, g, rows[id].version)| >= MAX_SYNC_VERSIONS && id !in failed
  }

  function SetCurrent(rows: Rows, id: string): Rows
    requires id in rows
  {
    map x | x in rows ::
      if x == id then rows[x].(current := true)
      else if rows[x].group == rows[id].group && rows[x].tenant == rows[id].tenant then rows[x].(current := false)
      else rows[x]
  }

  // ---------- runs ----------

  /** `version` is what the push assigned, `failed` the rows whose deletion failed. */
  datatype Step =
    | PushStep(id: string, g: Group, version: int, document: Document, failed: set<string>)
    | SwitchStep(id: string)

  ghost predicate Enabled(rows: Rows, step: Step) {
    match step
    case PushStep(id, g, version, _, _) => id !in rows && IsMaxVersion(rows, g, version - 1)
    case SwitchStep(id) => id in rows
  }

  function Apply(rows: Rows, step: Step, tenantOf: string -> string): Rows {
    match step
    case PushStep(id, g, version, document, failed) =>
      Prune(Append(rows, id, g, tenantOf(g.app), version, document), g, failed)
    case SwitchStep(id) => if id in rows then SetCurrent(rows, id) else rows
  }

  function Run(steps: seq<Step>, tenantOf: string -> string): Rows {
    if steps == [] then map[] else Apply(Run(steps[..|steps| - 1], tenantOf), steps[|steps| - 1], tenantOf)
  }

  ghost predicate RunEnabled(steps: seq<Step>, tenantOf: string -> string) {
    steps == [] ||
    (RunEnabled(steps[..|steps| - 1], tenantOf) && Enabled(Run(steps[..|steps| - 1], tenantOf), steps[|steps| - 1]))
  }

  lemma RunSnoc(steps: seq<Step>, step: Step, tenantOf: string -> string)
    ensures Run(steps + [step], tenantOf) == Apply(Run(steps, tenantOf), step, tenantOf)
    ensures RunEnabled(steps + [step], tenantOf) <==> RunEnabled(steps, tenantOf) && Enabled(Run(steps, tenantOf), step)
  {
    assert (steps + [step])[..|steps|] == steps;
  }

  /** Pushes to a group so far. */
  function Pushes(steps: seq<Step>, g: Group): nat {
    if steps == [] then 0
    else Pushes(steps[..|steps| - 1], g) + if steps[|steps| - 1].PushStep? && steps[|steps| - 1].g == g then 1 else 0
  }

  // ---------- the invariant of one group after n pushes ----------

  predicate Numbered(rows: Rows, g: Group, n: nat) {
    forall id :: id in Members(rows, g) ==> 1 <= rows[id].version <= n
  }

  predicate Unique(rows: Rows, g: Group) {
    forall a, b :: a in Members(rows, g) && b in Members(rows, g) && rows[a].version == rows[b].version ==> a == b
  }

  ghost predicate Has(rows: Rows, g: Group, version: int) {
    exists id :: id in Members(rows, g) && rows[id].version == version
  }

  /** The ten newest are always there. */
  ghost predicate NewestKept(rows: Rows, g: Group, n: nat) {
    forall v :: 1 <= v <= n && n - MAX_SYNC_VERSIONS < v ==> Has(rows, g, v)
  }

  ghost predicate OneCurrent(rows: Rows, g: Group) {
    Members(rows, g) != {} ==> exists id :: id in Members(rows, g) && OnlyCurrent(rows, g, id)
  }

  predicate OnlyCurrent(rows: Rows, g: Group, id: string) {
    forall x :: x in Members(rows, g) ==> (rows[x].current <==> x == id)
  }

  ghost predicate GroupOk(rows: Rows, g: Group, n: nat) {
    Numbered(rows, g, n) && Unique(rows, g) && NewestKept(rows, g, n) && OneCurrent(rows, g)
  }

  ghost predicate TenantsFit(rows: Rows, tenantOf: string -> string) {
    forall id :: id in rows ==> rows[id].tenant == tenantOf(rows[id].group.app)
  }

  // ---------- sizes ----------

  function Versions(rows: Rows, ids: set<string>): set<int>
    requires ids <= rows.Keys
  {
    set id | id in ids :: rows[id].version
  }

  lemma {:induction false} VersionsSize(rows: Rows, g: Group, ids: set<string>)
    requires Unique(rows, g) && ids <= Members(rows, g)
    ensures |Versions(rows, ids)| == |ids|
    decreases ids
  {
    if id :| id in ids {
      VersionsSize(rows, g, ids - {id});
      assert Versions(rows, ids) == Versions(rows, ids - {id}) + {rows[id].version};
      assert rows[id].version !in Versions(rows, ids - {id});
    }
  }

  /** The numbers lo..hi. */
  function Span(lo: int, hi: int): (r: set<int>)
    ensures forall v :: v in r <==> lo <= v <= hi
    ensures lo <= hi + 1 ==> |r| == hi - lo + 1
    decreases hi - lo
  {
    if lo > hi then {} else Span(lo, hi - 1) + {hi}
  }

  /** The ten newest of n numbers. */
  function Newest(n: nat): set<int> {
    Span(if n < MAX_SYNC_VERSIONS then 1 else n - MAX_SYNC_VERSIONS + 1, n)
  }

  /** Ten or more newer versions means: not one of the ten newest numbers. */
  lemma RankIsNumber(rows: Rows, g: Group, n: nat, version: int)
    requires Numbered(rows, g, n) && Unique(rows, g) && NewestKept(rows, g, n)
    requires 1 <= version <= n
    ensures |Newer(rows, g, version)| >= MAX_SYNC_VERSIONS <==> version <= n - MAX_SYNC_VERSIONS
  {
    var newer := Newer(rows, g, version);
    VersionsSize(rows, g, newer);
    if version <= n - MAX_SYNC_VERSIONS {
      var span := Span(n - MAX_SYNC_VERSIONS + 1, n);
      forall v | v in span ensures v in Versions(rows, newer) {
        assert Has(rows, g, v);
      }
      SubsetSize(span, Versions(rows, newer));
    } else {
      SubsetSize(Versions(rows, newer), Span(version + 1, n));
    }
  }

  /** So pruning removes exactly the numbers up to n - 10. */
  lemma PruneByNumber(rows: Rows, g: Group, n: nat, failed: set<string>)
    requires Numbered(rows, g, n) && Unique(rows, g) && NewestKept(rows, g, n)
    ensures forall id :: id in Members(rows, g) ==>
                           (id in Prune(rows, g, failed) <==> rows[id].version > n - MAX_SYNC_VERSIONS || id in failed)
    ensures forall id :: id in Prune(rows, g, failed) ==> id in rows && Prune(rows, g, failed)[id] == rows[id]
    ensures forall id :: id in rows && rows[id].group != g ==> id in Prune(rows, g, failed)
  {
    forall id | id in Members(rows, g)
      ensures id in Prune(rows, g, failed) <==> rows[id].version > n - MAX_SYNC_VERSIONS || id in failed
    {
      RankIsNumber(rows, g, n, rows[id].version);
    }
  }

  // ---------- preservation ----------

  lemma MaxIsCount(rows: Rows, g: Group, n: nat, max: int)
    requires GroupOk(rows, g, n) && IsMaxVersion(rows, g, max)
    ensures max == n
  {
    if n > 0 {
      assert Has(rows, g, n);
    }
  }

  lemma AppendKeeps(rows: Rows, id: string, g: Group, tenant: string, document: Document, n: nat)
    requires GroupOk(rows, g, n) && id !in rows
    ensures var t := Append(rows, id, g, tenant, n + 1, document);
            Numbered(t, g, n + 1) && Unique(t, g) && NewestKept(t, g, n + 1) && OnlyCurrent(t, g, id) && id in Members(t, g)
  {
    var t := Append(rows, id, g, tenant, n + 1, document);
    forall v | 1 <= v <= n + 1 && n + 1 - MAX_SYNC_VERSIONS < v ensures Has(t, g, v) {
      if v == n + 1 {
        assert id in Members(t, g) && t[id].version == v;
      } else {
        assert Has(rows, g, v);
        var x :| x in Members(rows, g) && rows[x].version == v;
        assert x in Members(t, g) && t[x].version == v;
      }
    }
  }

  lemma PruneKeeps(rows: Rows, g: Group, n: nat, failed: set<string>, id: string)
    requires Numbered(rows, g, n) && Unique(rows, g) && NewestKept(rows, g, n) && OnlyCurrent(rows, g, id)
    requires id in Members(rows, g) && rows[id].version == n
    ensures GroupOk(Prune(rows, g, failed), g, n)
    ensures id in Members(Prune(rows, g, failed), g) && OnlyCurrent(Prune(rows, g, failed), g, id)
  {
    PruneByNumber(rows, g, n, failed);
    var t := Prune(rows, g, failed);
    assert forall x :: x in Members(t, g) ==> x in Members(rows, g) && t[x] == rows[x];
    assert id in Members(t, g);
    assert OnlyCurrent(t, g, id);
    forall v | 1 <= v <= n && n - MAX_SYNC_VERSIONS < v ensures Has(t, g, v) {
      assert Has(rows, g, v);
      var x :| x in Members(rows, g) && rows[x].version == v;
      assert x in Members(t, g) && t[x].version == v;
    }
  }

  /** With no failing delete the ten newest numbers are all that is left. */
  lemma PruneLeavesNewest(rows: Rows, g: Group, n: nat)
    requires Numbered(rows, g, n) && Unique(rows, g) && NewestKept(rows, g, n)
    ensures Numbers(Prune(rows, g, {}), g) == Newest(n)
    ensures |Members(Prune(rows, g, {}), g)| == |Newest(n)|
  {
    PruneByNumber(rows, g, n, {});
    var t := Prune(rows, g, {});
    assert forall x :: x in Members(t, g) ==> x in Members(rows, g) && t[x] == rows[x];
    forall v | v in Newest(n) ensures v in Numbers(t, g) {
      assert Has(rows, g, v);
      var x :| x in Members(rows, g) && rows[x].version == v;
      assert x in Members(t, g) && t[x].version == v;
    }
    assert Numbers(t, g) == Newest(n);
    VersionsSize(t, g, Members(t, g));
  }

  function Numbers(rows: Rows, g: Group): set<int> {
    Versions(rows, Members(rows, g))
  }

  lemma OtherGroups(rows: Rows, step: Step, tenantOf: string -> string, g: Group)
    requires Enabled(rows, step) && (step.PushStep? ==> step.g != g) && (step.SwitchStep? ==> rows[step.id].group != g)
    ensures Members(Apply(rows, step, tenantOf), g) == Members(rows, g)
    ensures forall id :: id in Members(rows, g) ==> id in Apply(rows, step, tenantOf) && Apply(rows, step, tenantOf)[id] == rows[id]
  {
  }

  lemma SameMembers(rows: Rows, t: Rows, g: Group, n: nat)
    requires GroupOk(rows, g, n) && Members(t, g) == Members(rows, g)
    requires forall id :: id in Members(rows, g) ==> id in t && t[id] == rows[id]
    ensures GroupOk(t, g, n)
  {
    forall v | 1 <= v <= n && n - MAX_SYNC_VERSIONS < v ensures Has(t, g, v) {
      assert Has(rows, g, v);
    }
    if Members(t, g) != {} {
      var id :| id in Members(rows, g) && OnlyCurrent(rows, g, id);
      assert OnlyCurrent(t, g, id);
    }
  }

  lemma SwitchKeeps(rows: Rows, id: string, tenantOf: string -> string, n: nat)
    requires id in rows && TenantsFit(rows, tenantOf) && GroupOk(rows, rows[id].group, n)
    ensures GroupOk(SetCurrent(rows, id), rows[id].group, n)
    ensures OnlyCurrent(SetCurrent(rows, id), rows[id].group, id) && id in Members(SetCurrent(rows, id), rows[id].group)
  {
    var g, t := rows[id].group, SetCurrent(rows, id);
    assert Members(t, g) == Members(rows, g);
    assert OnlyCurrent(t, g, id);
    forall v | 1 <= v <= n && n - MAX_SYNC_VERSIONS < v ensures Has(t, g, v) {
      assert Has(rows, g, v);
    }
  }

  lemma TenantsStayFit(rows: Rows, step: Step, tenantOf: string -> string)
    requires TenantsFit(rows, tenantOf)
    ensures TenantsFit(Apply(rows, step, tenantOf), tenantOf)
  {
  }

  lemma {:induction false} TenantsAlwaysFit(steps: seq<Step>, tenantOf: string -> string)
    ensures TenantsFit(Run(steps, tenantOf), tenantOf)
  {
    if steps != [] {
      TenantsAlwaysFit(steps[..|steps| - 1], tenantOf);
      TenantsStayFit(Run(steps[..|steps| - 1], tenantOf), steps[|steps| - 1], tenantOf);
    }
  }

  // ---------- the laws ----------

  /**
   Over every run of pushes, failing prunes and switches: the versions of a group are unique numbers
   no larger than its push count, the ten newest are all there, and exactly one row is current.
   */
  lemma {:induction false} EveryGroupOk(steps: seq<Step>, g: Group, tenantOf: string -> string)
    requires RunEnabled(steps, tenantOf)
    ensures GroupOk(Run(steps, tenantOf), g, Pushes(steps, g))
  {
    if steps != [] {
      var front, step := steps[..|steps| - 1], steps[|steps| - 1];
      var rows := Run(front, tenantOf);
      EveryGroupOk(front, g, tenantOf);
      TenantsAlwaysFit(front, tenantOf);
      match step
      case PushStep(id, h, version, document, failed) =>
        if h == g {
          MaxIsCount(rows, g, Pushes(front, g), version - 1);
          AppendKeeps(rows, id, g, tenantOf(g.app), document, Pushes(front, g));
          PruneKeeps(Append(rows, id, g, tenantOf(g.app), version, document), g, version, failed, id);
        } else {
          OtherGroups(rows, step, tenantOf, g);
          SameMembers(rows, Apply(rows, step, tenantOf), g, Pushes(front, g));
        }
      case SwitchStep(id) =>
        if rows[id].group == g {
          SwitchKeeps(rows, id, tenantOf, Pushes(front, g));
        } else {
          OtherGroups(rows, step, tenantOf, g);
          SameMembers(rows, Apply(rows, step, tenantOf), g, Pushes(front, g));
        }
    }
  }

  /** Whatever was pruned or switched before, the n-th push to a group gets number n: none is ever reused. */
  lemma VersionIsPushCount(steps: seq<Step>, i: nat, tenantOf: string -> string)
    requires RunEnabled(steps, tenantOf) && i < |steps| && steps[i].PushStep?
    ensures steps[i].version == Pushes(steps[..i + 1], steps[i].g)
  {
    EnabledPrefix(steps, i + 1, tenantOf);
    var upTo := steps[..i + 1];
    assert upTo[..i] == steps[..i] && upTo[|upTo| - 1] == steps[i];
    EveryGroupOk(steps[..i], steps[i].g, tenantOf);
    MaxIsCount(Run(steps[..i], tenantOf), steps[i].g, Pushes(steps[..i], steps[i].g), steps[i].version - 1);
  }

  lemma {:induction false} EnabledPrefix(steps: seq<Step>, i: nat, tenantOf: string -> string)
    requires RunEnabled(steps, tenantOf) && i <= |steps|
    ensures RunEnabled(steps[..i], tenantOf)
    decreases |steps|
  {
    if i < |steps| {
      EnabledPrefix(steps[..|steps| - 1], i, tenantOf);
      assert steps[..|steps| - 1][..i] == steps[..i];
    } else {
      assert steps[..i] == steps;
    }
  }

  lemma {:induction false} PushesGrow(steps: seq<Step>, i: nat, g: Group)
    requires i <= |steps|
    ensures Pushes(steps[..i], g) <= Pushes(steps, g)
  {
    if i < |steps| {
      PushesGrow(steps[..|steps| - 1], i, g);
      assert steps[..|steps| - 1][..i] == steps[..i];
    } else {
      assert steps[..i] == steps;
    }
  }

  /** So versions of a group strictly increase over the run. */
  lemma VersionsIncrease(steps: seq<Step>, i: nat, j: nat, tenantOf: string -> string)
    requires RunEnabled(steps, tenantOf) && i < j < |steps|
    requires steps[i].PushStep? && steps[j].PushStep? && steps[i].g == steps[j].g
    ensures steps[i].version < steps[j].version
  {
    VersionIsPushCount(steps, i, tenantOf);
    VersionIsPushCount(steps, j, tenantOf);
    PushesGrow(steps[..j], i + 1, steps[i].g);
    assert steps[..j][..i + 1] == steps[..i + 1] && steps[..j + 1][..j] == steps[..j];
  }

  /**
   Right after a push the new row is the current one and was not pruned; when the deletions worked the
   group is exactly its ten newest versions, however many earlier deletions failed.
   */
  lemma AfterPush(steps: seq<Step>, push: Step, tenantOf: string -> string)
    requires RunEnabled(steps, tenantOf) && push.PushStep? && Enabled(Run(steps, tenantOf), push)
    ensures push.version == Pushes(steps, push.g) + 1
    ensures IsCurrent(Run(steps + [push], tenantOf), push.id, Row(push.g, tenantOf(push.g.app), push.version, true, push.document))
    ensures push.failed == {} ==> HoldsNewest(Run(steps + [push], tenantOf), push.g, push.version)
  {
    RunSnoc(steps, push, tenantOf);
    var g, n := push.g, Pushes(steps, push.g);
    var rows := Run(steps, tenantOf);
    EveryGroupOk(steps, g, tenantOf);
    MaxIsCount(rows, g, n, push.version - 1);
    AppendKeeps(rows, push.id, g, tenantOf(g.app), push.document, n);
    var appended := Append(rows, push.id, g, tenantOf(g.app), n + 1, push.document);
    PruneKeeps(appended, g, n + 1, push.failed, push.id);
    PruneLeavesNewest(appended, g, n + 1);
  }

  /**
   The pull after a push returns what was pushed, exactly if the type holds no secrets, or the document
   cannot be read, or none of its numbers changes by printing and none of its secrets poses as a ciphertext.
   */
  lemma PullReturnsPush(steps: seq<Step>, push: Step, pushed: Document, c: Cipher, tenantOf: string -> string)
    requires RunEnabled(steps, tenantOf) && push.PushStep? && Enabled(Run(steps, tenantOf), push)
    requires SensitiveJson.Inverse(c.enc, c.dec) && SensitiveJson.Stable(c.reprint) && push.document == Seal(pushed, push.g.dataType, c)
    ensures var rows := Run(steps + [push], tenantOf);
            && push.id in rows && OnlyCurrent(rows, push.g, push.id)
            && (Unseal(rows[push.id].document, push.g.dataType, c) == pushed <==> Returns(pushed, push.g.dataType, c))
  {
    AfterPush(steps, push, tenantOf);
    SealRoundTrip(pushed, push.g.dataType, c);
  }

  ghost predicate IsCurrent(rows: Rows, id: string, row: Row) {
    id in rows && rows[id] == row && OnlyCurrent(rows, row.group, id)
  }

  predicate HoldsNewest(rows: Rows, g: Group, n: int) {
    n >= 1 && Numbers(rows, g) == Newest(n) && |Members(rows, g)| == if n < MAX_SYNC_VERSIONS then n else MAX_SYNC_VERSIONS
  }

  // ---------- what a client gets back ----------

  /** The documents as stored and as handed out. */
  datatype Cipher = Cipher(enc: SensitiveJson.Encrypt, dec: SensitiveJson.Decrypt, reprint: SensitiveJson.Reprint,
                           lower: string -> string)

  function Seal(d: Document, dataType: string, c: Cipher): Document {
    if HoldsSecrets(dataType) && d.Tree? then Tree(SensitiveJson.EncryptSensitive(d.json, c.enc, c.reprint, c.lower)) else d
  }

  function Unseal(d: Document, dataType: string, c: Cipher): Document {
    if HoldsSecrets(dataType) && d.Tree? then Tree(SensitiveJson.DecryptSensitive(d.json, c.dec, c.reprint, c.lower)) else d
  }

  predicate Returns(d: Document, dataType: string, c: Cipher) {
    HoldsSecrets(dataType) && d.Tree? ==> SensitiveJson.Recovers(d.json, c.dec, c.reprint, c.lower)
  }

  /** A stored backup reads back as it was pushed exactly when its tree, if it is a type with secrets, recovers. */
  lemma SealRoundTrip(d: Document, dataType: string, c: Cipher)
    requires SensitiveJson.Inverse(c.enc, c.dec) && SensitiveJson.Stable(c.reprint)
    ensures Unseal(Seal(d, dataType, c), dataType, c) == d <==> Returns(d, dataType, c)
  {
    if HoldsSecrets(dataType) && d.Tree? {
      SensitiveJson.DecryptAfterEncrypt(d.json, c.enc, c.dec, c.reprint, c.lower);
    }
  }
}

/** The handlers as methods on the table. `fault` is a database error in the transaction, which rolls it back. */
module Backups {
  import opened Common
  import opened BackupLaw
  import Query

  datatype PushResult = Pushed(version: int) | InvalidType | ServerError

  class BackupTable {
    const tenantOf: string -> string
    const cipher: Cipher
    var rows: Rows
    ghost var trace: seq<Step>

    constructor (tenantOf: string -> string, cipher: Cipher)
      ensures Valid() && rows == map[] && this.tenantOf == tenantOf && this.cipher == cipher
    {
      this.tenantOf, this.cipher := tenantOf, cipher;
      rows, trace := map[], [];
    }

    ghost predicate Valid()
      reads this
    {
      RunEnabled(trace, tenantOf) && rows == Run(trace, tenantOf)
    }

    ghost method Record(step: Step, before: Rows)
      requires RunEnabled(trace, tenantOf) && before == Run(trace, tenantOf)
      requires Enabled(before, step) && rows == Apply(before, step, tenantOf)
      modifies `trace
      ensures Valid() && trace == old(trace) + [step]
    {
      RunSnoc(trace, step, tenantOf);
      trace := trace + [step];
    }

    /**
     The push transaction, then the clean-up outside it. A clean-up query that fails deletes nothing:
     then `failed` holds every row.
     */
    method Push(id: string, user: string, app: string, dataType: string, document: Document, fault: bool, failed: set<string>)
      returns (result: PushResult)
      requires Valid() && id !in rows
      modifies this
      ensures Valid()
      ensures result.Pushed? <==> ValidType(dataType) && !fault
      ensures result == InvalidType <==> !ValidType(dataType)
      ensures !result.Pushed? ==> rows == old(rows)
      ensures result.Pushed? ==>
                trace == old(trace) + [PushStep(id, Group(user, app, dataType), result.version, Seal(document, dataType, cipher), failed)]
    {
      if !ValidType(dataType) {
        return InvalidType;
      }
      var stored := Seal(document, dataType, cipher);
      if fault {
        return ServerError;
      }
      ghost var before := rows;
      var g := Group(user, app, dataType);
      EveryGroupOk(trace, g, tenantOf);
      var version := InsertNext(id, g, stored, Pushes(trace, g));
      CleanupOldVersions(g, failed);
      Record(PushStep(id, g, version, stored, failed), before);
      return Pushed(version);
    }

    /** The transaction: one above the highest version, made the only current one. */
    method InsertNext(id: string, g: Group, stored: Document, ghost n: nat) returns (version: int)
      requires id !in rows && GroupOk(rows, g, n)
      modifies `rows
      ensures rows == Append(old(rows), id, g, tenantOf(g.app), version, stored)
      ensures IsMaxVersion(old(rows), g, version - 1) && Unique(rows, g)
    {
      var max := MaxVersion(rows, g);
      MaxIsCount(rows, g, n, max);
      AppendKeeps(rows, id, g, tenantOf(g.app), stored, n);
      rows := Append(rows, id, g, tenantOf(g.app), max + 1, stored);
      return max + 1;
    }

    /** `ORDER BY version DESC`, then delete from the eleventh on; a delete that fails is logged and skipped. */
    method CleanupOldVersions(g: Group, failed: set<string>)
      requires Unique(rows, g)
      modifies `rows
      ensures rows == Prune(old(rows), g, failed)
    {
      var versions := NewestFirst(rows, g);
      if |versions| > MAX_SYNC_VERSIONS {
        for i := MAX_SYNC_VERSIONS to |versions|
          invariant rows == old(rows) - Dropped(versions, i, failed)
        {
          if versions[i] !in failed {
            rows := rows - {versions[i]};
          }
        }
      }
      DroppedIsDoomed(old(rows), g, versions, failed);
    }

    /** Switch the whole group over to one of its rows, whichever version that is. */
    method AdminSetCurrentVersion(id: string, tenant: string, fault: bool) returns (ok: bool)
      requires Valid()
      modifies this
      ensures Valid()
      ensures ok <==> id in old(rows) && old(rows)[id].tenant == tenant && !fault
      ensures !ok ==> rows == old(rows)
      ensures ok ==> rows == SetCurrent(old(rows), id) && trace == old(trace) + [SwitchStep(id)]
    {
      if id !in rows || rows[id].tenant != tenant || fault {
        return false;
      }
      ghost var before := rows;
      rows := SetCurrent(rows, id);
      Record(SwitchStep(id), before);
      return true;
    }

    /** The current backup of one type, decrypted; none before the first push, or if the query fails: its error is dropped. */
    method Pull(user: string, app: string, dataType: string, fault: bool) returns (found: Option<(int, Document)>)
      requires Valid()
      ensures found.None? <==> !ValidType(dataType) || fault || Pushes(trace, Group(user, app, dataType)) == 0
      ensures found.Some? ==> Delivers(rows, Group(user, app, dataType), cipher, found.value)
    {
      if !ValidType(dataType) || fault {
        return None;
      }
      var g := Group(user, app, dataType);
      EveryGroupOk(trace, g, tenantOf);
      var current := CurrentOf(rows, g, Pushes(trace, g));
      if current.None? {
        return None;
      }
      return Some((rows[current.value].version, Unseal(rows[current.value].document, dataType, cipher)));
    }

    /** The current backups of every type the user ever pushed for the application; none if the query fails. */
    method PullAll(user: string, app: string, fault: bool) returns (found: map<string, (int, Document)>)
      requires Valid()
      ensures forall t :: t in found <==> !fault && Pushes(trace, Group(user, app, t)) > 0
      ensures forall t :: t in found ==> Delivers(rows, Group(user, app, t), cipher, found[t])
    {
      found := map[];
      if fault {
        return;
      }
      var types := CurrentTypes(user, app);
      var rest := types;
      while rest != {}
        invariant rest <= types && found.Keys == types - rest
        invariant forall t :: t in found ==> Delivers(rows, Group(user, app, t), cipher, found[t])
        decreases |rest|
      {
        var t :| t in rest;
        var one := PullType(Group(user, app, t));
        found := found[t := one];
        rest := rest - {t};
      }
    }

    /** The types that have a current row: those ever pushed. */
    method CurrentTypes(user: string, app: string) returns (types: set<string>)
      requires Valid()
      ensures forall t :: t in types <==> Pushes(trace, Group(user, app, t)) > 0
    {
      types := set id | id in rows && rows[id].group.user == user && rows[id].group.app == app && rows[id].current :: rows[id].group.dataType;
      forall t ensures t in types <==> Pushes(trace, Group(user, app, t)) > 0 {
        var g := Group(user, app, t);
        EveryGroupOk(trace, g, tenantOf);
        EmptyBeforePush(rows, g, Pushes(trace, g));
        assert t in types <==> exists id :: id in Members(rows, g) && rows[id].current;
      }
    }

    method PullType(g: Group) returns (one: (int, Document))
      requires Valid() && Pushes(trace, g) > 0
      ensures Delivers(rows, g, cipher, one)
    {
      EveryGroupOk(trace, g, tenantOf);
      var current := CurrentOf(rows, g, Pushes(trace, g));
      return (rows[current.value].version, Unseal(rows[current.value].document, g.dataType, cipher));
    }
  }

  /** The answer is the group's current row, decrypted. */
  ghost predicate Delivers(rows: Rows, g: Group, c: Cipher, answer: (int, Document)) {
    forall id :: id in Members(rows, g) && rows[id].current ==> answer == (rows[id].version, Unseal(rows[id].document, g.dataType, c))
  }

  method CurrentOf(rows: Rows, g: Group, ghost n: nat) returns (current: Option<string>)
    requires GroupOk(rows, g, n)
    ensures current.None? <==> n == 0
    ensures current.Some? ==>
              current.value in Members(rows, g) && forall id :: id in Members(rows, g) && rows[id].current ==> id == current.value
  {
    EmptyBeforePush(rows, g, n);
    var ids := set id | id in Members(rows, g) && rows[id].current;
    if ids == {} {
      assert forall id :: id in Members(rows, g) && rows[id].current ==> id in ids;
      return None;
    }
    var id :| id in ids;
    return Some(id);
  }

  lemma EmptyBeforePush(rows: Rows, g: Group, n: nat)
    requires GroupOk(rows, g, n)
    ensures n == 0 <==> forall id :: id in Members(rows, g) ==> !rows[id].current
  {
    if n > 0 {
      assert Has(rows, g, n);
      var id :| id in Members(rows, g) && OnlyCurrent(rows, g, id);
      assert rows[id].current;
    }
  }

  function Dropped(versions: seq<string>, n: nat, failed: set<string>): set<string>
    requires n <= |versions|
  {
    set i | MAX_SYNC_VERSIONS <= i < n && versions[i] !in failed :: versions[i]
  }

  method NewestFirst(rows: Rows, g: Group) returns (versions: seq<string>)
    ensures Query.IsTop(KeysOf(rows, g), |KeysOf(rows, g)|, versions)
  {
    var keys := KeysOf(rows, g);
    versions := Query.Top(keys, |keys|);
  }

  method MaxVersion(rows: Rows, g: Group) returns (max: int)
    ensures IsMaxVersion(rows, g, max)
  {
    var versions := NewestFirst(rows, g);
    Query.UnlimitedListsAll(KeysOf(rows, g), versions);
    if |versions| == 0 {
      assert Members(rows, g) == KeysOf(rows, g).Keys == {};
      return 0;
    }
    assert versions[0] in Members(rows, g);
    forall id | id in Members(rows, g) ensures rows[id].version <= rows[versions[0]].version {
      assert id in Elements(versions);
      var i :| 0 <= i < |versions| && versions[i] == id;
      assert i > 0 ==> Query.AtMost(KeysOf(rows, g)[versions[0]], KeysOf(rows, g)[versions[i]]);
    }
    return rows[versions[0]].version;
  }

  /** With unique versions a row's position in the list is the number of newer rows. */
  lemma RankIsPosition(rows: Rows, g: Group, versions: seq<string>, i: nat)
    requires Unique(rows, g) && Query.IsTop(KeysOf(rows, g), |KeysOf(rows, g)|, versions) && i < |versions|
    ensures versions[i] in Members(rows, g) && |Newer(rows, g, rows[versions[i]].version)| == i
  {
    var keys := KeysOf(rows, g);
    Query.UnlimitedListsAll(keys, versions);
    var ahead := versions[..i];
    DistinctSize(ahead);
    forall id | id in Newer(rows, g, rows[versions[i]].version) ensures id in Elements(ahead) {
      assert id in Elements(versions);
      var j :| 0 <= j < |versions| && versions[j] == id;
      Query.StandsBefore(keys, |keys|, versions, i, j);
      assert versions[j] == ahead[j];
    }
    forall id | id in Elements(ahead) ensures id in Newer(rows, g, rows[versions[i]].version) {
      var j :| 0 <= j < i && ahead[j] == id;
      assert Query.AtMost(keys[versions[j]], keys[versions[i]]);
      assert versions[j] != versions[i];
    }
    assert Newer(rows, g, rows[versions[i]].version) == Elements(ahead);
  }

  lemma DroppedIsDoomed(rows: Rows, g: Group, versions: seq<string>, failed: set<string>)
    requires Unique(rows, g) && Query.IsTop(KeysOf(rows, g), |KeysOf(rows, g)|, versions)
    ensures rows - Dropped(versions, |versions|, failed) == Prune(rows, g, failed)
  {
    Query.UnlimitedListsAll(KeysOf(rows, g), versions);
    forall id | id in rows ensures id in Dropped(versions, |versions|, failed) <==> Doomed(rows, g, failed, id) {
      if id in Members(rows, g) {
        assert id in Elements(versions);
        var i :| 0 <= i < |versions| && versions[i] == id;
        RankIsPosition(rows, g, versions, i);
      }
    }
  }

  function KeysOf(rows: Rows, g: Group): map<string, Query.Key> {
    map id | id in Members(rows, g) :: Query.Key(-rows[id].version, 0, 0)
  }
}
