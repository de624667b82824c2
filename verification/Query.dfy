/** `ORDER BY ... LIMIT n` queries: any answer the database may give, ties broken as it likes. */
module Query {
  import opened Common

  /** A sort key, compared column by column. */
  datatype Key = Key(a: int, b: int, c: int)

  predicate AtMost(x: Key, y: Key) {
    x.a < y.a || (x.a == y.a && (x.b < y.b || (x.b == y.b && x.c <= y.c)))
  }

  /** `top` is a possible answer to "the first `limit` of these rows in key order". */
  ghost predicate IsTop(keys: map<string, Key>, limit: nat, top: seq<string>) {
    && Distinct(top)
    && (forall i :: 0 <= i < |top| ==> top[i] in keys)
    && |top| == (if |keys| < limit then |keys| else limit)
    && (forall i, j :: 0 <= i < j < |top| ==> AtMost(keys[top[i]], keys[top[j]]))
    && (forall i, id :: 0 <= i < |top| && id in keys && id !in top ==> AtMost(keys[top[i]], keys[id]))
  }

  method Least(keys: map<string, Key>, from: set<string>) returns (least: string)
    requires from != {} && from <= keys.Keys
    ensures least in from
    ensures forall id :: id in from ==> AtMost(keys[least], keys[id])
  {
    least :| least in from;
    var rest := from - {least};
    while rest != {}
      invariant rest <= from && least in from
      invariant forall id :: id in from - rest ==> AtMost(keys[least], keys[id])
      decreases |rest|
    {
      var next :| next in rest;
      if !AtMost(keys[least], keys[next]) {
        least := next;
      }
      rest := rest - {next};
    }
  }

  method Top(keys: map<string, Key>, limit: nat) returns (top: seq<string>)
    ensures IsTop(keys, limit, top)
  {
    var rest := keys.Keys;
    top := [];
    while |top| < limit && rest != {}
      invariant rest <= keys.Keys
      invariant forall id :: id in keys ==> id in rest || id in top
      invariant |rest| + |top| == |keys.Keys|
      invariant |top| <= limit
      invariant Partial(keys, top, rest)
      decreases limit - |top|
    {
      var next := Least(keys, rest);
      PartialSnoc(keys, top, rest, next);
      rest := rest - {next};
      top := top + [next];
    }
  }

  /** A sorted duplicate-free prefix of the answer, with everything still to come at or after it. */
  ghost predicate Partial(keys: map<string, Key>, top: seq<string>, rest: set<string>)
    requires rest <= keys.Keys
  {
    && Distinct(top)
    && (forall i :: 0 <= i < |top| ==> top[i] in keys && top[i] !in rest)
    && (forall i, j :: 0 <= i < j < |top| ==> AtMost(keys[top[i]], keys[top[j]]))
    && (forall i, id :: 0 <= i < |top| && id in rest ==> AtMost(keys[top[i]], keys[id]))
  }

  lemma PartialSnoc(keys: map<string, Key>, top: seq<string>, rest: set<string>, next: string)
    requires rest <= keys.Keys && next in rest && Partial(keys, top, rest)
    requires forall id :: id in rest ==> AtMost(keys[next], keys[id])
    ensures Partial(keys, top + [next], rest - {next})
  {
  }

  /** A candidate left out means the answer is full, and full of candidates at or before it. */
  lemma LeftOutMeansFull(keys: map<string, Key>, limit: nat, top: seq<string>, id: string)
    requires IsTop(keys, limit, top) && id in keys && id !in top
    ensures |top| == limit
    ensures forall k :: k in top ==> k in keys && AtMost(keys[k], keys[id])
  {
    DistinctSize(top);
    assert Elements(top) <= keys.Keys - {id};
    SubsetSize(Elements(top), keys.Keys - {id});
  }

  /** Without a limit every row is listed. */
  lemma UnlimitedListsAll(keys: map<string, Key>, top: seq<string>)
    requires IsTop(keys, |keys|, top)
    ensures Elements(top) == keys.Keys
  {
    DistinctSize(top);
    SubsetSize(Elements(top), keys.Keys);
  }

  /** In the list, what sorts strictly before a row stands before it. */
  lemma StandsBefore(keys: map<string, Key>, limit: nat, top: seq<string>, i: nat, j: nat)
    requires IsTop(keys, limit, top) && i < |top| && j < |top|
    requires top[i] in keys && top[j] in keys && !AtMost(keys[top[i]], keys[top[j]])
    ensures j < i
  {
  }

  lemma {:induction false} LeastExists(keys: map<string, Key>, from: set<string>) returns (least: string)
    requires from != {} && from <= keys.Keys
    ensures least in from && forall id :: id in from ==> AtMost(keys[least], keys[id])
    decreases |from|
  {
    least :| least in from;
    if from != {least} {
      var other := LeastExists(keys, from - {least});
      if AtMost(keys[other], keys[least]) {
        least := other;
      }
    }
  }

  /** The database always has an answer. */
  lemma {:induction false} TopExists(keys: map<string, Key>, limit: nat) returns (top: seq<string>)
    ensures IsTop(keys, limit, top)
  {
    if limit == 0 {
      top := [];
    } else {
      top := TopExists(keys, limit - 1);
      DistinctSize(top);
      var rest := keys.Keys - Elements(top);
      SplitSize(keys.Keys, Elements(top));
      if rest != {} {
        var next := LeastExists(keys, rest);
        top := top + [next];
      }
    }
  }
}
