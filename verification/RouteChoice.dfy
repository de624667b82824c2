/**
 Which credential serves a request, and which route stands for an advertised model, in terms of the
 credentials' own fields (internal/handler/proxy.go).
 */
module RouteChoice {
  import opened Common
  import opened RoutingLaw
  import V = Versions
  import X = TextLaw

  // ---------- one credential's route ----------

  /** The model asked for upstream: the credential's own, or its provider's default, trimmed. */
  function Upstream(row: Credential, cat: Catalog): string {
    if V.Trim(row.defaultModel) != "" then V.Trim(row.defaultModel)
    else V.Trim(cat.defaultModel(row.provider, cat.mode(row.provider, row.mode)))
  }

  /** Its public name: the normal form, unless that is empty. */
  function PublicName(row: Credential, cat: Catalog): string {
    var name := Normalize(row.provider, Upstream(row, cat), cat.wide);
    if name != "" then name else Upstream(row, cat)
  }

  function ModeOf(row: Credential, cat: Catalog): string {
    cat.mode(row.provider, row.mode)
  }

  /** Enabled, not down, with a model that has a public name, and a mode or a scope to serve it in. */
  predicate Offers(row: Credential, cat: Catalog) {
    && row.enabled && !row.down
    && Upstream(row, cat) != "" && V.Trim(PublicName(row, cat)) != ""
    && (|| cat.modes(row.provider, ModeOf(row, cat), Upstream(row, cat)) != []
        || cat.scopes(row.provider, ModeOf(row, cat), Upstream(row, cat)) != [])
  }

  /** The route of a credential in a place of the list carries the credential's own data. */
  function RouteOfRow(row: Credential, place: nat, cat: Catalog): Route {
    var mode, upstream, name := ModeOf(row, cat), Upstream(row, cat), PublicName(row, cat);
    var scopes := cat.scopes(row.provider, mode, upstream);
    Route(row.provider, name, cat.display(row.provider, name, upstream), PricingScope(scopes, cat.wide), mode, row.id, upstream,
          Features(cat.modes(row.provider, mode, upstream), scopes, cat.aspectRatios(row.provider, mode),
                   cat.durations(row.provider, mode), []),
          row.isDefault, row.priority, place)
  }

  lemma TrimTwice(s: string)
    ensures V.Trim(V.Trim(s)) == V.Trim(s)
  {
    TrimTight(s);
    TrimTight(V.Trim(s));
  }

  lemma RowMakesRoute(row: Credential, place: nat, cat: Catalog)
    ensures Usable(row, cat) && ChannelRoutes(row.provider, ChannelOf(row, place, cat), cat) != [] <==> Offers(row, cat)
    ensures Offers(row, cat) ==> ChannelRoutes(row.provider, ChannelOf(row, place, cat), cat) == [RouteOfRow(row, place, cat)]
  {
    TrimTwice(row.defaultModel);
    TrimTwice(cat.defaultModel(row.provider, ModeOf(row, cat)));
    assert ChannelOf(row, place, cat).defaultModel == Upstream(row, cat);
    assert V.Trim(Upstream(row, cat)) == Upstream(row, cat);
  }

  lemma RoutesSnoc(rows: seq<Credential>, cat: Catalog)
    requires rows != []
    ensures var n := |rows| - 1;
      RoutesOf(rows, cat) == RoutesOf(rows[..n], cat) + if Offers(rows[n], cat) then [RouteOfRow(rows[n], n, cat)] else []
  {
    RowMakesRoute(rows[|rows| - 1], |rows| - 1, cat);
  }

  /** The routes of a list are those of the credentials that offer one, each in its place. */
  lemma {:induction false} RouteComesFrom(rows: seq<Credential>, cat: Catalog, r: Route) returns (i: nat)
    requires r in RoutesOf(rows, cat)
    ensures i < |rows| && Offers(rows[i], cat) && r == RouteOfRow(rows[i], i, cat)
  {
    var n := |rows| - 1;
    RoutesSnoc(rows, cat);
    if r in RoutesOf(rows[..n], cat) {
      i := RouteComesFrom(rows[..n], cat, r);
    } else {
      i := n;
    }
  }

  lemma RouteIsThere(rows: seq<Credential>, cat: Catalog, i: nat)
    requires i < |rows| && Offers(rows[i], cat)
    ensures RouteOfRow(rows[i], i, cat) in RoutesOf(rows, cat)
  {
    LastRoute(rows[..i + 1], cat);
    RouteStays(rows, cat, i + 1, RouteOfRow(rows[i], i, cat));
  }

  lemma LastRoute(rows: seq<Credential>, cat: Catalog)
    requires rows != [] && Offers(rows[|rows| - 1], cat)
    ensures RouteOfRow(rows[|rows| - 1], |rows| - 1, cat) in RoutesOf(rows, cat)
  {
    RoutesSnoc(rows, cat);
    var r := RouteOfRow(rows[|rows| - 1], |rows| - 1, cat);
    assert r in [r];
  }

  lemma {:induction false} RouteStays(rows: seq<Credential>, cat: Catalog, n: nat, r: Route)
    requires n <= |rows| && r in RoutesOf(rows[..n], cat)
    ensures r in RoutesOf(rows, cat)
  {
    if n == |rows| {
      assert rows[..n] == rows;
    } else {
      assert rows[..|rows| - 1][..n] == rows[..n];
      RouteStays(rows[..|rows| - 1], cat, n, r);
    }
  }

  // ---------- the order of preference ----------

  /** The default first, then the higher priority, then the earlier place, then the smaller credential id. */
  predicate Ranks(a: Route, b: Route) {
    if a.isDefault != b.isDefault then a.isDefault
    else if a.priority != b.priority then a.priority > b.priority
    else if a.sortOrder != b.sortOrder then a.sortOrder < b.sortOrder
    else V.CompareText(a.credential, b.credential) <= 0
  }

  lemma RanksIs(a: Route, b: Route)
    ensures !RouteLess()(b, a) <==> Ranks(a, b)
  {
    V.CompareTextRange(a.credential, b.credential);
  }

  /** Credentials in their places of the list: no two tie. */
  predicate Preferred(a: Credential, i: nat, b: Credential, j: nat) {
    if a.isDefault != b.isDefault then a.isDefault
    else if a.priority != b.priority then a.priority > b.priority
    else i < j
  }

  /** The credential offers this provider's model, in this scope or in any if none is asked for. */
  predicate ServesRequest(row: Credential, provider: string, name: string, scope: string, cat: Catalog) {
    && Offers(row, cat) && row.provider == provider && PublicName(row, cat) == name
    && (scope == "" || scope == ScopeText(PricingScope(cat.scopes(row.provider, ModeOf(row, cat), Upstream(row, cat)), cat.wide)))
  }

  /** No route is selected exactly if the model has no name or no credential serves the request. */
  lemma NothingSelectedIff(rows: seq<Credential>, provider: string, model: string, scope: string, cat: Catalog)
    ensures var name := Normalize(provider, model, cat.wide);
      Select(rows, provider, model, scope, cat).None?
      <==> name == "" || forall i :: 0 <= i < |rows| ==> !ServesRequest(rows[i], provider, name, scope, cat)
  {
    var name := Normalize(provider, model, cat.wide);
    SelectFindsIff(rows, provider, model, scope, cat);
    if r :| r in RoutesOf(rows, cat) && Matches(r, provider, name, scope) {
      var i := RouteComesFrom(rows, cat, r);
      assert ServesRequest(rows[i], provider, name, scope, cat);
    }
    if i :| 0 <= i < |rows| && ServesRequest(rows[i], provider, name, scope, cat) {
      RouteIsThere(rows, cat, i);
      assert Matches(RouteOfRow(rows[i], i, cat), provider, name, scope);
    }
  }

  /**
   The selected route is that of one credential, with its id and its upstream model, which serves the
   request and is preferred to every other credential that does: a default one if there is any, among
   those the highest priority, among those the first in the list.
   */
  lemma SelectedIsPreferred(rows: seq<Credential>, provider: string, model: string, scope: string, cat: Catalog) returns (i: nat)
    requires Select(rows, provider, model, scope, cat).Some?
    ensures i < |rows| && ServesRequest(rows[i], provider, Normalize(provider, model, cat.wide), scope, cat)
    ensures Select(rows, provider, model, scope, cat).value == RouteOfRow(rows[i], i, cat)
    ensures forall j ::
              0 <= j < |rows| && j != i && ServesRequest(rows[j], provider, Normalize(provider, model, cat.wide), scope, cat) ==>
                Preferred(rows[i], i, rows[j], j)
  {
    var name, chosen := Normalize(provider, model, cat.wide), Select(rows, provider, model, scope, cat).value;
    SelectedIsLeast(rows, provider, model, scope, cat);
    i := RouteComesFrom(rows, cat, chosen);
    forall j | 0 <= j < |rows| && j != i && ServesRequest(rows[j], provider, name, scope, cat)
      ensures Preferred(rows[i], i, rows[j], j)
    {
      var other := RouteOfRow(rows[j], j, cat);
      RouteIsThere(rows, cat, j);
      assert Matches(other, provider, name, scope);
      RanksIs(chosen, other);
    }
  }

  // ---------- scopes and names ----------

  /** A scope's own name, which requests and grouping keys carry. */
  lemma ScopeTextIs()
    ensures ScopeText(Image) == "image" && ScopeText(Video) == "video"
    ensures ScopeText(Analysis) == "analysis" && ScopeText(Chat) == "chat"
  {
  }

  /** The word names the scope, between blanks and in any case. */
  predicate ScopeWord(word: string, scope: Scope, wide: char -> char) {
    var name := Lower(V.Trim(word), wide);
    match scope
    case Image => name == "image"
    case Video => name == "video"
    case Analysis => name == "analysis"
    case Chat => name == "chat" || name == "text"
  }

  predicate KnownWord(word: string, wide: char -> char) {
    exists scope :: ScopeWord(word, scope, wide)
  }

  /** A channel is priced by the first of its scopes that is known, and as video if none is. */
  lemma {:induction false} PricingScopeIs(scopes: seq<string>, wide: char -> char) returns (i: nat)
    ensures i <= |scopes| && forall j :: 0 <= j < i ==> !KnownWord(scopes[j], wide)
    ensures if i < |scopes| then ScopeWord(scopes[i], PricingScope(scopes, wide), wide) else PricingScope(scopes, wide) == Video
  {
    if scopes == [] || ScopeNamed(Lower(V.Trim(scopes[0]), wide)).Some? {
      i := 0;
    } else {
      i := PricingScopeIs(scopes[1..], wide);
      i := i + 1;
    }
  }

  /** The names under which three models are also known, and no other. */
  lemma AliasIs(provider: string, name: string)
    ensures provider == "veo" && name in {"veo3", "veo-3", "veo-3.1-generate-preview"} ==> Alias(provider, name) == "veo-3.1"
    ensures provider == "veo" && name in {"veo3-fast", "veo-3-fast", "veo-3.1-fast-generate-preview"} ==>
              Alias(provider, name) == "veo-3.1-fast"
    ensures provider == "grok" && name in {"grok-video", "grok-video-3", "grok-imagine-video"} ==>
              Alias(provider, name) == "grok-imagine"
    ensures Alias(provider, name) != name ==>
              || (provider == "veo" && name in {"veo3", "veo-3", "veo-3.1-generate-preview",
                                                "veo3-fast", "veo-3-fast", "veo-3.1-fast-generate-preview"})
              || (provider == "grok" && name in {"grok-video", "grok-video-3", "grok-imagine-video"})
  {
  }

  /** Before that a name is trimmed, put in lower case and its underscores turned into hyphens. */
  lemma CleanIs(s: string, wide: char -> char)
    ensures |Clean(s, wide)| == |V.Trim(s)|
    ensures forall i :: 0 <= i < |V.Trim(s)| ==>
              var c := V.Trim(s)[i];
              && (c == '_' ==> Clean(s, wide)[i] == '-')
              && ('A' <= c <= 'Z' ==> Clean(s, wide)[i] as int == c as int + 32)
              && (c < '\U{0080}' && c != '_' && !('A' <= c <= 'Z') ==> Clean(s, wide)[i] == c)
  {
    MapTextAt(V.Trim(s), c => CleanChar(c, wide));
  }

  // ---------- what stands for an advertised model ----------

  /** A route of the provider under this model and scope. */
  predicate Under(r: Route, name: string, scope: Scope) {
    r.clientModel == name && r.scope == scope
  }

  /**
   Each entry is represented by the preferred one of its routes, stands in its place, and the first is the
   default; what it supports is what its routes support, kind by kind, up to case and blanks.
   */
  lemma EntryIsPreferred(rows: seq<Credential>, provider: string, cat: Catalog, i: nat)
    requires GoodLower(cat.wide) && i < |Capability(rows, provider, cat)|
    ensures var e, routes := Capability(rows, provider, cat)[i], ProviderRoutes(rows, provider, cat);
      && e.provider == provider && e.first in routes && Under(e.first, e.clientModel, e.scope)
      && e.sortOrder == i && (e.isDefault <==> i == 0)
      && (forall r :: r in routes && Under(r, e.clientModel, e.scope) ==> Ranks(e.first, r))
  {
    var routes := ProviderRoutes(rows, provider, cat);
    var group, key := KeyedGroup(rows, provider, cat, i);
    var e := Capability(rows, provider, cat)[i];
    ProviderRoutesOffer(rows, provider, "", Video, cat);
    GroupLaw(routes, key, cat.wide);
    forall r | r in routes && Under(r, e.clientModel, e.scope) ensures Ranks(e.first, r) {
      SameKeyIff(r, e.first, cat.wide);
      RanksIs(e.first, r);
    }
  }

  /** One kind of feature of an entry and of its routes. */
  ghost predicate Pooled(advertised: seq<string>, routes: seq<Route>, pick: Features -> seq<string>, name: string, scope: Scope,
                         wide: char -> char) {
    && (forall r, v :: r in routes && Under(r, name, scope) && v in pick(r.features) && V.Trim(v) != "" ==>
          Spelled(advertised, V.Trim(v), wide))
    && (forall m :: m in advertised ==> exists r, v :: r in routes && Under(r, name, scope) && v in pick(r.features) && V.Trim(v) == m)
  }

  lemma GroupPools(group: seq<Route>, routes: seq<Route>, pick: Features -> seq<string>, name: string, scope: Scope, wide: char -> char)
    requires forall r :: r in group <==> r in routes && Under(r, name, scope)
    ensures Pooled(Union(StableSort(group, RouteLess()), pick, wide), routes, pick, name, scope, wide)
  {
    var sorted := StableSort(group, RouteLess());
    SortSame(group, RouteLess());
    UnionLaw(sorted, pick, wide);
    forall m | m in Union(sorted, pick, wide)
      ensures exists r, v :: r in routes && Under(r, name, scope) && v in pick(r.features) && V.Trim(v) == m
    {
      var r, v :| r in sorted && v in pick(r.features) && V.Trim(v) == m;
      assert r in group;
    }
  }

  /** An entry supports, kind by kind, what its routes support, up to case and blanks, and nothing else. */
  lemma EntryPoolsFeatures(rows: seq<Credential>, provider: string, cat: Catalog, i: nat)
    requires GoodLower(cat.wide) && i < |Capability(rows, provider, cat)|
    ensures var e, routes := Capability(rows, provider, cat)[i], ProviderRoutes(rows, provider, cat);
      && Pooled(e.features.modes, routes, (f: Features) => f.modes, e.clientModel, e.scope, cat.wide)
      && Pooled(e.features.scopes, routes, (f: Features) => f.scopes, e.clientModel, e.scope, cat.wide)
      && Pooled(e.features.aspectRatios, routes, (f: Features) => f.aspectRatios, e.clientModel, e.scope, cat.wide)
      && Pooled(e.features.durations, routes, (f: Features) => f.durations, e.clientModel, e.scope, cat.wide)
      && Pooled(e.features.resolutions, routes, (f: Features) => f.resolutions, e.clientModel, e.scope, cat.wide)
  {
    var routes := ProviderRoutes(rows, provider, cat);
    var group := EntryGroup(rows, provider, cat, i);
    var e := Capability(rows, provider, cat)[i];
    GroupPools(group, routes, (f: Features) => f.modes, e.clientModel, e.scope, cat.wide);
    GroupPools(group, routes, (f: Features) => f.scopes, e.clientModel, e.scope, cat.wide);
    GroupPools(group, routes, (f: Features) => f.aspectRatios, e.clientModel, e.scope, cat.wide);
    GroupPools(group, routes, (f: Features) => f.durations, e.clientModel, e.scope, cat.wide);
    GroupPools(group, routes, (f: Features) => f.resolutions, e.clientModel, e.scope, cat.wide);
  }

  /** The routes an entry is made of: all those under its model and scope. */
  lemma EntryGroup(rows: seq<Credential>, provider: string, cat: Catalog, i: nat) returns (group: seq<Route>)
    requires GoodLower(cat.wide) && i < |Capability(rows, provider, cat)|
    ensures var e, routes := Capability(rows, provider, cat)[i], ProviderRoutes(rows, provider, cat);
      && group != [] && e == EntryOf(group, i, cat.wide)
      && forall r :: r in group <==> r in routes && Under(r, e.clientModel, e.scope)
  {
    var routes := ProviderRoutes(rows, provider, cat);
    var key;
    group, key := KeyedGroup(rows, provider, cat, i);
    ProviderRoutesOffer(rows, provider, "", Video, cat);
    var first := Capability(rows, provider, cat)[i].first;
    forall r | r in routes ensures r in group <==> Under(r, first.clientModel, first.scope) {
      SameKeyIff(r, first, cat.wide);
    }
  }

  lemma KeyedGroup(rows: seq<Credential>, provider: string, cat: Catalog, i: nat) returns (group: seq<Route>, key: string)
    requires GoodLower(cat.wide) && i < |Capability(rows, provider, cat)|
    ensures var e, routes := Capability(rows, provider, cat)[i], ProviderRoutes(rows, provider, cat);
      && group != [] && e == EntryOf(group, i, cat.wide) && EntryFits(e, key, i, routes, cat.wide)
      && forall r :: r in group <==> r in routes && RouteKey(r, cat.wide) == key
  {
    var routes := ProviderRoutes(rows, provider, cat);
    var keys := StableSort(KeysOf(routes, cat.wide), KeyLess(routes, cat.wide));
    SortedKeysLaw(routes, KeyLess(routes, cat.wide), cat.wide);
    EntriesLaw(Capability(rows, provider, cat), keys, routes, cat.wide);
    EntriesAt(GroupsOf(keys, routes, cat.wide), cat.wide, i);
    GroupsAt(keys, routes, cat.wide, i);
    key := keys[i];
    group := GroupOf(routes, key, cat.wide);
    GroupLaw(routes, key, cat.wide);
  }

  lemma SameKeyIff(a: Route, b: Route, wide: char -> char)
    requires a.provider == b.provider && Neat(a.clientModel, wide) && Neat(b.clientModel, wide)
    ensures RouteKey(a, wide) == RouteKey(b, wide) <==> Under(a, b.clientModel, b.scope)
  {
    if RouteKey(a, wide) == RouteKey(b, wide) {
      KeyIdentifies(a, b, wide);
    }
  }

  // ---------- the order of the entries ----------

  /** A sorted list is left as it is. */
  lemma {:induction false} SortedIsFixed(s: seq<Route>)
    requires Sorted(s, RouteLess())
    ensures StableSort(s, RouteLess()) == s
  {
    if s != [] {
      SortedIsFixed(s[..|s| - 1]);
      assert s == s[..|s| - 1] + [s[|s| - 1]];
    }
  }

  lemma {:induction false} GroupStaysSorted(routes: seq<Route>, key: string, wide: char -> char)
    requires Sorted(routes, RouteLess())
    ensures Sorted(GroupOf(routes, key, wide), RouteLess())
  {
    if routes != [] {
      var front, last := routes[..|routes| - 1], routes[|routes| - 1];
      GroupStaysSorted(front, key, wide);
      GroupLaw(front, key, wide);
      forall r | r in front ensures !RouteLess()(last, r) {
        var i :| 0 <= i < |front| && front[i] == r;
        assert routes[i] == r;
      }
    }
  }

  /** Entries stand in the order of their routes' places, and of two in one place by display name. */
  predicate Placed(a: Route, b: Route) {
    a.sortOrder < b.sortOrder || (a.sortOrder == b.sortOrder && V.CompareText(a.displayName, b.displayName) <= 0)
  }

  lemma PlacedIsTransitive(a: Route, b: Route, c: Route)
    requires Placed(a, b) && Placed(b, c)
    ensures Placed(a, c)
  {
    V.CompareTextRange(a.displayName, c.displayName);
    V.CompareTextRange(a.displayName, b.displayName);
    V.CompareTextRange(b.displayName, c.displayName);
    TextTransitive(c.displayName, b.displayName, a.displayName);
  }

  /** The first route of a key's group. */
  function Head(routes: seq<Route>, key: string, wide: char -> char): Route
    requires GroupOf(routes, key, wide) != []
  {
    GroupOf(routes, key, wide)[0]
  }

  ghost predicate KeysPlaced(keys: seq<string>, routes: seq<Route>, wide: char -> char) {
    && (forall k :: k in keys ==> GroupOf(routes, k, wide) != [])
    && (forall i, j :: 0 <= i < j < |keys| ==> Placed(Head(routes, keys[i], wide), Head(routes, keys[j], wide)))
  }

  lemma KeyLessIs(routes: seq<Route>, a: string, b: string, wide: char -> char)
    requires GroupOf(routes, a, wide) != [] && GroupOf(routes, b, wide) != []
    requires Head(routes, a, wide).provider == Head(routes, b, wide).provider
    ensures KeyLess(routes, wide)(a, b) <==> !Placed(Head(routes, b, wide), Head(routes, a, wide))
  {
    var x, y := Head(routes, a, wide), Head(routes, b, wide);
    V.CompareTextRange(x.displayName, y.displayName);
  }

  predicate OneProvider(routes: seq<Route>, provider: string) {
    forall r :: r in routes ==> r.provider == provider
  }

  lemma HeadsProvider(routes: seq<Route>, provider: string, key: string, wide: char -> char)
    requires OneProvider(routes, provider) && GroupOf(routes, key, wide) != []
    ensures Head(routes, key, wide).provider == provider
  {
    GroupLaw(routes, key, wide);
    assert GroupOf(routes, key, wide)[0] in GroupOf(routes, key, wide);
  }

  lemma {:induction false} InsertPlaced(keys: seq<string>, key: string, routes: seq<Route>, provider: string, wide: char -> char)
    requires OneProvider(routes, provider) && KeysPlaced(keys, routes, wide) && GroupOf(routes, key, wide) != []
    ensures KeysPlaced(Insert(keys, key, KeyLess(routes, wide)), routes, wide)
  {
    var less := KeyLess(routes, wide);
    if keys != [] {
      var front, last := keys[..|keys| - 1], keys[|keys| - 1];
      HeadsProvider(routes, provider, key, wide);
      HeadsProvider(routes, provider, last, wide);
      KeyLessIs(routes, key, last, wide);
      if !less(key, last) {
        SnocPlaced(keys, key, routes, wide);
      } else {
        InsertPlaced(front, key, routes, provider, wide);
        InsertSame(front, key, less);
        LastStaysLast(keys, Insert(front, key, less), key, routes, wide);
      }
    }
  }

  /** A key at or after the last one. */
  lemma SnocPlaced(keys: seq<string>, key: string, routes: seq<Route>, wide: char -> char)
    requires keys != [] && KeysPlaced(keys, routes, wide) && GroupOf(routes, key, wide) != []
    requires Placed(Head(routes, keys[|keys| - 1], wide), Head(routes, key, wide))
    ensures KeysPlaced(keys + [key], routes, wide)
  {
    var longer := keys + [key];
    forall i, j | 0 <= i < j < |longer| ensures Placed(Head(routes, longer[i], wide), Head(routes, longer[j], wide)) {
      if j == |keys| {
        BeforeLast(keys, key, i, routes, wide);
      }
    }
  }

  lemma BeforeLast(keys: seq<string>, key: string, i: nat, routes: seq<Route>, wide: char -> char)
    requires i < |keys| && KeysPlaced(keys, routes, wide) && GroupOf(routes, key, wide) != []
    requires Placed(Head(routes, keys[|keys| - 1], wide), Head(routes, key, wide))
    ensures Placed(Head(routes, keys[i], wide), Head(routes, key, wide))
  {
    if i < |keys| - 1 {
      PlacedIsTransitive(Head(routes, keys[i], wide), Head(routes, keys[|keys| - 1], wide), Head(routes, key, wide));
    }
  }

  /** The last key stays last when one that goes before it joins the others. */
  lemma LastStaysLast(keys: seq<string>, joined: seq<string>, key: string, routes: seq<Route>, wide: char -> char)
    requires keys != [] && KeysPlaced(keys, routes, wide) && KeysPlaced(joined, routes, wide) && GroupOf(routes, key, wide) != []
    requires multiset(joined) == multiset(keys[..|keys| - 1]) + multiset{key}
    requires !Placed(Head(routes, keys[|keys| - 1], wide), Head(routes, key, wide))
    ensures KeysPlaced(joined + [keys[|keys| - 1]], routes, wide)
  {
    var last := keys[|keys| - 1];
    if joined != [] {
      JoinedBefore(keys, joined, |joined| - 1, key, routes, wide);
      SnocPlaced(joined, last, routes, wide);
    }
  }

  lemma JoinedBefore(keys: seq<string>, joined: seq<string>, i: nat, key: string, routes: seq<Route>, wide: char -> char)
    requires keys != [] && KeysPlaced(keys, routes, wide) && GroupOf(routes, key, wide) != []
    requires multiset(joined) == multiset(keys[..|keys| - 1]) + multiset{key} && i < |joined|
    requires !Placed(Head(routes, keys[|keys| - 1], wide), Head(routes, key, wide))
    ensures GroupOf(routes, joined[i], wide) != [] && Placed(Head(routes, joined[i], wide), Head(routes, keys[|keys| - 1], wide))
  {
    var n := |keys| - 1;
    V.CompareTextRange(Head(routes, keys[n], wide).displayName, Head(routes, key, wide).displayName);
    assert joined[i] in multiset(joined);
    if joined[i] != key {
      assert joined[i] in keys[..n];
      var m :| 0 <= m < n && keys[..n][m] == joined[i];
      assert keys[m] == joined[i];
    }
  }

  lemma {:induction false} SortPlaces(keys: seq<string>, routes: seq<Route>, provider: string, wide: char -> char)
    requires OneProvider(routes, provider) && forall k :: k in keys ==> GroupOf(routes, k, wide) != []
    ensures KeysPlaced(StableSort(keys, KeyLess(routes, wide)), routes, wide)
  {
    if keys != [] {
      SortPlaces(keys[..|keys| - 1], routes, provider, wide);
      InsertPlaced(StableSort(keys[..|keys| - 1], KeyLess(routes, wide)), keys[|keys| - 1], routes, provider, wide);
    }
  }

  lemma EntriesArePlaced(rows: seq<Credential>, provider: string, cat: Catalog, i: nat, j: nat)
    requires GoodLower(cat.wide) && i < j < |Capability(rows, provider, cat)|
    ensures Placed(Capability(rows, provider, cat)[i].first, Capability(rows, provider, cat)[j].first)
  {
    var routes := ProviderRoutes(rows, provider, cat);
    var unsorted := KeysOf(routes, cat.wide);
    var keys := StableSort(unsorted, KeyLess(routes, cat.wide));
    ProviderRoutesOffer(rows, provider, "", Video, cat);
    KeysHaveGroups(routes, cat.wide);
    SortPlaces(unsorted, routes, provider, cat.wide);
    SortedKeysLaw(routes, KeyLess(routes, cat.wide), cat.wide);
    EntryHead(rows, provider, cat, i);
    EntryHead(rows, provider, cat, j);
  }

  lemma EntryHead(rows: seq<Credential>, provider: string, cat: Catalog, i: nat)
    requires i < |Capability(rows, provider, cat)|
    ensures var routes := ProviderRoutes(rows, provider, cat);
            var keys := StableSort(KeysOf(routes, cat.wide), KeyLess(routes, cat.wide));
      && i < |keys| && GroupOf(routes, keys[i], cat.wide) != []
      && Capability(rows, provider, cat)[i].first == Head(routes, keys[i], cat.wide)
  {
    var routes := ProviderRoutes(rows, provider, cat);
    var keys := StableSort(KeysOf(routes, cat.wide), KeyLess(routes, cat.wide));
    SortedKeysLaw(routes, KeyLess(routes, cat.wide), cat.wide);
    EntriesAt(GroupsOf(keys, routes, cat.wide), cat.wide, i);
    GroupsAt(keys, routes, cat.wide, i);
    RouteLessIsWeakOrder();
    var channels := EnsureDefault(Channels(StableSort(Healthy(rows, provider), CredentialLess()), cat));
    SortSorts(AllRoutes(provider, channels, cat), RouteLess());
    GroupStaysSorted(routes, keys[i], cat.wide);
    SortedIsFixed(GroupOf(routes, keys[i], cat.wide));
  }

  // ---------- the order of the credentials behind a listing ----------

  /** The default first, then the higher priority, then the older one; true also of two that tie. */
  predicate NotAfter(a: Credential, b: Credential) {
    if a.isDefault != b.isDefault then a.isDefault
    else if a.priority != b.priority then a.priority > b.priority
    else a.createdAt <= b.createdAt
  }

  /** The healthy credentials of a provider in the order of their channels. */
  function InOrder(rows: seq<Credential>, provider: string): seq<Credential> {
    StableSort(Healthy(rows, provider), CredentialLess())
  }

  /** They are exactly those not down, and none stands after one it should precede. */
  lemma OrderIs(rows: seq<Credential>, provider: string)
    ensures var credentials := InOrder(rows, provider);
      && (forall c :: c in credentials <==> c in rows && !c.down && c.provider == provider)
      && (forall i, j :: 0 <= i < j < |credentials| ==> NotAfter(credentials[i], credentials[j]))
  {
    var healthy, credentials := Healthy(rows, provider), InOrder(rows, provider);
    HealthyLaw(rows, provider);
    SortSame(healthy, CredentialLess());
    assert WeakOrder(CredentialLess());
    SortSorts(healthy, CredentialLess());
    forall i, j | 0 <= i < j < |credentials| ensures NotAfter(credentials[i], credentials[j]) {
      assert !CredentialLess()(credentials[j], credentials[i]);
    }
  }

  function Marked(rows: seq<Credential>, provider: string, cat: Catalog): seq<Channel> {
    EnsureDefault(Channels(InOrder(rows, provider), cat))
  }

  /**
   The channels of a listing stand in the order of their credentials; each is marked as default as its
   credential is, but if none is, the first one is.
   */
  lemma ChannelOrigin(rows: seq<Credential>, provider: string, cat: Catalog, m: nat) returns (n: nat)
    requires m < |Marked(rows, provider, cat)|
    ensures var credentials, channels := InOrder(rows, provider), Marked(rows, provider, cat);
      && n < |credentials|
      && Channels(credentials, cat)[m] == ChannelOf(credentials[n], n, cat)
      && channels[m] == ChannelOf(credentials[n], n, cat).(isDefault := channels[m].isDefault)
      && (channels[m].isDefault <==>
            credentials[n].isDefault || (m == 0 && forall k :: 0 <= k < |channels| ==> !Channels(credentials, cat)[k].isDefault))
  {
    n := ChannelsComeFrom(InOrder(rows, provider), cat, m);
  }

  lemma {:induction false} ChannelsRise(credentials: seq<Credential>, cat: Catalog, a: nat, b: nat)
    requires a < b < |Channels(credentials, cat)|
    ensures Channels(credentials, cat)[a].sortOrder < Channels(credentials, cat)[b].sortOrder < |credentials|
  {
    var n := |credentials| - 1;
    var front := Channels(credentials[..n], cat);
    if b < |front| {
      ChannelsRise(credentials[..n], cat, a, b);
    } else {
      SortOrderBelow(credentials[..n], cat, a);
    }
  }

  lemma {:induction false} SortOrderBelow(credentials: seq<Credential>, cat: Catalog, a: nat)
    requires a < |Channels(credentials, cat)|
    ensures Channels(credentials, cat)[a].sortOrder < |credentials|
  {
    var n := |credentials| - 1;
    if a < |Channels(credentials[..n], cat)| {
      SortOrderBelow(credentials[..n], cat, a);
    }
  }

  /** The channel a route of a listing was made from. */
  lemma RouteOrigin(rows: seq<Credential>, provider: string, cat: Catalog, r: Route) returns (m: nat)
    requires r in ProviderRoutes(rows, provider, cat)
    ensures m < |Marked(rows, provider, cat)|
    ensures var ch := Marked(rows, provider, cat)[m];
            r.credential == ch.id && r.isDefault == ch.isDefault && r.priority == ch.priority && r.sortOrder == ch.sortOrder
  {
    var channels := Marked(rows, provider, cat);
    SortSame(AllRoutes(provider, channels, cat), RouteLess());
    m := SomePart(channels, RoutesBy(provider, cat), r);
    RouteCarries(provider, channels[m], cat, r);
  }

  lemma RouteCarries(provider: string, ch: Channel, cat: Catalog, r: Route)
    requires r in RoutesBy(provider, cat)(ch)
    ensures r.credential == ch.id && r.isDefault == ch.isDefault && r.priority == ch.priority && r.sortOrder == ch.sortOrder
  {
  }

  lemma {:induction false} SomePart<T, U>(s: seq<T>, f: T -> seq<U>, x: U) returns (m: nat)
    requires x in FlatMap(s, f)
    ensures m < |s| && x in f(s[m])
  {
    var n := |s| - 1;
    if x in FlatMap(s[..n], f) {
      m := SomePart(s[..n], f, x);
    } else {
      m := n;
    }
  }

  /**
   So the credential that stands for an advertised model comes after no other healthy credential of the
   provider under the same model and scope: it is a default one if there is any, else of the highest
   priority, else the oldest.
   */
  lemma EntryServedByBest(rows: seq<Credential>, provider: string, cat: Catalog, i: nat, r: Route)
    returns (best: Credential, other: Credential)
    requires GoodLower(cat.wide) && i < |Capability(rows, provider, cat)| && r in ProviderRoutes(rows, provider, cat)
    requires Under(r, Capability(rows, provider, cat)[i].clientModel, Capability(rows, provider, cat)[i].scope)
    ensures best in rows && !best.down && best.provider == provider && best.id == Capability(rows, provider, cat)[i].first.credential
    ensures other in rows && !other.down && other.provider == provider && other.id == r.credential
    ensures NotAfter(best, other)
  {
    var first, channels := Capability(rows, provider, cat)[i].first, Marked(rows, provider, cat);
    var credentials := InOrder(rows, provider);
    OrderIs(rows, provider);
    EntryIsPreferred(rows, provider, cat, i);
    var a := RouteOrigin(rows, provider, cat, first);
    var b := RouteOrigin(rows, provider, cat, r);
    var n := ChannelOrigin(rows, provider, cat, a);
    var k := ChannelOrigin(rows, provider, cat, b);
    best, other := credentials[n], credentials[k];
    assert best in credentials && other in credentials;
    if a < b {
      ChannelsRise(credentials, cat, a, b);
    }
    BestRanks(Channels(credentials, cat), a, b, best, other, n, k, cat);
  }

  /** Ranking by marks, priorities and places is ranking by the credentials. */
  lemma BestRanks(bare: seq<Channel>, a: nat, b: nat, best: Credential, other: Credential, n: nat, k: nat, cat: Catalog)
    requires a < |bare| && b < |bare| && bare[a] == ChannelOf(best, n, cat) && bare[b] == ChannelOf(other, k, cat)
    requires (n == k ==> best == other) && (n < k ==> NotAfter(best, other)) && (k < n ==> NotAfter(other, best))
    requires a < b ==> n < k
    requires ChannelRanks(EnsureDefault(bare)[a], EnsureDefault(bare)[b])
    ensures NotAfter(best, other)
  {
  }

  /** The same order on channels, but for ties. */
  predicate ChannelRanks(a: Channel, b: Channel) {
    if a.isDefault != b.isDefault then a.isDefault
    else if a.priority != b.priority then a.priority > b.priority
    else a.sortOrder <= b.sortOrder
  }

  /** A provider is listed by its bare channels exactly if it has no route, and by its entries otherwise. */
  lemma ListedHow(rows: seq<Credential>, provider: string, cat: Catalog)
    ensures ListingOf(rows, provider, cat)
         == if Marked(rows, provider, cat) == [] then None
            else if ProviderRoutes(rows, provider, cat) == [] then Some(Raw(Marked(rows, provider, cat)))
            else Some(Collapsed(Capability(rows, provider, cat)))
  {
    SortSame(AllRoutes(provider, Marked(rows, provider, cat), cat), RouteLess());
  }
}
