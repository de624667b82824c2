/**
 Client-model routing (internal/handler/proxy.go): what is advertised to clients and which credential
 serves a request, two computations over the same credentials. The per-provider tables (modes, scopes,
 durations, default models, display names) are a parameter; everything here holds for any tables.
 */
module RoutingLaw {
  import opened Common
  import V = Versions

  // ---------- model names ----------

  /** `unicode.ToLower`: ASCII spelled out, `wide` for the rest. */
  function LowerChar(c: char, wide: char -> char): char {
    if 'A' <= c <= 'Z' then ((c as int - 'A' as int) + 'a' as int) as char
    else if c < '\U{0080}' then c
    else wide(c)
  }

  /** What is used of lower-casing beyond ASCII: doing it twice changes nothing, blanks stay blanks. */
  ghost predicate GoodLower(wide: char -> char) {
    && (forall c :: LowerChar(LowerChar(c, wide), wide) == LowerChar(c, wide))
    && (forall c :: V.Space(LowerChar(c, wide)) <==> V.Space(c))
  }

  function MapText(s: string, f: char -> char): string {
    if s == "" then "" else MapText(s[..|s| - 1], f) + [f(s[|s| - 1])]
  }

  function Lower(s: string, wide: char -> char): string {
    MapText(s, c => LowerChar(c, wide))
  }

  /** Lower-case, with '-' for '_'. */
  function CleanChar(c: char, wide: char -> char): char {
    if LowerChar(c, wide) == '_' then '-' else LowerChar(c, wide)
  }

  function Clean(s: string, wide: char -> char): string {
    MapText(V.Trim(s), c => CleanChar(c, wide))
  }

  function Alias(provider: string, name: string): string {
    if provider == "veo" && name in {"veo3", "veo-3", "veo-3.1", "veo-3.1-generate-preview"} then "veo-3.1"
    else if provider == "veo" && name in {"veo3-fast", "veo-3-fast", "veo-3.1-fast", "veo-3.1-fast-generate-preview"} then
      "veo-3.1-fast"
    else if provider == "grok" && name in {"grok-video", "grok-video-3", "grok-imagine-video"} then "grok-imagine"
    else name
  }

  function Normalize(provider: string, model: string, wide: char -> char): string {
    Alias(provider, Clean(model, wide))
  }

  // ---------- credentials, channels, routes ----------

  datatype Credential = Credential(id: string, provider: string, mode: string, defaultModel: string, enabled: bool,
                                   isDefault: bool, priority: int, down: bool, createdAt: int)

  datatype Catalog = Catalog(mode: (string, string) -> string,
                             defaultModel: (string, string) -> string,
                             modes: (string, string, string) -> seq<string>,
                             scopes: (string, string, string) -> seq<string>,
                             aspectRatios: (string, string) -> seq<string>,
                             durations: (string, string) -> seq<string>,
                             display: (string, string, string) -> string,
                             wide: char -> char)

  /** What a channel, a route or an advertised model supports. */
  datatype Features = Features(modes: seq<string>, scopes: seq<string>, aspectRatios: seq<string>, durations: seq<string>,
                               resolutions: seq<string>)

  datatype Channel = Channel(id: string, mode: string, defaultModel: string, models: seq<string>, features: Features,
                             isDefault: bool, priority: int, sortOrder: int)

  datatype Scope = Image | Video | Analysis | Chat

  datatype Route = Route(provider: string, clientModel: string, displayName: string, scope: Scope, mode: string,
                         credential: string, upstreamModel: string, features: Features,
                         isDefault: bool, priority: int, sortOrder: int)

  function FirstNonEmpty(a: string, b: string): string {
    if V.Trim(a) != "" then V.Trim(a) else V.Trim(b)
  }

  function ChannelOf(row: Credential, index: nat, cat: Catalog): Channel {
    var mode := cat.mode(row.provider, row.mode);
    var name := FirstNonEmpty(row.defaultModel, cat.defaultModel(row.provider, mode));
    var features := Features(cat.modes(row.provider, mode, name), cat.scopes(row.provider, mode, name),
                             cat.aspectRatios(row.provider, mode), cat.durations(row.provider, mode), []);
    Channel(row.id, mode, name, if V.Trim(name) == "" then [] else [name], features, row.isDefault, row.priority, index)
  }

  predicate Useful(ch: Channel) {
    ch.features.modes != [] || ch.features.scopes != []
  }

  function ScopeNamed(name: string): Option<Scope> {
    if name == "image" then Some(Image)
    else if name == "video" then Some(Video)
    else if name == "analysis" then Some(Analysis)
    else if name == "chat" || name == "text" then Some(Chat)
    else None
  }

  function ScopeText(scope: Scope): string {
    match scope
    case Image => "image"
    case Video => "video"
    case Analysis => "analysis"
    case Chat => "chat"
  }

  /** The first scope that is known, video if none is. */
  function PricingScope(scopes: seq<string>, wide: char -> char): Scope {
    if scopes == [] then Video
    else
      var known := ScopeNamed(Lower(V.Trim(scopes[0]), wide));
      if known.Some? then known.value else PricingScope(scopes[1..], wide)
  }

  function ChannelModels(ch: Channel): seq<string> {
    if ch.models == [] && V.Trim(ch.defaultModel) != "" then [ch.defaultModel] else ch.models
  }

  function ClientModel(provider: string, upstream: string, wide: char -> char): string {
    var name := Normalize(provider, upstream, wide);
    if name == "" then upstream else name
  }

  function RouteFor(provider: string, ch: Channel, m: string, cat: Catalog): seq<Route> {
    var upstream := FirstNonEmpty(m, ch.defaultModel);
    var name := ClientModel(provider, upstream, cat.wide);
    if V.Trim(name) == "" then []
    else [Route(provider, name, cat.display(provider, name, upstream), PricingScope(ch.features.scopes, cat.wide), ch.mode, ch.id,
                upstream, ch.features, ch.isDefault, ch.priority, ch.sortOrder)]
  }

  /** A channel lists at most one model, so it makes at most one route. */
  function ChannelRoutes(provider: string, ch: Channel, cat: Catalog): seq<Route> {
    var models := ChannelModels(ch);
    if models == [] then [] else RouteFor(provider, ch, models[0], cat)
  }

  // ---------- stable sorting ----------

  function Insert<T>(s: seq<T>, x: T, less: (T, T) -> bool): seq<T> {
    if s == [] || !less(x, s[|s| - 1]) then s + [x] else Insert(s[..|s| - 1], x, less) + [s[|s| - 1]]
  }

  function StableSort<T>(s: seq<T>, less: (T, T) -> bool): seq<T> {
    if s == [] then [] else Insert(StableSort(s[..|s| - 1], less), s[|s| - 1], less)
  }

  function Before(a: string, b: string): bool {
    V.CompareText(a, b) < 0
  }

  function RouteLess(): (Route, Route) -> bool {
    (a: Route, b: Route) =>
      if a.isDefault != b.isDefault then a.isDefault
      else if a.priority != b.priority then a.priority > b.priority
      else if a.sortOrder != b.sortOrder then a.sortOrder < b.sortOrder
      else Before(a.credential, b.credential)
  }

  function CredentialLess(): (Credential, Credential) -> bool {
    (a: Credential, b: Credential) =>
      if a.isDefault != b.isDefault then a.isDefault
      else if a.priority != b.priority then a.priority > b.priority
      else a.createdAt < b.createdAt
  }

  // ---------- selecting a route ----------

  predicate Usable(row: Credential, cat: Catalog) {
    row.enabled && !row.down && Useful(ChannelOf(row, 0, cat))
  }

  function RoutesOf(rows: seq<Credential>, cat: Catalog): seq<Route> {
    if rows == [] then []
    else
      var n, row := |rows| - 1, rows[|rows| - 1];
      RoutesOf(rows[..n], cat) + if Usable(row, cat) then ChannelRoutes(row.provider, ChannelOf(row, n, cat), cat) else []
  }

  /** An empty scope in the request matches any. */
  predicate Matches(r: Route, provider: string, clientModel: string, scope: string) {
    r.provider == provider && r.clientModel == clientModel && (scope == "" || ScopeText(r.scope) == scope)
  }

  function FirstMatch(routes: seq<Route>, provider: string, clientModel: string, scope: string, i: nat): Option<Route>
    decreases |routes| - i
  {
    if i >= |routes| then None
    else if Matches(routes[i], provider, clientModel, scope) then Some(routes[i])
    else FirstMatch(routes, provider, clientModel, scope, i + 1)
  }

  function Select(rows: seq<Credential>, provider: string, model: string, scope: string, cat: Catalog): Option<Route> {
    var name := Normalize(provider, model, cat.wide);
    if name == "" then None else FirstMatch(StableSort(RoutesOf(rows, cat), RouteLess()), provider, name, scope, 0)
  }

  // ---------- advertising ----------

  function Healthy(rows: seq<Credential>, provider: string): seq<Credential> {
    if rows == [] then []
    else
      var row := rows[|rows| - 1];
      Healthy(rows[..|rows| - 1], provider) + if !row.down && row.provider == provider then [row] else []
  }

  function Channels(credentials: seq<Credential>, cat: Catalog): seq<Channel> {
    if credentials == [] then []
    else
      var n := |credentials| - 1;
      var ch := ChannelOf(credentials[n], n, cat);
      Channels(credentials[..n], cat) + if Useful(ch) then [ch] else []
  }

  /** If no channel is the default, the first one becomes it. */
  function EnsureDefault(channels: seq<Channel>): seq<Channel> {
    if channels == [] || (exists i :: 0 <= i < |channels| && channels[i].isDefault) then channels
    else channels[0 := channels[0].(isDefault := true)]
  }

  function FlatMap<T, U>(s: seq<T>, f: T -> seq<U>): seq<U> {
    if s == [] then [] else FlatMap(s[..|s| - 1], f) + f(s[|s| - 1])
  }

  function RoutesBy(provider: string, cat: Catalog): Channel -> seq<Route> {
    (ch: Channel) => ChannelRoutes(provider, ch, cat)
  }

  function AllRoutes(provider: string, channels: seq<Channel>, cat: Catalog): seq<Route> {
    FlatMap(channels, RoutesBy(provider, cat))
  }

  function RouteKey(r: Route, wide: char -> char): string {
    r.provider + ":" + Lower(V.Trim(r.clientModel), wide) + ":" + ScopeText(r.scope)
  }

  function GroupOf(routes: seq<Route>, key: string, wide: char -> char): seq<Route> {
    if routes == [] then []
    else
      var r := routes[|routes| - 1];
      GroupOf(routes[..|routes| - 1], key, wide) + if RouteKey(r, wide) == key then [r] else []
  }

  /** The keys in order of first appearance. */
  function KeysOf(routes: seq<Route>, wide: char -> char): seq<string> {
    if routes == [] then []
    else
      var front := KeysOf(routes[..|routes| - 1], wide);
      var key := RouteKey(routes[|routes| - 1], wide);
      if key in front then front else front + [key]
  }

  /** Trimmed, non-blank, first spelling of each value. */
  function Merged(values: seq<string>, wide: char -> char): seq<string> {
    if values == [] then []
    else
      var front, v := Merged(values[..|values| - 1], wide), V.Trim(values[|values| - 1]);
      if v == "" || Spelled(front, v, wide) then front else front + [v]
  }

  predicate Spelled(list: seq<string>, v: string, wide: char -> char) {
    exists i :: 0 <= i < |list| && Lower(list[i], wide) == Lower(v, wide)
  }

  function Flatten(lists: seq<seq<string>>): seq<string> {
    if lists == [] then [] else Flatten(lists[..|lists| - 1]) + lists[|lists| - 1]
  }

  /** One kind of feature, route by route. */
  function Column(group: seq<Route>, pick: Features -> seq<string>): seq<seq<string>> {
    if group == [] then [] else Column(group[..|group| - 1], pick) + [pick(group[|group| - 1].features)]
  }

  function Union(group: seq<Route>, pick: Features -> seq<string>, wide: char -> char): seq<string> {
    Merged(Flatten(Column(group, pick)), wide)
  }

  function AllFeatures(group: seq<Route>, wide: char -> char): Features {
    Features(Union(group, (f: Features) => f.modes, wide), Union(group, (f: Features) => f.scopes, wide),
             Union(group, (f: Features) => f.aspectRatios, wide), Union(group, (f: Features) => f.durations, wide),
             Union(group, (f: Features) => f.resolutions, wide))
  }

  /** One advertised model. */
  datatype Entry = Entry(provider: string, clientModel: string, scope: Scope, first: Route, features: Features,
                         sortOrder: nat, isDefault: bool)

  /** The least route of the group stands for it. */
  function EntryOf(group: seq<Route>, index: nat, wide: char -> char): Entry
    requires group != []
  {
    SortKeepsEmptiness(group, RouteLess());
    var sorted := StableSort(group, RouteLess());
    Entry(sorted[0].provider, sorted[0].clientModel, sorted[0].scope, sorted[0],
          AllFeatures(sorted, wide), index, index == 0)
  }

  function GroupsOf(keys: seq<string>, routes: seq<Route>, wide: char -> char): (r: seq<seq<Route>>)
    ensures |r| == |keys|
  {
    if keys == [] then []
    else GroupsOf(keys[..|keys| - 1], routes, wide) + [GroupOf(routes, keys[|keys| - 1], wide)]
  }

  function EntriesOf(groups: seq<seq<Route>>, wide: char -> char): (r: seq<Entry>)
    requires [] !in groups
    ensures |r| == |groups|
  {
    if groups == [] then []
    else
      var n := |groups| - 1;
      assert groups[n] in groups;
      EntriesOf(groups[..n], wide) + [EntryOf(groups[n], n, wide)]
  }

  /** Groups are listed by the place of their first route. */
  function KeyLess(routes: seq<Route>, wide: char -> char): (string, string) -> bool {
    (a: string, b: string) =>
      var x, y := GroupOf(routes, a, wide), GroupOf(routes, b, wide);
      if x == [] || y == [] then false
      else if x[0].provider != y[0].provider then Before(x[0].provider, y[0].provider)
      else if x[0].sortOrder != y[0].sortOrder then x[0].sortOrder < y[0].sortOrder
      else Before(x[0].displayName, y[0].displayName)
  }

  function ProviderRoutes(rows: seq<Credential>, provider: string, cat: Catalog): seq<Route> {
    var channels := EnsureDefault(Channels(StableSort(Healthy(rows, provider), CredentialLess()), cat));
    StableSort(AllRoutes(provider, channels, cat), RouteLess())
  }

  /** The groups of a route list in the order they are listed. */
  function ListedGroups(routes: seq<Route>, wide: char -> char): seq<seq<Route>> {
    GroupsOf(StableSort(KeysOf(routes, wide), KeyLess(routes, wide)), routes, wide)
  }

  /** What is advertised for one provider; a provider without routable channels advertises no model. */
  function Capability(rows: seq<Credential>, provider: string, cat: Catalog): seq<Entry> {
    var routes := ProviderRoutes(rows, provider, cat);
    SortedKeysLaw(routes, KeyLess(routes, cat.wide), cat.wide);
    EntriesOf(ListedGroups(routes, cat.wide), cat.wide)
  }

  /** A provider's part of the answer: its models, or its bare channels if none of them names a model. */
  datatype Listing = Collapsed(entries: seq<Entry>) | Raw(channels: seq<Channel>)

  function ListingOf(rows: seq<Credential>, provider: string, cat: Catalog): Option<Listing> {
    var channels := EnsureDefault(Channels(StableSort(Healthy(rows, provider), CredentialLess()), cat));
    if channels == [] then None
    else if AllRoutes(provider, channels, cat) == [] then Some(Raw(channels))
    else Some(Collapsed(Capability(rows, provider, cat)))
  }

  // ---------- sorting laws ----------

  lemma {:induction false} InsertSame<T>(s: seq<T>, x: T, less: (T, T) -> bool)
    ensures multiset(Insert(s, x, less)) == multiset(s) + multiset{x}
    ensures |Insert(s, x, less)| == |s| + 1
  {
    if s != [] && less(x, s[|s| - 1]) {
      InsertSame(s[..|s| - 1], x, less);
      assert s == s[..|s| - 1] + [s[|s| - 1]];
    }
  }

  /** Sorting loses and invents nothing. */
  lemma {:induction false} SortSame<T>(s: seq<T>, less: (T, T) -> bool)
    ensures multiset(StableSort(s, less)) == multiset(s)
    ensures |StableSort(s, less)| == |s|
    ensures forall x :: x in StableSort(s, less) <==> x in s
  {
    if s != [] {
      SortSame(s[..|s| - 1], less);
      InsertSame(StableSort(s[..|s| - 1], less), s[|s| - 1], less);
      assert s == s[..|s| - 1] + [s[|s| - 1]];
    }
    forall x ensures x in StableSort(s, less) <==> x in s {
      assert x in s <==> x in multiset(s);
      assert x in StableSort(s, less) <==> x in multiset(StableSort(s, less));
    }
  }

  lemma SortKeepsEmptiness<T>(s: seq<T>, less: (T, T) -> bool)
    requires s != []
    ensures StableSort(s, less) != []
  {
    SortSame(s, less);
  }

  ghost predicate WeakOrder<T(!new)>(less: (T, T) -> bool) {
    && (forall x, y :: less(x, y) ==> !less(y, x))
    && (forall x, y, z :: less(x, z) ==> less(x, y) || less(y, z))
  }

  predicate Sorted<T>(s: seq<T>, less: (T, T) -> bool) {
    forall i, j :: 0 <= i < j < |s| ==> !less(s[j], s[i])
  }

  lemma NotLess<T(!new)>(x: T, y: T, z: T, less: (T, T) -> bool)
    requires WeakOrder(less) && !less(x, y) && (y == z || !less(y, z))
    ensures !less(x, z)
  {
  }

  lemma {:induction false} InsertSorts<T(!new)>(s: seq<T>, x: T, less: (T, T) -> bool)
    requires WeakOrder(less) && Sorted(s, less)
    ensures Sorted(Insert(s, x, less), less)
  {
    if s == [] || !less(x, s[|s| - 1]) {
      forall i | 0 <= i < |s| ensures !less(x, s[i]) {
        NotLess(x, s[|s| - 1], s[i], less);
      }
    } else {
      var front, last := s[..|s| - 1], s[|s| - 1];
      InsertSorts(front, x, less);
      InsertSame(front, x, less);
      var t := Insert(front, x, less);
      forall i | 0 <= i < |t| ensures !less(last, t[i]) {
        assert t[i] in multiset(t);
        if t[i] != x {
          assert t[i] in front;
          var k :| 0 <= k < |front| && front[k] == t[i];
          assert s[k] == t[i];
        }
      }
    }
  }

  lemma {:induction false} SortSorts<T(!new)>(s: seq<T>, less: (T, T) -> bool)
    requires WeakOrder(less)
    ensures Sorted(StableSort(s, less), less)
  {
    if s != [] {
      SortSorts(s[..|s| - 1], less);
      InsertSorts(StableSort(s[..|s| - 1], less), s[|s| - 1], less);
    }
  }

  lemma {:induction false} TextTransitive(a: string, b: string, c: string)
    ensures V.CompareText(a, c) < 0 ==> V.CompareText(a, b) < 0 || V.CompareText(b, c) < 0
  {
    if a != "" && b != "" && c != "" {
      TextTransitive(a[1..], b[1..], c[1..]);
    }
  }

  lemma RouteLessIsWeakOrder()
    ensures WeakOrder(RouteLess())
  {
    forall x, y | RouteLess()(x, y) ensures !RouteLess()(y, x) {
      V.CompareTextRange(x.credential, y.credential);
    }
    forall x, y, z | RouteLess()(x, z) ensures RouteLess()(x, y) || RouteLess()(y, z) {
      TextTransitive(x.credential, y.credential, z.credential);
    }
  }

  // ---------- the selected route ----------

  lemma {:induction false} FirstMatchLaw(routes: seq<Route>, provider: string, name: string, scope: string, i: nat)
    ensures var found := FirstMatch(routes, provider, name, scope, i);
            && (found.None? <==> forall j :: i <= j < |routes| ==> !Matches(routes[j], provider, name, scope))
            && (found.Some? ==>
                  exists k :: i <= k < |routes| && found == Some(routes[k]) && Matches(routes[k], provider, name, scope)
                                && forall j :: i <= j < k ==> !Matches(routes[j], provider, name, scope))
    decreases |routes| - i
  {
    if i < |routes| && !Matches(routes[i], provider, name, scope) {
      FirstMatchLaw(routes, provider, name, scope, i + 1);
    }
  }

  /** A route is found exactly when some credential's route matches. */
  lemma SelectFindsIff(rows: seq<Credential>, provider: string, model: string, scope: string, cat: Catalog)
    ensures var name := Normalize(provider, model, cat.wide);
            Select(rows, provider, model, scope, cat).Some?
            <==> name != "" && exists r :: r in RoutesOf(rows, cat) && Matches(r, provider, name, scope)
  {
    var name, routes := Normalize(provider, model, cat.wide), RoutesOf(rows, cat);
    var sorted := StableSort(routes, RouteLess());
    FirstMatchLaw(sorted, provider, name, scope, 0);
    SortSame(routes, RouteLess());
    if r :| r in routes && Matches(r, provider, name, scope) {
      assert r in sorted;
    }
    if FirstMatch(sorted, provider, name, scope, 0).Some? {
      var k :| 0 <= k < |sorted| && Matches(sorted[k], provider, name, scope);
      assert sorted[k] in sorted;
    }
  }

  /** The selected route is least among all routes that match, for any credentials in any order. */
  lemma SelectedIsLeast(rows: seq<Credential>, provider: string, model: string, scope: string, cat: Catalog)
    requires Select(rows, provider, model, scope, cat).Some?
    ensures var chosen := Select(rows, provider, model, scope, cat).value;
            var name := Normalize(provider, model, cat.wide);
            && chosen in RoutesOf(rows, cat) && Matches(chosen, provider, name, scope)
            && forall r :: r in RoutesOf(rows, cat) && Matches(r, provider, name, scope) ==> !RouteLess()(r, chosen)
  {
    var name, routes := Normalize(provider, model, cat.wide), RoutesOf(rows, cat);
    SortSame(routes, RouteLess());
    RouteLessIsWeakOrder();
    SortSorts(routes, RouteLess());
    FirstMatchIsLeast(StableSort(routes, RouteLess()), provider, name, scope);
  }

  /** In a sorted list the first match is a least one. */
  lemma FirstMatchIsLeast(sorted: seq<Route>, provider: string, name: string, scope: string)
    requires Sorted(sorted, RouteLess()) && FirstMatch(sorted, provider, name, scope, 0).Some?
    ensures var chosen := FirstMatch(sorted, provider, name, scope, 0).value;
            && chosen in sorted && Matches(chosen, provider, name, scope)
            && forall r :: r in sorted && Matches(r, provider, name, scope) ==> !RouteLess()(r, chosen)
  {
    FirstMatchLaw(sorted, provider, name, scope, 0);
    var k :| 0 <= k < |sorted| && FirstMatch(sorted, provider, name, scope, 0) == Some(sorted[k])
             && Matches(sorted[k], provider, name, scope) && forall j :: 0 <= j < k ==> !Matches(sorted[j], provider, name, scope);
    forall r | r in sorted && Matches(r, provider, name, scope) ensures !RouteLess()(r, sorted[k]) {
      var j :| 0 <= j < |sorted| && sorted[j] == r;
      V.CompareTextRange(sorted[k].credential, sorted[k].credential);
    }
  }

  lemma {:induction false} SortOrderBound(rows: seq<Credential>, cat: Catalog)
    ensures forall r :: r in RoutesOf(rows, cat) ==> 0 <= r.sortOrder < |rows|
  {
    if rows != [] {
      SortOrderBound(rows[..|rows| - 1], cat);
    }
  }

  /** No two routes tie: the sort order names the credential's position, and a credential has one route. */
  lemma {:induction false} SortOrderIdentifies(rows: seq<Credential>, cat: Catalog, a: Route, b: Route)
    requires a in RoutesOf(rows, cat) && b in RoutesOf(rows, cat) && a.sortOrder == b.sortOrder
    ensures a == b
  {
    if rows != [] {
      var front := rows[..|rows| - 1];
      SortOrderBound(front, cat);
      if a in RoutesOf(front, cat) && b in RoutesOf(front, cat) {
        SortOrderIdentifies(front, cat, a, b);
      }
    }
  }

  /** So the choice is forced: any other matching route is strictly worse. */
  lemma SelectionIsForced(rows: seq<Credential>, provider: string, model: string, scope: string, cat: Catalog, r: Route)
    requires Select(rows, provider, model, scope, cat).Some?
    requires r in RoutesOf(rows, cat) && Matches(r, provider, Normalize(provider, model, cat.wide), scope)
    ensures r == Select(rows, provider, model, scope, cat).value || RouteLess()(Select(rows, provider, model, scope, cat).value, r)
  {
    SelectedIsLeast(rows, provider, model, scope, cat);
    var chosen := Select(rows, provider, model, scope, cat).value;
    if r.sortOrder == chosen.sortOrder {
      SortOrderIdentifies(rows, cat, r, chosen);
    }
  }

  // ---------- normalisation ----------

  lemma {:induction false} MapTextAt(s: string, f: char -> char)
    ensures |MapText(s, f)| == |s|
    ensures forall i :: 0 <= i < |s| ==> MapText(s, f)[i] == f(s[i])
  {
    if s != "" {
      MapTextAt(s[..|s| - 1], f);
    }
  }

  lemma MapTextFixed(s: string, f: char -> char)
    requires forall i :: 0 <= i < |s| ==> f(s[i]) == s[i]
    ensures MapText(s, f) == s
  {
    MapTextAt(s, f);
    assert MapText(s, f) == s;
  }

  /** No blank at either end. */
  predicate Tight(s: string) {
    s == "" || (!V.Space(s[0]) && !V.Space(s[|s| - 1]))
  }

  lemma {:induction false} TrimRightTight(s: string)
    requires s == "" || !V.Space(s[0])
    ensures Tight(V.TrimRight(s))
  {
    if s != "" && V.Space(s[|s| - 1]) {
      TrimRightTight(s[..|s| - 1]);
    }
  }

  lemma {:induction false} TrimLeftTight(s: string)
    ensures V.TrimLeft(s) == "" || !V.Space(V.TrimLeft(s)[0])
  {
    if s != "" && V.Space(s[0]) {
      TrimLeftTight(s[1..]);
    }
  }

  lemma TrimTight(s: string)
    ensures Tight(V.Trim(s))
    ensures Tight(s) ==> V.Trim(s) == s
  {
    TrimLeftTight(s);
    TrimRightTight(V.TrimLeft(s));
  }

  /** In normal form: tight, lower-case and without '_'. */
  predicate Neat(s: string, wide: char -> char) {
    Tight(s) && forall i :: 0 <= i < |s| ==> LowerChar(s[i], wide) == s[i] && s[i] != '_'
  }

  lemma CleanIsNeat(s: string, wide: char -> char)
    requires GoodLower(wide)
    ensures Neat(Clean(s, wide), wide)
    ensures Clean(s, wide) == "" <==> V.Trim(s) == ""
  {
    TrimTight(s);
    MapTextAt(V.Trim(s), c => CleanChar(c, wide));
  }

  lemma NeatIsFixed(s: string, wide: char -> char)
    requires Neat(s, wide)
    ensures V.Trim(s) == s && Clean(s, wide) == s && Lower(s, wide) == s
  {
    TrimTight(s);
    MapTextFixed(s, c => CleanChar(c, wide));
    MapTextFixed(s, c => LowerChar(c, wide));
  }

  lemma AliasNamesAreNeat(wide: char -> char)
    ensures Neat("veo-3.1", wide) && Neat("veo-3.1-fast", wide) && Neat("grok-imagine", wide)
  {
    SmallLettersAreNeat("veo-3.1", wide);
    SmallLettersAreNeat("veo-3.1-fast", wide);
    SmallLettersAreNeat("grok-imagine", wide);
  }

  lemma SmallLettersAreNeat(s: string, wide: char -> char)
    requires forall i :: 0 <= i < |s| ==> 'a' <= s[i] <= 'z' || '0' <= s[i] <= '9' || s[i] == '-' || s[i] == '.'
    ensures Neat(s, wide)
  {
  }

  lemma AliasIsNeat(provider: string, name: string, wide: char -> char)
    requires Neat(name, wide)
    ensures Neat(Alias(provider, name), wide)
    ensures Alias(provider, Alias(provider, name)) == Alias(provider, name)
    ensures Alias(provider, name) == "" <==> name == ""
  {
    AliasNamesAreNeat(wide);
    var alias := Alias(provider, name);
    assert alias == name || alias in {"veo-3.1", "veo-3.1-fast", "grok-imagine"};
  }

  /** Normalising is idempotent, so clients may send back what they were shown. */
  lemma NormalizeIsIdempotent(provider: string, model: string, wide: char -> char)
    requires GoodLower(wide)
    ensures Normalize(provider, Normalize(provider, model, wide), wide) == Normalize(provider, model, wide)
    ensures Neat(Normalize(provider, model, wide), wide)
    ensures Normalize(provider, model, wide) == "" <==> V.Trim(model) == ""
  {
    CleanIsNeat(model, wide);
    AliasIsNeat(provider, Clean(model, wide), wide);
    NeatIsFixed(Normalize(provider, model, wide), wide);
  }

  // ---------- grouping ----------

  lemma {:induction false} GroupLaw(routes: seq<Route>, key: string, wide: char -> char)
    ensures forall r :: r in GroupOf(routes, key, wide) <==> r in routes && RouteKey(r, wide) == key
  {
    if routes != [] {
      GroupLaw(routes[..|routes| - 1], key, wide);
      assert routes == routes[..|routes| - 1] + [routes[|routes| - 1]];
    }
  }

  lemma {:induction false} KeysLaw(routes: seq<Route>, wide: char -> char)
    ensures Distinct(KeysOf(routes, wide))
    ensures forall key :: key in KeysOf(routes, wide) <==> exists r :: r in routes && RouteKey(r, wide) == key
  {
    if routes != [] {
      var front, last := routes[..|routes| - 1], routes[|routes| - 1];
      KeysLaw(front, wide);
      assert routes == front + [last];
      forall key ensures key in KeysOf(routes, wide) <==> exists r :: r in routes && RouteKey(r, wide) == key {
        assert key in KeysOf(routes, wide) <==> key in KeysOf(front, wide) || key == RouteKey(last, wide);
        if key == RouteKey(last, wide) {
          assert last in routes;
        }
        if r :| r in front && RouteKey(r, wide) == key {
          assert r in routes;
        }
      }
    }
  }

  lemma KeysHaveGroups(routes: seq<Route>, wide: char -> char)
    ensures forall key :: key in KeysOf(routes, wide) ==> GroupOf(routes, key, wide) != []
  {
    KeysLaw(routes, wide);
    forall key | key in KeysOf(routes, wide) ensures GroupOf(routes, key, wide) != [] {
      var r :| r in routes && RouteKey(r, wide) == key;
      GroupLaw(routes, key, wide);
      assert r in GroupOf(routes, key, wide);
    }
  }

  lemma {:induction false} GroupsAt(keys: seq<string>, routes: seq<Route>, wide: char -> char, i: nat)
    requires i < |keys|
    ensures GroupsOf(keys, routes, wide)[i] == GroupOf(routes, keys[i], wide)
  {
    if i < |keys| - 1 {
      GroupsAt(keys[..|keys| - 1], routes, wide, i);
    }
  }

  lemma {:induction false} EntriesAt(groups: seq<seq<Route>>, wide: char -> char, i: nat)
    requires [] !in groups && i < |groups|
    ensures groups[i] != [] && EntriesOf(groups, wide)[i] == EntryOf(groups[i], i, wide)
  {
    if i < |groups| - 1 {
      EntriesAt(groups[..|groups| - 1], wide, i);
    }
  }

  /** Each entry is made from the least route of its key's group. */
  lemma EntryLaw(key: string, n: nat, routes: seq<Route>, wide: char -> char)
    requires GroupOf(routes, key, wide) != []
    ensures EntryFits(EntryOf(GroupOf(routes, key, wide), n, wide), key, n, routes, wide)
  {
    var group := GroupOf(routes, key, wide);
    GroupLaw(routes, key, wide);
    LeastFirst(group);
    assert StableSort(group, RouteLess())[0] in group;
  }

  lemma LeastFirst(group: seq<Route>)
    requires group != []
    ensures var sorted := StableSort(group, RouteLess());
            sorted != [] && sorted[0] in group && forall r :: r in group ==> !RouteLess()(r, sorted[0])
  {
    var sorted := StableSort(group, RouteLess());
    SortSame(group, RouteLess());
    assert sorted[0] in sorted;
    RouteLessIsWeakOrder();
    SortSorts(group, RouteLess());
    forall r | r in group ensures !RouteLess()(r, sorted[0]) {
      assert r in sorted;
      var j :| 0 <= j < |sorted| && sorted[j] == r;
      assert !RouteLess()(sorted[0], sorted[0]);
    }
  }

  ghost predicate EntryFits(e: Entry, key: string, i: nat, routes: seq<Route>, wide: char -> char) {
    && e.first in routes && RouteKey(e.first, wide) == key
    && e.provider == e.first.provider && e.clientModel == e.first.clientModel && e.scope == e.first.scope
    && e.sortOrder == i && e.isDefault == (i == 0)
    && forall r :: r in GroupOf(routes, key, wide) ==> !RouteLess()(r, e.first)
  }

  /** A scope's name has no ':', so the last one in a key splits it. */
  lemma LastColon(x: string, a: string, s: Scope)
    requires x == a + ":" + ScopeText(s)
    ensures |a| < |x| && x[|a|] == ':' && x[..|a|] == a && x[|a| + 1..] == ScopeText(s)
    ensures forall i :: |a| < i < |x| ==> x[i] != ':'
  {
    forall i | |a| < i < |x| ensures x[i] != ':' {
      assert x[i] == ScopeText(s)[i - |a| - 1];
    }
  }

  lemma KeySplits(a: string, s: Scope, b: string, t: Scope)
    requires a + ":" + ScopeText(s) == b + ":" + ScopeText(t)
    ensures a == b && s == t
  {
    LastColon(a + ":" + ScopeText(s), a, s);
    LastColon(b + ":" + ScopeText(t), b, t);
    assert |a| == |b|;
    assert ScopeText(s) == ScopeText(t);
  }

  lemma KeyIdentifies(a: Route, b: Route, wide: char -> char)
    requires a.provider == b.provider && Neat(a.clientModel, wide) && Neat(b.clientModel, wide)
    requires RouteKey(a, wide) == RouteKey(b, wide)
    ensures a.clientModel == b.clientModel && a.scope == b.scope
  {
    NeatIsFixed(a.clientModel, wide);
    NeatIsFixed(b.clientModel, wide);
    var x, y := a.provider + ":" + a.clientModel, b.provider + ":" + b.clientModel;
    KeySplits(x, a.scope, y, b.scope);
    assert a.clientModel == x[|a.provider| + 1..] == y[|b.provider| + 1..] == b.clientModel;
  }

  // ---------- the two computations see the same offers ----------

  /** A credential can serve a client model in a scope. */
  predicate Offers(row: Credential, name: string, scope: Scope, cat: Catalog) {
    && !row.down && Useful(ChannelOf(row, 0, cat))
    && exists r :: r in ChannelRoutes(row.provider, ChannelOf(row, 0, cat), cat) && r.clientModel == name && r.scope == scope
  }

  function Moved(r: Route, isDefault: bool, sortOrder: int): Route {
    r.(isDefault := isDefault, sortOrder := sortOrder)
  }

  /** A channel's place and default mark only pass through to its route. */
  lemma PlaceOnlyMoves(provider: string, ch: Channel, isDefault: bool, sortOrder: int, cat: Catalog)
    ensures var here := ChannelRoutes(provider, ch, cat);
            var there := ChannelRoutes(provider, ch.(isDefault := isDefault, sortOrder := sortOrder), cat);
            |here| == |there| <= 1 && (here != [] ==> there[0] == Moved(here[0], isDefault, sortOrder))
  {
  }

  lemma OffersHere(row: Credential, index: nat, isDefault: bool, name: string, scope: Scope, cat: Catalog)
    requires !row.down && Useful(ChannelOf(row, 0, cat))
    ensures var ch := ChannelOf(row, index, cat).(isDefault := isDefault);
            (exists r :: r in ChannelRoutes(row.provider, ch, cat) && r.clientModel == name && r.scope == scope)
            <==> Offers(row, name, scope, cat)
  {
    var ch := ChannelOf(row, index, cat).(isDefault := isDefault);
    var here, there := ChannelRoutes(row.provider, ChannelOf(row, 0, cat), cat), ChannelRoutes(row.provider, ch, cat);
    PlaceOnlyMoves(row.provider, ChannelOf(row, 0, cat), isDefault, index, cat);
    if here != [] {
      assert here[0] in here && there[0] in there;
    }
  }

  lemma RouteIsNeat(provider: string, ch: Channel, cat: Catalog)
    requires GoodLower(cat.wide)
    ensures forall r :: r in ChannelRoutes(provider, ch, cat) ==>
                          r.provider == provider && Neat(r.clientModel, cat.wide) && r.clientModel != ""
  {
    var models := ChannelModels(ch);
    if models != [] {
      var upstream := FirstNonEmpty(models[0], ch.defaultModel);
      NormalizeIsIdempotent(provider, upstream, cat.wide);
    }
  }

  predicate Has(routes: seq<Route>, provider: string, name: string, scope: Scope) {
    exists r :: r in routes && r.provider == provider && r.clientModel == name && r.scope == scope
  }

  lemma HasJoin(a: seq<Route>, b: seq<Route>, provider: string, name: string, scope: Scope)
    ensures Has(a + b, provider, name, scope) <==> Has(a, provider, name, scope) || Has(b, provider, name, scope)
  {
    if r :| r in a && r.provider == provider && r.clientModel == name && r.scope == scope {
      assert r in a + b;
    }
    if r :| r in b && r.provider == provider && r.clientModel == name && r.scope == scope {
      assert r in a + b;
    }
  }

  predicate AnyOf<T>(list: seq<T>, p: T -> bool) {
    exists i :: 0 <= i < |list| && p(list[i])
  }

  function Serves(provider: string, name: string, scope: Scope, cat: Catalog): Credential -> bool {
    (row: Credential) => row.provider == provider && Offers(row, name, scope, cat)
  }

  lemma OneRow(row: Credential, index: nat, isDefault: bool, provider: string, name: string, scope: Scope, cat: Catalog)
    requires GoodLower(cat.wide) && !row.down && Useful(ChannelOf(row, 0, cat))
    ensures Has(ChannelRoutes(row.provider, ChannelOf(row, index, cat).(isDefault := isDefault), cat), provider, name, scope)
       <==> row.provider == provider && Offers(row, name, scope, cat)
  {
    OffersHere(row, index, isDefault, name, scope, cat);
    RouteIsNeat(row.provider, ChannelOf(row, index, cat).(isDefault := isDefault), cat);
  }

  lemma {:induction false} RoutesOffer(rows: seq<Credential>, provider: string, name: string, scope: Scope, cat: Catalog)
    requires GoodLower(cat.wide) && forall i :: 0 <= i < |rows| ==> rows[i].enabled
    ensures Has(RoutesOf(rows, cat), provider, name, scope) <==> AnyOf(rows, Serves(provider, name, scope, cat))
  {
    if rows != [] {
      var n, row := |rows| - 1, rows[|rows| - 1];
      RoutesOffer(rows[..n], provider, name, scope, cat);
      var more := if Usable(row, cat) then ChannelRoutes(row.provider, ChannelOf(row, n, cat), cat) else [];
      HasJoin(RoutesOf(rows[..n], cat), more, provider, name, scope);
      if Usable(row, cat) {
        OneRow(row, n, row.isDefault, provider, name, scope, cat);
        assert ChannelOf(row, n, cat).(isDefault := row.isDefault) == ChannelOf(row, n, cat);
      }
      SomeSnoc(rows, Serves(provider, name, scope, cat));
    }
  }

  lemma SomeSnoc<T>(list: seq<T>, p: T -> bool)
    requires list != []
    ensures AnyOf(list, p) <==> AnyOf(list[..|list| - 1], p) || p(list[|list| - 1])
  {
    var front := list[..|list| - 1];
    if AnyOf(front, p) {
      var i :| 0 <= i < |front| && p(front[i]);
      assert list[i] == front[i];
    }
    if AnyOf(list, p) {
      var i :| 0 <= i < |list| && p(list[i]);
      assert i < |front| ==> front[i] == list[i];
    }
  }

  /** The channels of a credential list, any of them possibly marked as default afterwards. */
  predicate SameButDefault(a: seq<Channel>, b: seq<Channel>) {
    |a| == |b| && forall i :: 0 <= i < |a| ==> a[i] == b[i].(isDefault := a[i].isDefault)
  }

  lemma {:induction false} ChannelsOffer(credentials: seq<Credential>, marked: seq<Channel>, provider: string, name: string,
                                         scope: Scope, cat: Catalog)
    requires GoodLower(cat.wide) && forall i :: 0 <= i < |credentials| ==> !credentials[i].down && credentials[i].provider == provider
    requires SameButDefault(marked, Channels(credentials, cat))
    ensures Has(AllRoutes(provider, marked, cat), provider, name, scope) <==> AnyOf(credentials, Serves(provider, name, scope, cat))
  {
    if credentials != [] {
      SomeSnoc(credentials, Serves(provider, name, scope, cat));
      LastOffers(credentials, marked, provider, name, scope, cat);
      ChannelsOffer(credentials[..|credentials| - 1], AllButLast(credentials, marked, cat), provider, name, scope, cat);
    }
  }

  /** The channels without the last credential's, if it makes one. */
  function AllButLast(credentials: seq<Credential>, marked: seq<Channel>, cat: Catalog): seq<Channel>
    requires credentials != []
  {
    if Useful(ChannelOf(credentials[|credentials| - 1], |credentials| - 1, cat)) && marked != [] then marked[..|marked| - 1] else marked
  }

  lemma LastOffers(credentials: seq<Credential>, marked: seq<Channel>, provider: string, name: string, scope: Scope, cat: Catalog)
    requires GoodLower(cat.wide) && credentials != []
    requires !credentials[|credentials| - 1].down && credentials[|credentials| - 1].provider == provider
    requires SameButDefault(marked, Channels(credentials, cat))
    ensures var row, rest := credentials[|credentials| - 1], AllButLast(credentials, marked, cat);
            && SameButDefault(rest, Channels(credentials[..|credentials| - 1], cat))
            && (Has(AllRoutes(provider, marked, cat), provider, name, scope)
                <==> Has(AllRoutes(provider, rest, cat), provider, name, scope) || Serves(provider, name, scope, cat)(row))
  {
    var n, row := |credentials| - 1, credentials[|credentials| - 1];
    MarkedSnoc(credentials, marked, cat);
    if Useful(ChannelOf(row, n, cat)) {
      LastChannelOffers(row, n, marked, provider, name, scope, cat);
    } else {
      UselessServesNothing(row, n, provider, name, scope, cat);
    }
  }

  lemma UselessServesNothing(row: Credential, n: nat, provider: string, name: string, scope: Scope, cat: Catalog)
    requires !Useful(ChannelOf(row, n, cat))
    ensures !Serves(provider, name, scope, cat)(row)
  {
  }

  lemma MarkedSnoc(credentials: seq<Credential>, marked: seq<Channel>, cat: Catalog)
    requires credentials != [] && SameButDefault(marked, Channels(credentials, cat))
    ensures var n := |credentials| - 1;
            var ch, front := ChannelOf(credentials[n], n, cat), Channels(credentials[..n], cat);
            if Useful(ch) then
              marked != [] && marked[|marked| - 1] == ch.(isDefault := marked[|marked| - 1].isDefault)
              && SameButDefault(marked[..|marked| - 1], front)
            else SameButDefault(marked, front)
  {
  }

  lemma LastChannelOffers(row: Credential, n: nat, marked: seq<Channel>, provider: string, name: string, scope: Scope, cat: Catalog)
    requires GoodLower(cat.wide) && !row.down && row.provider == provider && Useful(ChannelOf(row, n, cat))
    requires marked != [] && marked[|marked| - 1] == ChannelOf(row, n, cat).(isDefault := marked[|marked| - 1].isDefault)
    ensures Has(AllRoutes(provider, marked, cat), provider, name, scope)
       <==> Has(AllRoutes(provider, marked[..|marked| - 1], cat), provider, name, scope) || Serves(provider, name, scope, cat)(row)
  {
    var m := |marked| - 1;
    OneRow(row, n, marked[m].isDefault, provider, name, scope, cat);
    HasJoin(AllRoutes(provider, marked[..m], cat), ChannelRoutes(provider, marked[m], cat), provider, name, scope);
  }

  lemma {:induction false} HealthyLaw(rows: seq<Credential>, provider: string)
    ensures forall row :: row in Healthy(rows, provider) <==> row in rows && !row.down && row.provider == provider
  {
    if rows != [] {
      HealthyLaw(rows[..|rows| - 1], provider);
      assert rows == rows[..|rows| - 1] + [rows[|rows| - 1]];
    }
  }

  lemma SameSome<T>(a: seq<T>, b: seq<T>, p: T -> bool)
    requires forall x :: p(x) ==> (x in a <==> x in b)
    ensures AnyOf(a, p) <==> AnyOf(b, p)
  {
    if AnyOf(a, p) {
      var i :| 0 <= i < |a| && p(a[i]);
      assert a[i] in a;
      var j :| 0 <= j < |b| && b[j] == a[i];
    }
    if AnyOf(b, p) {
      var i :| 0 <= i < |b| && p(b[i]);
      assert b[i] in b;
      var j :| 0 <= j < |a| && a[j] == b[i];
    }
  }

  lemma ProviderRoutesOffer(rows: seq<Credential>, provider: string, name: string, scope: Scope, cat: Catalog)
    requires GoodLower(cat.wide)
    ensures Has(ProviderRoutes(rows, provider, cat), provider, name, scope) <==> AnyOf(rows, Serves(provider, name, scope, cat))
    ensures forall r :: r in ProviderRoutes(rows, provider, cat) ==>
                          r.provider == provider && Neat(r.clientModel, cat.wide) && r.clientModel != ""
  {
    var healthy := Healthy(rows, provider);
    var credentials := StableSort(healthy, CredentialLess());
    var channels := EnsureDefault(Channels(credentials, cat));
    var routes := AllRoutes(provider, channels, cat);
    HealthyLaw(rows, provider);
    SortSame(healthy, CredentialLess());
    forall i | 0 <= i < |credentials| ensures !credentials[i].down && credentials[i].provider == provider {
      assert credentials[i] in credentials;
    }
    ChannelsOffer(credentials, channels, provider, name, scope, cat);
    SameSome(credentials, rows, Serves(provider, name, scope, cat));
    SortSame(routes, RouteLess());
    AllRoutesNeat(provider, channels, cat);
    assert Has(routes, provider, name, scope) <==> Has(ProviderRoutes(rows, provider, cat), provider, name, scope);
  }

  lemma {:induction false} AllRoutesNeat(provider: string, channels: seq<Channel>, cat: Catalog)
    requires GoodLower(cat.wide)
    ensures forall r :: r in AllRoutes(provider, channels, cat) ==>
                          r.provider == provider && Neat(r.clientModel, cat.wide) && r.clientModel != ""
  {
    if channels != [] {
      AllRoutesNeat(provider, channels[..|channels| - 1], cat);
      RouteIsNeat(provider, channels[|channels| - 1], cat);
    }
  }

  // ---------- advertised equals routable ----------

  predicate Advertised(entries: seq<Entry>, name: string, scope: Scope) {
    exists i :: 0 <= i < |entries| && entries[i].clientModel == name && entries[i].scope == scope
  }

  /** The entries of a provider are exactly the (model, scope) pairs of its routes, each once. */
  lemma CapabilityLaw(rows: seq<Credential>, provider: string, cat: Catalog)
    requires GoodLower(cat.wide)
    ensures var entries, routes := Capability(rows, provider, cat), ProviderRoutes(rows, provider, cat);
            && (forall name, scope :: Advertised(entries, name, scope) <==> Has(routes, provider, name, scope))
            && (forall i, j :: 0 <= i < j < |entries| ==>
                  !(entries[i].clientModel == entries[j].clientModel && entries[i].scope == entries[j].scope))
  {
    var routes := ProviderRoutes(rows, provider, cat);
    ProviderRoutesOffer(rows, provider, "", Video, cat);
    var keys := StableSort(KeysOf(routes, cat.wide), KeyLess(routes, cat.wide));
    SortedKeysLaw(routes, KeyLess(routes, cat.wide), cat.wide);
    var entries := Capability(rows, provider, cat);
    EntriesLaw(entries, keys, routes, cat.wide);
    forall name, scope ensures Advertised(entries, name, scope) <==> Has(routes, provider, name, scope) {
      EntriesAdvertise(entries, keys, routes, provider, name, scope, cat.wide);
    }
    EntriesDiffer(entries, keys, routes, cat.wide);
  }

  lemma EntriesLaw(entries: seq<Entry>, keys: seq<string>, routes: seq<Route>, wide: char -> char)
    requires [] !in GroupsOf(keys, routes, wide) && entries == EntriesOf(GroupsOf(keys, routes, wide), wide)
    ensures EntriesFit(entries, keys, routes, wide)
  {
    forall i | 0 <= i < |keys| ensures EntryFits(entries[i], keys[i], i, routes, wide) {
      GroupsAt(keys, routes, wide, i);
      EntriesAt(GroupsOf(keys, routes, wide), wide, i);
      EntryLaw(keys[i], i, routes, wide);
    }
  }

  lemma SortedKeysLaw(routes: seq<Route>, less: (string, string) -> bool, wide: char -> char)
    ensures Distinct(StableSort(KeysOf(routes, wide), less))
    ensures forall r :: r in routes ==> RouteKey(r, wide) in StableSort(KeysOf(routes, wide), less)
    ensures [] !in GroupsOf(StableSort(KeysOf(routes, wide), less), routes, wide)
  {
    var unsorted := KeysOf(routes, wide);
    var keys := StableSort(unsorted, less);
    KeysHaveGroups(routes, wide);
    KeysLaw(routes, wide);
    SortSame(unsorted, less);
    SortKeepsDistinct(unsorted, less);
    forall i | 0 <= i < |keys| ensures GroupsOf(keys, routes, wide)[i] != [] {
      assert keys[i] in keys;
      GroupsAt(keys, routes, wide, i);
    }
  }

  ghost predicate EntriesFit(entries: seq<Entry>, keys: seq<string>, routes: seq<Route>, wide: char -> char) {
    |entries| == |keys| && forall i :: 0 <= i < |keys| ==> EntryFits(entries[i], keys[i], i, routes, wide)
  }

  lemma EntriesAdvertise(entries: seq<Entry>, keys: seq<string>, routes: seq<Route>, provider: string, name: string, scope: Scope,
                         wide: char -> char)
    requires EntriesFit(entries, keys, routes, wide)
    requires forall r :: r in routes ==> RouteKey(r, wide) in keys && r.provider == provider && Neat(r.clientModel, wide)
    ensures Advertised(entries, name, scope) <==> Has(routes, provider, name, scope)
  {
    if Advertised(entries, name, scope) {
      var i :| 0 <= i < |entries| && entries[i].clientModel == name && entries[i].scope == scope;
      assert EntryFits(entries[i], keys[i], i, routes, wide);
    }
    if Has(routes, provider, name, scope) {
      var r :| r in routes && r.provider == provider && r.clientModel == name && r.scope == scope;
      assert RouteKey(r, wide) in keys;
      var i :| 0 <= i < |keys| && keys[i] == RouteKey(r, wide);
      assert EntryFits(entries[i], keys[i], i, routes, wide);
      KeyIdentifies(entries[i].first, r, wide);
    }
  }

  lemma EntriesDiffer(entries: seq<Entry>, keys: seq<string>, routes: seq<Route>, wide: char -> char)
    requires EntriesFit(entries, keys, routes, wide) && Distinct(keys)
    requires forall r, t :: r in routes && t in routes ==> r.provider == t.provider
    ensures forall i, j :: 0 <= i < j < |entries| ==>
                             !(entries[i].clientModel == entries[j].clientModel && entries[i].scope == entries[j].scope)
  {
    forall i, j | 0 <= i < j < |entries|
      ensures !(entries[i].clientModel == entries[j].clientModel && entries[i].scope == entries[j].scope)
    {
      assert EntryFits(entries[i], keys[i], i, routes, wide) && EntryFits(entries[j], keys[j], j, routes, wide);
      assert keys[i] != keys[j];
    }
  }

  lemma SortKeepsDistinct<T>(s: seq<T>, less: (T, T) -> bool)
    requires Distinct(s)
    ensures Distinct(StableSort(s, less))
  {
    SortSame(s, less);
    DistinctSize(s);
    SameSizeDistinct(StableSort(s, less));
    assert Elements(StableSort(s, less)) == Elements(s);
  }

  lemma {:induction false} SameSizeDistinct<T>(s: seq<T>)
    ensures |Elements(s)| <= |s|
    ensures |Elements(s)| == |s| ==> Distinct(s)
  {
    if s != [] {
      var front, last := s[..|s| - 1], s[|s| - 1];
      SameSizeDistinct(front);
      assert Elements(s) == Elements(front) + {last};
      if last in front {
        assert Elements(s) == Elements(front);
      }
    }
  }

  /**
   Over enabled credentials the capability list and the route selector agree: a client's model is
   advertised under its normal form in a scope exactly if a request for it in that scope finds a route.
   */
  lemma AdvertisedIffRoutable(rows: seq<Credential>, provider: string, model: string, scope: Scope, cat: Catalog)
    requires GoodLower(cat.wide) && forall i :: 0 <= i < |rows| ==> rows[i].enabled
    ensures Advertised(Capability(rows, provider, cat), Normalize(provider, model, cat.wide), scope)
       <==> Select(rows, provider, model, ScopeText(scope), cat).Some?
  {
    var name := Normalize(provider, model, cat.wide);
    CapabilityLaw(rows, provider, cat);
    ProviderRoutesOffer(rows, provider, name, scope, cat);
    RoutesOffer(rows, provider, name, scope, cat);
    SelectFindsIff(rows, provider, model, ScopeText(scope), cat);
    HasMatches(RoutesOf(rows, cat), provider, name, scope);
  }

  lemma HasMatches(routes: seq<Route>, provider: string, name: string, scope: Scope)
    ensures Has(routes, provider, name, scope) <==> exists r :: r in routes && Matches(r, provider, name, ScopeText(scope))
  {
    if r :| r in routes && r.provider == provider && r.clientModel == name && r.scope == scope {
      assert Matches(r, provider, name, ScopeText(scope));
    }
    if r :| r in routes && Matches(r, provider, name, ScopeText(scope)) {
      assert r.scope == scope;
    }
  }

  function MakesChannel(cat: Catalog): Credential -> bool {
    (row: Credential) => Useful(ChannelOf(row, 0, cat))
  }

  /** A credential from which the provider gets a channel. */
  function MakesChannelFor(provider: string, cat: Catalog): Credential -> bool {
    (row: Credential) => !row.down && row.provider == provider && MakesChannel(cat)(row)
  }

  lemma {:induction false} ChannelsExist(credentials: seq<Credential>, cat: Catalog)
    ensures Channels(credentials, cat) != [] <==> AnyOf(credentials, MakesChannel(cat))
  {
    if credentials != [] {
      var n := |credentials| - 1;
      ChannelsExist(credentials[..n], cat);
      SomeSnoc(credentials, MakesChannel(cat));
      assert Useful(ChannelOf(credentials[n], n, cat)) <==> MakesChannel(cat)(credentials[n]);
    }
  }

  lemma MakersAmong(credentials: seq<Credential>, rows: seq<Credential>, provider: string, cat: Catalog)
    requires forall row :: row in credentials <==> row in rows && !row.down && row.provider == provider
    ensures AnyOf(credentials, MakesChannel(cat)) <==> AnyOf(rows, MakesChannelFor(provider, cat))
  {
    if AnyOf(credentials, MakesChannel(cat)) {
      var i :| 0 <= i < |credentials| && MakesChannel(cat)(credentials[i]);
      assert credentials[i] in credentials && credentials[i] in rows;
      var j :| 0 <= j < |rows| && rows[j] == credentials[i];
      assert MakesChannelFor(provider, cat)(rows[j]);
    }
    if AnyOf(rows, MakesChannelFor(provider, cat)) {
      var i :| 0 <= i < |rows| && MakesChannelFor(provider, cat)(rows[i]);
      assert rows[i] in rows && rows[i] in credentials;
      var j :| 0 <= j < |credentials| && credentials[j] == rows[i];
      assert MakesChannel(cat)(credentials[j]);
    }
  }

  /** A provider is listed exactly if one of its healthy credentials makes a useful channel. */
  lemma ListedIff(rows: seq<Credential>, provider: string, cat: Catalog)
    ensures ListingOf(rows, provider, cat).Some? <==> AnyOf(rows, MakesChannelFor(provider, cat))
  {
    var credentials := StableSort(Healthy(rows, provider), CredentialLess());
    HealthyLaw(rows, provider);
    SortSame(Healthy(rows, provider), CredentialLess());
    ChannelsExist(credentials, cat);
    MakersAmong(credentials, rows, provider, cat);
  }

  lemma {:induction false} PartOfWhole<T, U>(s: seq<T>, f: T -> seq<U>, i: nat)
    requires i < |s|
    ensures |f(s[i])| <= |FlatMap(s, f)|
  {
    if i < |s| - 1 {
      PartOfWhole(s[..|s| - 1], f, i);
    }
  }

  /** A credential's channel makes no route only if it names no model. */
  lemma NoRouteNoModel(row: Credential, index: nat, isDefault: bool, cat: Catalog)
    requires GoodLower(cat.wide)
    requires ChannelRoutes(row.provider, ChannelOf(row, index, cat).(isDefault := isDefault), cat) == []
    ensures ChannelOf(row, index, cat).models == []
  {
    var ch := ChannelOf(row, index, cat);
    if ch.models != [] {
      var upstream := FirstNonEmpty(ch.models[0], ch.defaultModel);
      TrimTight(ch.models[0]);
      NormalizeIsIdempotent(row.provider, upstream, cat.wide);
      NeatIsFixed(Normalize(row.provider, upstream, cat.wide), cat.wide);
    }
  }

  lemma {:induction false} ChannelsComeFrom(credentials: seq<Credential>, cat: Catalog, i: nat) returns (n: nat)
    requires i < |Channels(credentials, cat)|
    ensures n < |credentials| && Channels(credentials, cat)[i] == ChannelOf(credentials[n], n, cat)
  {
    var last := |credentials| - 1;
    if i < |Channels(credentials[..last], cat)| {
      n := ChannelsComeFrom(credentials[..last], cat, i);
    } else {
      n := last;
    }
  }

  lemma RawChannelNamesNoModel(credentials: seq<Credential>, provider: string, channels: seq<Channel>, cat: Catalog, i: nat)
    requires GoodLower(cat.wide) && forall row :: row in credentials ==> row.provider == provider
    requires channels == EnsureDefault(Channels(credentials, cat)) && AllRoutes(provider, channels, cat) == [] && i < |channels|
    ensures channels[i].models == []
  {
    PartOfWhole(channels, RoutesBy(provider, cat), i);
    assert RoutesBy(provider, cat)(channels[i]) == [];
    var n := ChannelsComeFrom(credentials, cat, i);
    assert credentials[n] in credentials;
    assert channels[i] == Channels(credentials, cat)[i].(isDefault := channels[i].isDefault);
    NoRouteNoModel(credentials[n], n, channels[i].isDefault, cat);
  }

  /** Bare channels name no model, so whatever is advertised is in the entries. */
  lemma RawNamesNoModel(rows: seq<Credential>, provider: string, cat: Catalog, channels: seq<Channel>, i: nat)
    requires GoodLower(cat.wide) && ListingOf(rows, provider, cat) == Some(Raw(channels)) && i < |channels|
    ensures channels[i].models == []
  {
    var credentials := StableSort(Healthy(rows, provider), CredentialLess());
    HealthyLaw(rows, provider);
    SortSame(Healthy(rows, provider), CredentialLess());
    RawChannelNamesNoModel(credentials, provider, channels, cat, i);
  }

  // ---------- merged attributes ----------

  lemma {:induction false} ColumnLaw(group: seq<Route>, pick: Features -> seq<string>)
    ensures forall v :: v in Flatten(Column(group, pick)) <==> exists r :: r in group && v in pick(r.features)
  {
    if group != [] {
      var front, last := group[..|group| - 1], group[|group| - 1];
      ColumnLaw(front, pick);
      assert group == front + [last];
      assert Column(group, pick)[..|Column(group, pick)| - 1] == Column(front, pick);
      forall v ensures v in Flatten(Column(group, pick)) <==> exists r :: r in group && v in pick(r.features) {
        if v in pick(last.features) {
          assert last in group;
        }
        if r :| r in front && v in pick(r.features) {
          assert r in group;
        }
      }
    }
  }

  /** An advertised feature is some route's, and every route's features are advertised, up to case and blanks. */
  lemma UnionLaw(group: seq<Route>, pick: Features -> seq<string>, wide: char -> char)
    ensures forall r, v :: r in group && v in pick(r.features) && V.Trim(v) != "" ==> Spelled(Union(group, pick, wide), V.Trim(v), wide)
    ensures forall m :: m in Union(group, pick, wide) ==> exists r, v :: r in group && v in pick(r.features) && V.Trim(v) == m
  {
    var values := Flatten(Column(group, pick));
    ColumnLaw(group, pick);
    MergedLaw(values, wide);
    forall m | m in Merged(values, wide) ensures exists r, v :: r in group && v in pick(r.features) && V.Trim(v) == m {
      var v :| v in values && V.Trim(v) == m;
      var r :| r in group && v in pick(r.features);
    }
  }

  lemma {:induction false} MergedLaw(values: seq<string>, wide: char -> char)
    ensures forall v :: v in values && V.Trim(v) != "" ==> Spelled(Merged(values, wide), V.Trim(v), wide)
    ensures forall m :: m in Merged(values, wide) ==> m != "" && exists v :: v in values && V.Trim(v) == m
    ensures forall i, j :: 0 <= i < j < |Merged(values, wide)| ==>
                             Lower(Merged(values, wide)[i], wide) != Lower(Merged(values, wide)[j], wide)
  {
    if values != [] {
      var front, last := values[..|values| - 1], values[|values| - 1];
      var before, after := Merged(front, wide), Merged(values, wide);
      MergedLaw(front, wide);
      assert values == front + [last];
      forall v | v in values && V.Trim(v) != "" ensures Spelled(after, V.Trim(v), wide) {
        if v in front {
          var i :| 0 <= i < |before| && Lower(before[i], wide) == Lower(V.Trim(v), wide);
          assert after[i] == before[i];
        } else if !Spelled(before, V.Trim(v), wide) {
          assert after[|before|] == V.Trim(v);
        }
      }
      forall m | m in after ensures m != "" && exists v :: v in values && V.Trim(v) == m {
        if m in before {
          var v :| v in front && V.Trim(v) == m;
          assert v in values;
        } else {
          assert last in values;
        }
      }
    }
  }
}

/** The code's loops over the same credentials. */
module Routing {
  import opened Common
  import opened RoutingLaw
  import V = Versions

  method BuildClientModelRoutes(rows: seq<Credential>, cat: Catalog) returns (routes: seq<Route>)
    ensures routes == StableSort(RoutesOf(rows, cat), RouteLess())
  {
    routes := [];
    for index := 0 to |rows|
      invariant routes == RoutesOf(rows[..index], cat)
    {
      var row := rows[index];
      assert rows[..index + 1][..index] == rows[..index];
      if !row.enabled || row.down {
        continue;
      }
      var channel := ChannelOf(row, index, cat);
      if !Useful(channel) {
        continue;
      }
      routes := routes + ChannelRoutes(row.provider, channel, cat);
    }
    assert rows[..|rows|] == rows;
    routes := StableSort(routes, RouteLess());
  }

  method SelectClientModelRoute(rows: seq<Credential>, provider: string, model: string, scope: string, cat: Catalog)
    returns (route: Option<Route>)
    ensures route == Select(rows, provider, model, scope, cat)
  {
    var name := Normalize(provider, model, cat.wide);
    if name == "" {
      return None;
    }
    var routes := BuildClientModelRoutes(rows, cat);
    for i := 0 to |routes|
      invariant FirstMatch(routes, provider, name, scope, 0) == FirstMatch(routes, provider, name, scope, i)
    {
      if routes[i].provider != provider || routes[i].clientModel != name {
        continue;
      }
      if scope != "" && ScopeText(routes[i].scope) != scope {
        continue;
      }
      return Some(routes[i]);
    }
    return None;
  }

  /** The union of a group's lists, each value in its first spelling. */
  method MergeRouteStrings(lists: seq<seq<string>>, wide: char -> char) returns (out: seq<string>)
    ensures out == Merged(Flatten(lists), wide)
  {
    out := [];
    var seen: set<string> := {};
    for n := 0 to |lists|
      invariant out == Merged(Flatten(lists[..n]), wide)
      invariant seen == Spellings(out, wide)
    {
      assert lists[..n + 1][..n] == lists[..n];
      out, seen := MergeList(Flatten(lists[..n]), out, seen, lists[n], wide);
    }
    assert lists[..|lists|] == lists;
  }

  function Spellings(list: seq<string>, wide: char -> char): set<string> {
    set i | 0 <= i < |list| :: Lower(list[i], wide)
  }

  method MergeList(ghost done: seq<string>, before: seq<string>, known: set<string>, values: seq<string>, wide: char -> char)
    returns (out: seq<string>, seen: set<string>)
    requires before == Merged(done, wide) && known == Spellings(before, wide)
    ensures out == Merged(done + values, wide) && seen == Spellings(out, wide)
  {
    out, seen := before, known;
    ghost var merged := done;
    for i := 0 to |values|
      invariant merged == done + values[..i]
      invariant out == Merged(merged, wide) && seen == Spellings(out, wide)
    {
      out, seen := MergeValue(merged, out, seen, values[i], wide);
      merged := merged + [values[i]];
    }
    assert merged == done + values;
  }

  /** One value, unless it is blank or spelled already. */
  method MergeValue(ghost done: seq<string>, before: seq<string>, known: set<string>, raw: string, wide: char -> char)
    returns (out: seq<string>, seen: set<string>)
    requires before == Merged(done, wide) && known == Spellings(before, wide)
    ensures out == Merged(done + [raw], wide) && seen == Spellings(out, wide)
  {
    var value := V.Trim(raw);
    MergedSnoc(done, raw, wide);
    SeenMeansSpelled(before, value, wide);
    if value == "" {
      return before, known;
    }
    var key := Lower(value, wide);
    if key in known {
      return before, known;
    }
    SpellingsSnoc(before, value, wide);
    return before + [value], known + {key};
  }

  lemma MergedSnoc(done: seq<string>, value: string, wide: char -> char)
    ensures var front, v := Merged(done, wide), V.Trim(value);
            Merged(done + [value], wide) == if v == "" || Spelled(front, v, wide) then front else front + [v]
  {
    assert (done + [value])[..|done|] == done;
  }

  lemma SeenMeansSpelled(list: seq<string>, v: string, wide: char -> char)
    ensures Lower(v, wide) in Spellings(list, wide) <==> Spelled(list, v, wide)
  {
  }

  lemma SpellingsSnoc(list: seq<string>, v: string, wide: char -> char)
    ensures Spellings(list + [v], wide) == Spellings(list, wide) + {Lower(v, wide)}
  {
    var longer := list + [v];
    assert longer[|list|] == v;
    forall x | x in Spellings(list, wide) ensures x in Spellings(longer, wide) {
      var i :| 0 <= i < |list| && Lower(list[i], wide) == x;
      assert longer[i] == list[i];
    }
  }

  /** Group the sorted routes by key, in one pass. */
  method GroupRoutes(routes: seq<Route>, wide: char -> char) returns (keys: seq<string>, grouped: map<string, seq<Route>>)
    ensures keys == KeysOf(routes, wide)
    ensures grouped.Keys == Elements(keys)
    ensures forall k :: k in grouped ==> grouped[k] == GroupOf(routes, k, wide)
  {
    keys, grouped := [], map[];
    for i := 0 to |routes|
      invariant keys == KeysOf(routes[..i], wide)
      invariant grouped.Keys == Elements(keys)
      invariant forall k :: k in grouped ==> grouped[k] == GroupOf(routes[..i], k, wide)
    {
      keys, grouped := AddToGroup(routes[..i], keys, grouped, routes[i], wide);
      assert routes[..i] + [routes[i]] == routes[..i + 1];
    }
    assert routes[..|routes|] == routes;
  }

  /** One more route: to its group, or to a new one at the end. */
  method AddToGroup(ghost done: seq<Route>, before: seq<string>, known: map<string, seq<Route>>, route: Route, wide: char -> char)
    returns (keys: seq<string>, grouped: map<string, seq<Route>>)
    requires before == KeysOf(done, wide) && known.Keys == Elements(before)
    requires forall k :: k in known ==> known[k] == GroupOf(done, k, wide)
    ensures keys == KeysOf(done + [route], wide)
    ensures grouped.Keys == Elements(keys)
    ensures forall k :: k in grouped ==> grouped[k] == GroupOf(done + [route], k, wide)
  {
    var key := RouteKey(route, wide);
    assert (done + [route])[..|done|] == done;
    if key !in known {
      FreshKeyHasNoGroup(done, key, wide);
      return before + [key], known[key := [route]];
    }
    return before, known[key := known[key] + [route]];
  }

  lemma FreshKeyHasNoGroup(routes: seq<Route>, key: string, wide: char -> char)
    requires key !in KeysOf(routes, wide)
    ensures GroupOf(routes, key, wide) == []
  {
    KeysLaw(routes, wide);
    GroupLaw(routes, key, wide);
    HeadIsMember(GroupOf(routes, key, wide));
  }

  lemma HeadIsMember<T>(s: seq<T>)
    ensures s == [] || s[0] in s
  {
  }

  /** One entry per group of routes with the same client model and scope. */
  method CollapseCapabilityChannels(provider: string, channels: seq<Channel>, cat: Catalog) returns (listing: Listing)
    ensures var routes := AllRoutes(provider, channels, cat);
            var groups := ListedGroups(StableSort(routes, RouteLess()), cat.wide);
            [] !in groups && listing == if routes == [] then Raw(channels) else Collapsed(EntriesOf(groups, cat.wide))
  {
    var routes := CollectRoutes(provider, channels, cat);
    var sorted := StableSort(routes, RouteLess());
    SortedKeysLaw(sorted, KeyLess(sorted, cat.wide), cat.wide);
    if routes == [] {
      return Raw(channels);
    }
    var groups := OrderGroups(sorted, cat.wide);
    var entries := DescribeGroups(groups, cat.wide);
    return Collapsed(entries);
  }

  method CollectRoutes(provider: string, channels: seq<Channel>, cat: Catalog) returns (routes: seq<Route>)
    ensures routes == AllRoutes(provider, channels, cat)
  {
    routes := [];
    for i := 0 to |channels|
      invariant routes == AllRoutes(provider, channels[..i], cat)
    {
      assert channels[..i + 1][..i] == channels[..i];
      routes := routes + ChannelRoutes(provider, channels[i], cat);
    }
    assert channels[..|channels|] == channels;
  }

  method OrderGroups(routes: seq<Route>, wide: char -> char) returns (groups: seq<seq<Route>>)
    ensures groups == ListedGroups(routes, wide)
  {
    var unsorted, grouped := GroupRoutes(routes, wide);
    var less := KeyLess(routes, wide);
    SortSame(unsorted, less);
    var keys := StableSort(unsorted, less);
    assert forall k :: k in keys ==> k in Elements(unsorted);
    groups := LookUp(keys, grouped);
    GroupsFromMap(keys, grouped, groups, routes, wide);
  }

  method LookUp<T>(keys: seq<string>, grouped: map<string, T>) returns (groups: seq<T>)
    requires forall k :: k in keys ==> k in grouped
    ensures |groups| == |keys| && forall j :: 0 <= j < |keys| ==> groups[j] == grouped[keys[j]]
  {
    groups := [];
    for i := 0 to |keys|
      invariant |groups| == i
      invariant forall j :: 0 <= j < i ==> groups[j] == grouped[keys[j]]
    {
      groups := groups + [grouped[keys[i]]];
    }
  }

  lemma GroupsFromMap(keys: seq<string>, grouped: map<string, seq<Route>>, groups: seq<seq<Route>>, routes: seq<Route>,
                      wide: char -> char)
    requires forall k :: k in keys ==> k in grouped
    requires forall k :: k in grouped ==> grouped[k] == GroupOf(routes, k, wide)
    requires |groups| == |keys| && forall j :: 0 <= j < |keys| ==> groups[j] == grouped[keys[j]]
    ensures groups == GroupsOf(keys, routes, wide)
  {
    forall j | 0 <= j < |keys| ensures groups[j] == GroupsOf(keys, routes, wide)[j] {
      GroupsAt(keys, routes, wide, j);
    }
  }

  method DescribeGroups(groups: seq<seq<Route>>, wide: char -> char) returns (entries: seq<Entry>)
    requires [] !in groups
    ensures entries == EntriesOf(groups, wide)
  {
    entries := [];
    for index := 0 to |groups|
      invariant entries == EntriesOf(groups[..index], wide)
    {
      assert groups[index] in groups && groups[..index + 1][..index] == groups[..index];
      var entry := DescribeGroup(groups[index], index, wide);
      entries := entries + [entry];
    }
    assert groups[..|groups|] == groups;
  }

  method DescribeGroup(routes: seq<Route>, index: nat, wide: char -> char) returns (entry: Entry)
    requires routes != []
    ensures entry == EntryOf(routes, index, wide)
  {
    SortKeepsEmptiness(routes, RouteLess());
    var group := StableSort(routes, RouteLess());
    var first := group[0];
    var modes := MergeColumn(group, (f: Features) => f.modes, wide);
    var scopes := MergeColumn(group, (f: Features) => f.scopes, wide);
    var aspectRatios := MergeColumn(group, (f: Features) => f.aspectRatios, wide);
    var durations := MergeColumn(group, (f: Features) => f.durations, wide);
    var resolutions := MergeColumn(group, (f: Features) => f.resolutions, wide);
    return Entry(first.provider, first.clientModel, first.scope, first,
                 Features(modes, scopes, aspectRatios, durations, resolutions), index, index == 0);
  }

  method MergeColumn(group: seq<Route>, pick: Features -> seq<string>, wide: char -> char) returns (out: seq<string>)
    ensures out == Union(group, pick, wide)
  {
    var lists := Column(group, pick);
    out := MergeRouteStrings(lists, wide);
  }

  /** The whole capability answer: each provider with a channel, and what it advertises. */
  method BuildProxyCapabilities(rows: seq<Credential>, cat: Catalog) returns (providers: map<string, Listing>)
    ensures forall p :: p in providers <==> ListingOf(rows, p, cat).Some?
    ensures forall p :: p in providers ==> ListingOf(rows, p, cat) == Some(providers[p])
  {
    providers := map[];
    var names := set row | row in rows && !row.down :: row.provider;
    var rest := names;
    while rest != {}
      invariant rest <= names
      invariant forall p :: p in providers ==> p in names && p !in rest && ListingOf(rows, p, cat) == Some(providers[p])
      invariant forall p :: p in names && p !in rest && p !in providers ==> ListingOf(rows, p, cat) == None
      decreases |rest|
    {
      var p :| p in rest;
      rest := rest - {p};
      var listing := ListProvider(rows, p, cat);
      if listing.Some? {
        providers := providers[p := listing.value];
      }
    }
    forall p | p !in names ensures ListingOf(rows, p, cat) == None {
      NobodyHealthy(rows, p);
    }
  }

  method ListProvider(rows: seq<Credential>, provider: string, cat: Catalog) returns (listing: Option<Listing>)
    ensures listing == ListingOf(rows, provider, cat)
  {
    var credentials := StableSort(Healthy(rows, provider), CredentialLess());
    var channels := EnsureDefault(Channels(credentials, cat));
    if channels == [] {
      return None;
    }
    var collapsed := CollapseCapabilityChannels(provider, channels, cat);
    return Some(collapsed);
  }

  lemma NobodyHealthy(rows: seq<Credential>, provider: string)
    requires forall row :: row in rows ==> row.down || row.provider != provider
    ensures Healthy(rows, provider) == []
  {
    HealthyLaw(rows, provider);
    HeadIsMember(Healthy(rows, provider));
  }
}
