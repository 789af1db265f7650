/**
 * The catalog the daemon resolves model names against: hand-written entries, plus what the
 * registered providers were found to offer. Names are looked up in three ways, in order, and
 * the merged list shows names of the second kind.
 */
module EffectiveCatalog {
  import opened Common

  datatype Fields = Fields(sdk: Option<string>, baseUrl: Option<string>, maxContext: Option<nat>,
                           maxOutput: Option<nat>)

  datatype Model = Model(qualifiedName: string, providerKey: string, modelId: string, sdk: string, fields: Fields)

  /** A record of a provider's model list, as cached. */
  datatype Discovered = Discovered(modelId: string, sdk: string, baseUrl: Option<string>,
                                   contextLength: Option<nat>, maxOutputTokens: Option<nat>)

  datatype Provider = Provider(key: string, enabled: bool, discovery: bool, visible: string -> bool,
                               sdk: Option<string>, baseUrl: Option<string>, defaults: Fields)

  /** What the daemon is configured with; the functions belong to the configuration crate. */
  datatype Config = Config(models: seq<Model>, findModel: string -> Option<Model>, providers: seq<Provider>,
                           caches: map<string, seq<Discovered>>, hardcoded: string -> Fields,
                           defaultSdk: string -> string, parseSdk: string -> Option<string>)

  datatype CatalogError =
    | NotFound(name: string)
    | Ambiguous(name: string, locations: seq<(string, string)>)
    | Hidden(name: string, provider: string)

  datatype Source = FromStatic | FromDiscovery

  datatype Row = Row(source: Source, resolved: Model, hidden: bool)

  datatype Hit = Hit(provider: string, resolved: Model, hidden: bool)

  // ----- lookups -----

  function FindStatic(models: seq<Model>, key: string, id: string): (m: Option<Model>)
    ensures m.Some? ==> m.value in models && m.value.providerKey == key && m.value.modelId == id
    ensures m.None? ==> forall i :: 0 <= i < |models| ==> models[i].providerKey != key || models[i].modelId != id
  {
    if models == [] then None
    else if models[0].providerKey == key && models[0].modelId == id then Some(models[0])
    else FindStatic(models[1..], key, id)
  }

  function FindCached(cache: seq<Discovered>, id: string): (d: Option<Discovered>)
    ensures d.Some? ==> d.value in cache && d.value.modelId == id
    ensures d.None? ==> forall i :: 0 <= i < |cache| ==> cache[i].modelId != id
  {
    if cache == [] then None else if cache[0].modelId == id then Some(cache[0]) else FindCached(cache[1..], id)
  }

  function ReadDiscovery(c: Config, key: string, id: string): Option<Discovered> {
    if key in c.caches then FindCached(c.caches[key], id) else None
  }

  function ProviderIndex(ps: seq<Provider>, key: string): (i: Option<nat>)
    ensures i.Some? ==> i.value < |ps| && ps[i.value].key == key
    ensures i.None? ==> forall j :: 0 <= j < |ps| ==> ps[j].key != key
  {
    if ps == [] then None
    else if ps[|ps| - 1].key == key then Some(|ps| - 1) else ProviderIndex(ps[..|ps| - 1], key)
  }

  /** The parts of a name around its first colon. */
  function SplitColon(name: string): (parts: Option<(string, string)>)
    ensures parts.Some? ==> name == parts.value.0 + ":" + parts.value.1 && ':' !in parts.value.0
    ensures parts.None? ==> ':' !in name
  {
    if name == [] then None
    else if name[0] == ':' then Some(([], name[1..]))
    else
      var rest := SplitColon(name[1..]);
      if rest.Some? then Some(([name[0]] + rest.value.0, rest.value.1)) else None
  }

  predicate Fits(v: Option<nat>) {
    v.Some? && v.value < 0x1_0000_0000
  }

  function Narrow(v: Option<nat>): Option<nat> {
    if Fits(v) then v else None
  }

  /** The model that a provider routes an id to, with or without a discovery record. */
  function Build(c: Config, p: Provider, id: string, disc: Option<Discovered>): (m: Model)
    ensures m.qualifiedName == p.key + ":" + id && m.providerKey == p.key && m.modelId == id
    ensures p.defaults.sdk.Some? ==> m.sdk == p.defaults.sdk.value
    ensures p.defaults.sdk.None? && p.sdk.Some? ==> m.sdk == p.sdk.value
    ensures p.defaults.baseUrl.Some? ==> m.fields.baseUrl == p.defaults.baseUrl
    ensures p.defaults.baseUrl.None? && p.baseUrl.Some? ==> m.fields.baseUrl == p.baseUrl
    ensures p.defaults.baseUrl.None? && p.baseUrl.None? && disc.Some? && disc.value.baseUrl.Some? ==>
              m.fields.baseUrl == disc.value.baseUrl
    ensures p.defaults.maxContext.Some? ==> m.fields.maxContext == p.defaults.maxContext
    ensures p.defaults.maxContext.None? && disc.Some? && Fits(disc.value.contextLength) ==>
              m.fields.maxContext == disc.value.contextLength
    ensures p.defaults.maxOutput.Some? ==> m.fields.maxOutput == p.defaults.maxOutput
    ensures p.defaults.maxOutput.None? && disc.Some? && Fits(disc.value.maxOutputTokens) ==>
              m.fields.maxOutput == disc.value.maxOutputTokens
  {
    var hard := c.hardcoded(p.key);
    var sdk :=
      p.sdk.OrElse(if "anthropic/" <= id then Some("anthropic") else None).OrElse(hard.sdk)
      .OrElse(if disc.Some? then c.parseSdk(disc.value.sdk) else None).GetOr(c.defaultSdk(p.key));
    var found := if disc.Some? then disc.value else Discovered(id, "", None, None, None);
    var fields := Fields(
      p.defaults.sdk.OrElse(Some(sdk)),
      p.defaults.baseUrl.OrElse(p.baseUrl.OrElse(found.baseUrl).OrElse(hard.baseUrl)),
      p.defaults.maxContext.OrElse(Narrow(found.contextLength).OrElse(hard.maxContext)),
      p.defaults.maxOutput.OrElse(Narrow(found.maxOutputTokens).OrElse(hard.maxOutput)));
    Model(p.key + ":" + id, p.key, id, fields.sdk.GetOr(sdk), fields)
  }

  /**
   * What a model is built with where the user has chosen nothing: an `anthropic/` id promotes
   * to that SDK, curated defaults come before what was discovered for the SDK and after it for
   * the rest, and a provider without any has its default SDK.
   */
  lemma BuildFallsBack(c: Config, p: Provider, id: string, disc: Option<Discovered>)
    requires p.defaults == Fields(None, None, None, None) && p.sdk.None? && p.baseUrl.None?
    ensures var m, hard := Build(c, p, id, disc), c.hardcoded(p.key);
            var parsed := if disc.Some? then c.parseSdk(disc.value.sdk) else None;
            && ("anthropic/" <= id ==> m.sdk == "anthropic")
            && (!("anthropic/" <= id) && hard.sdk.Some? ==> m.sdk == hard.sdk.value)
            && (!("anthropic/" <= id) && hard.sdk.None? && parsed.Some? ==> m.sdk == parsed.value)
            && (!("anthropic/" <= id) && hard.sdk.None? && parsed.None? ==> m.sdk == c.defaultSdk(p.key))
            && (disc.None? || disc.value.baseUrl.None? ==> m.fields.baseUrl == hard.baseUrl)
            && (disc.None? || !Fits(disc.value.contextLength) ==> m.fields.maxContext == hard.maxContext)
            && (disc.None? || !Fits(disc.value.maxOutputTokens) ==> m.fields.maxOutput == hard.maxOutput)
  {
  }

  /** A discovered limit is taken over exactly if it fits 32 bits. */
  lemma LimitsAreNarrowed(c: Config, p: Provider, id: string, d: Discovered, n: nat)
    requires p.defaults == Fields(None, None, None, None)
    ensures var hard, built := c.hardcoded(p.key), Build(c, p, id, Some(d)).fields;
            && (d.contextLength == Some(n) ==>
                  built.maxContext == if n <= 4_294_967_295 then Some(n) else hard.maxContext)
            && (d.maxOutputTokens == Some(n) ==>
                  built.maxOutput == if n <= 4_294_967_295 then Some(n) else hard.maxOutput)
  {
  }

  // ----- resolving a name -----

  function ResolvePrefixed(c: Config, name: string, key: string, id: string, includeHidden: bool):
    Option<Result<Model, CatalogError>>
  {
    if key == "" || id == "" then None
    else
      var at := ProviderIndex(c.providers, key);
      if at.None? || !c.providers[at.value].enabled then None
      else
        var p := c.providers[at.value];
        var fixed := FindStatic(c.models, key, id);
        if fixed.Some? then Some(Ok(fixed.value))
        else if !p.discovery then Some(Ok(Build(c, p, id, None)))
        else
          var disc := ReadDiscovery(c, key, id);
          if !p.visible(id) && !includeHidden then Some(Err(Hidden(name, key)))
          else Some(Ok(Build(c, p, id, disc)))
  }

  /** What a provider has under a bare model id. */
  function HitAt(c: Config, p: Provider, id: string): (hit: Option<Hit>)
    ensures hit.Some? ==> p.enabled && hit.value.provider == p.key && hit.value.resolved.providerKey == p.key
    ensures hit.Some? ==> hit.value.resolved.modelId == id
  {
    if !p.enabled then None
    else
      var fixed := FindStatic(c.models, p.key, id);
      if fixed.Some? then Some(Hit(p.key, fixed.value, false))
      else if !p.discovery then None
      else
        var disc := ReadDiscovery(c, p.key, id);
        if disc.None? then None
        else Some(Hit(p.key, Build(c, p, id, disc), !p.visible(id)))
  }

  function Hits(c: Config, ps: seq<Provider>, id: string): seq<Hit> {
    if ps == [] then []
    else
      var hit := HitAt(c, ps[|ps| - 1], id);
      Hits(c, ps[..|ps| - 1], id) + if hit.Some? then [hit.value] else []
  }

  function Shown(hits: seq<Hit>, includeHidden: bool): seq<Hit> {
    if hits == [] then []
    else
      var last := hits[|hits| - 1];
      Shown(hits[..|hits| - 1], includeHidden) + if includeHidden || !last.hidden then [last] else []
  }

  function Locations(hits: seq<Hit>): (ls: seq<(string, string)>)
    ensures |ls| == |hits|
    ensures forall i :: 0 <= i < |hits| ==> ls[i] == (hits[i].provider, hits[i].resolved.modelId)
  {
    seq(|hits|, i requires 0 <= i < |hits| => (hits[i].provider, hits[i].resolved.modelId))
  }

  /** Which of the hits is meant. */
  function Decide(hits: seq<Hit>, id: string, includeHidden: bool): Result<Model, CatalogError> {
    var shown := Shown(hits, includeHidden);
    if |shown| == 1 then Ok(shown[0].resolved)
    else if |shown| > 1 then Err(Ambiguous(id, Locations(shown)))
    else if hits != [] then Err(Hidden(id, hits[0].provider))
    else Err(NotFound(id))
  }

  function ResolveQualified(c: Config, name: string, includeHidden: bool): Option<Result<Model, CatalogError>> {
    var parts := SplitColon(name);
    if parts.None? then None else ResolvePrefixed(c, name, parts.value.0, parts.value.1, includeHidden)
  }

  function Find(c: Config, name: string, includeHidden: bool): Result<Model, CatalogError> {
    var fixed := c.findModel(name);
    if fixed.Some? then Ok(fixed.value)
    else
      var qualified := ResolveQualified(c, name, includeHidden);
      if qualified.Some? then qualified.value else Decide(Hits(c, c.providers, name), name, includeHidden)
  }

  method FindEffectiveModel(c: Config, name: string, includeHidden: bool) returns (r: Result<Model, CatalogError>)
    ensures r == Find(c, name, includeHidden)
  {
    var fixed := c.findModel(name);
    if fixed.Some? {
      return Ok(fixed.value);
    }
    var qualified := ResolveQualified(c, name, includeHidden);
    if qualified.Some? {
      return qualified.value;
    }
    hide HitAt, ResolveQualified;
    var hits: seq<Hit> := [];
    for i := 0 to |c.providers|
      invariant hits == Hits(c, c.providers[..i], name)
    {
      assert c.providers[..i + 1][..i] == c.providers[..i];
      var hit := HitAt(c, c.providers[i], name);
      if hit.None? {
        continue;
      }
      hits := hits + [hit.value];
    }
    assert c.providers[..|c.providers|] == c.providers;
    var shown := [];
    for i := 0 to |hits|
      invariant shown == Shown(hits[..i], includeHidden)
    {
      assert hits[..i + 1][..i] == hits[..i];
      if includeHidden || !hits[i].hidden {
        shown := shown + [hits[i]];
      }
    }
    assert hits[..|hits|] == hits;
    if |shown| == 0 {
      if hits != [] {
        return Err(Hidden(name, hits[0].provider));
      }
      return Err(NotFound(name));
    }
    if |shown| == 1 {
      return Ok(shown[0].resolved);
    }
    return Err(Ambiguous(name, Locations(shown)));
  }

  // ----- the merged list -----

  predicate Listed(c: Config, p: Provider, d: Discovered, includeHidden: bool) {
    && p.enabled && p.discovery && FindStatic(c.models, p.key, d.modelId).None?
    && (p.visible(d.modelId) || includeHidden)
  }

  function RowOf(c: Config, p: Provider, d: Discovered): Row {
    Row(FromDiscovery, Build(c, p, d.modelId, Some(d)), !p.visible(d.modelId))
  }

  /** Order of strings by their first difference. */
  predicate AtMost(a: string, b: string) {
    a == [] || (b != [] && (a[0] < b[0] || (a[0] == b[0] && AtMost(a[1..], b[1..]))))
  }

  /** The first difference decides, and an id comes before those it begins. */
  lemma {:induction false} FirstDifferenceDecides(common: string, x: char, y: char, a: string, b: string)
    ensures AtMost(common, common + b)
    ensures x < y ==> AtMost(common + [x] + a, common + [y] + b) && !AtMost(common + [y] + b, common + [x] + a)
  {
    if common != [] {
      var rest := common[1..];
      FirstDifferenceDecides(rest, x, y, a, b);
      assert (common + b)[1..] == rest + b;
      assert (common + [x] + a)[1..] == rest + [x] + a && (common + [y] + b)[1..] == rest + [y] + b;
    }
  }

  lemma AtMostIsTotal(a: string, b: string)
    ensures AtMost(a, b) || AtMost(b, a)
  {
  }

  ghost predicate ById(ds: seq<Discovered>) {
    forall i :: 0 <= i < |ds| - 1 ==> AtMost(ds[i].modelId, ds[i + 1].modelId)
  }

  function InsertById(ds: seq<Discovered>, d: Discovered): (r: seq<Discovered>)
    requires ById(ds)
    ensures ById(r) && r != []
    ensures r[0] == d || (ds != [] && r[0] == ds[0])
    ensures forall x :: x in r <==> x == d || x in ds
  {
    if ds == [] then [d]
    else if AtMost(d.modelId, ds[0].modelId) && d.modelId != ds[0].modelId then [d] + ds
    else
      AtMostIsTotal(d.modelId, ds[0].modelId);
      [ds[0]] + InsertById(ds[1..], d)
  }

  function SortById(ds: seq<Discovered>): (r: seq<Discovered>)
    ensures ById(r) && forall x :: x in r <==> x in ds
  {
    if ds == [] then [] else InsertById(SortById(ds[..|ds| - 1]), ds[|ds| - 1])
  }

  lemma {:induction false} InsertKeepsAll(ds: seq<Discovered>, d: Discovered)
    requires ById(ds)
    ensures multiset(InsertById(ds, d)) == multiset(ds) + multiset{d}
  {
    hide AtMost;
    if ds != [] && InsertById(ds, d) != [d] + ds {
      InsertKeepsAll(ds[1..], d);
      assert ds == [ds[0]] + ds[1..];
    }
  }

  /** Sorting keeps every record as often as it was there. */
  lemma {:induction false} SortKeepsAll(ds: seq<Discovered>)
    ensures multiset(SortById(ds)) == multiset(ds)
  {
    if ds != [] {
      var front, last := ds[..|ds| - 1], ds[|ds| - 1];
      SortKeepsAll(front);
      InsertKeepsAll(SortById(front), last);
      hide InsertById, ById;
      assert ds == front + [last];
    }
  }

  function RowsOf(c: Config, p: Provider, ds: seq<Discovered>, includeHidden: bool): (rows: seq<Row>)
    requires p.enabled && p.discovery
  {
    if ds == [] then []
    else
      var d := ds[|ds| - 1];
      RowsOf(c, p, ds[..|ds| - 1], includeHidden) + if Listed(c, p, d, includeHidden) then [RowOf(c, p, d)] else []
  }

  /** The rows of one provider; none if it is off, not to be asked, or has no cache. */
  function Block(c: Config, p: Provider, includeHidden: bool): seq<Row> {
    if p.enabled && p.discovery && p.key in c.caches then RowsOf(c, p, SortById(c.caches[p.key]), includeHidden) else []
  }

  function DiscoveredRows(c: Config, ps: seq<Provider>, includeHidden: bool): seq<Row> {
    if ps == [] then []
    else DiscoveredRows(c, ps[..|ps| - 1], includeHidden) + Block(c, ps[|ps| - 1], includeHidden)
  }

  function StaticRows(models: seq<Model>): (rows: seq<Row>)
    ensures |rows| == |models| && forall i :: 0 <= i < |models| ==> rows[i] == Row(FromStatic, models[i], false)
  {
    seq(|models|, i requires 0 <= i < |models| => Row(FromStatic, models[i], false))
  }

  function List(c: Config, includeHidden: bool): seq<Row> {
    StaticRows(c.models) + DiscoveredRows(c, c.providers, includeHidden)
  }

  method ListProvider(c: Config, p: Provider, cache: seq<Discovered>, includeHidden: bool) returns (rows: seq<Row>)
    requires p.enabled && p.discovery
    ensures rows == RowsOf(c, p, SortById(cache), includeHidden)
  {
    var discovered := SortById(cache);
    rows := [];
    hide RowOf;
    for i := 0 to |discovered|
      invariant rows == RowsOf(c, p, discovered[..i], includeHidden)
    {
      var d := discovered[i];
      assert discovered[..i + 1][..i] == discovered[..i];
      if FindStatic(c.models, p.key, d.modelId).Some? {
        continue;
      }
      var hidden := !p.visible(d.modelId);
      if hidden && !includeHidden {
        continue;
      }
      rows := rows + [RowOf(c, p, d)];
    }
    assert discovered[..|discovered|] == discovered;
  }

  method ListEffectiveModels(c: Config, includeHidden: bool) returns (rows: seq<Row>)
    ensures rows == List(c, includeHidden)
  {
    hide RowsOf, SortById, StaticRows;
    var fixed := StaticRows(c.models);
    var found := [];
    for i := 0 to |c.providers|
      invariant found == DiscoveredRows(c, c.providers[..i], includeHidden)
    {
      var p := c.providers[i];
      assert c.providers[..i + 1][..i] == c.providers[..i];
      if !p.enabled || !p.discovery {
        continue;
      }
      if p.key !in c.caches {
        continue;
      }
      var more := ListProvider(c, p, c.caches[p.key], includeHidden);
      found := found + more;
    }
    assert c.providers[..|c.providers|] == c.providers;
    rows := fixed + found;
  }

  // ----- what is listed -----

  lemma {:induction false} RowsOfHolds(c: Config, p: Provider, ds: seq<Discovered>, includeHidden: bool, row: Row)
    requires p.enabled && p.discovery
    ensures row in RowsOf(c, p, ds, includeHidden) <==>
            exists d :: d in ds && Listed(c, p, d, includeHidden) && row == RowOf(c, p, d)
  {
    hide Listed, RowOf;
    if ds != [] {
      var front, last := ds[..|ds| - 1], ds[|ds| - 1];
      RowsOfHolds(c, p, front, includeHidden, row);
      assert forall d :: d in ds <==> d in front || d == last;
    }
  }

  ghost predicate RowFrom(c: Config, p: Provider, includeHidden: bool, row: Row) {
    p.key in c.caches && exists d :: d in c.caches[p.key] && Listed(c, p, d, includeHidden) && row == RowOf(c, p, d)
  }

  lemma BlockHolds(c: Config, p: Provider, includeHidden: bool, row: Row)
    ensures row in Block(c, p, includeHidden) <==> RowFrom(c, p, includeHidden, row)
  {
    hide RowOf;
    if p.enabled && p.discovery && p.key in c.caches {
      RowsOfHolds(c, p, SortById(c.caches[p.key]), includeHidden, row);
    }
  }

  lemma {:induction false} DiscoveredRowsHold(c: Config, ps: seq<Provider>, includeHidden: bool, row: Row)
    ensures row in DiscoveredRows(c, ps, includeHidden) <==> exists p :: p in ps && RowFrom(c, p, includeHidden, row)
  {
    hide RowFrom, Block;
    if ps != [] {
      var front, last := ps[..|ps| - 1], ps[|ps| - 1];
      DiscoveredRowsHold(c, front, includeHidden, row);
      BlockHolds(c, last, includeHidden, row);
      assert forall p :: p in ps <==> p in front || p == last;
    }
  }

  /**
   * The list holds the static entries and, of each provider that may be asked, what is not
   * hidden or static already.
   */
  lemma ListedExactly(c: Config, includeHidden: bool, row: Row)
    ensures row in List(c, includeHidden) <==>
            || (row.source.FromStatic? && !row.hidden && row.resolved in c.models)
            || (row.source.FromDiscovery? && exists p :: p in c.providers && RowFrom(c, p, includeHidden, row))
  {
    DiscoveredRowsHold(c, c.providers, includeHidden, row);
    if row.source.FromStatic? && !row.hidden && row.resolved in c.models {
      var i :| 0 <= i < |c.models| && c.models[i] == row.resolved;
      assert StaticRows(c.models)[i] == row;
    }
  }

  // ----- listed names resolve back -----

  /** What holds of a registry and of caches whose keys and ids serve as names. */
  ghost predicate WellFormed(c: Config) {
    && (forall i, j :: 0 <= i < j < |c.providers| ==> c.providers[i].key != c.providers[j].key)
    && (forall p :: p in c.providers ==> p.key != "" && ':' !in p.key)
    && (forall k :: k in c.caches ==> UniqueIds(c.caches[k]))
  }

  ghost predicate UniqueIds(ds: seq<Discovered>) {
    && (forall i, j :: 0 <= i < j < |ds| ==> ds[i].modelId != ds[j].modelId)
    && (forall i :: 0 <= i < |ds| ==> ds[i].modelId != "")
  }

  lemma {:induction false} SplitInverts(key: string, id: string)
    requires ':' !in key
    ensures SplitColon(key + ":" + id) == Some((key, id))
  {
    var name := key + ":" + id;
    if key == [] {
      assert name[1..] == id;
    } else {
      assert name[1..] == key[1..] + ":" + id;
      SplitInverts(key[1..], id);
      assert [key[0]] + key[1..] == key;
    }
  }

  lemma {:induction false} CachedIsFound(ds: seq<Discovered>, d: Discovered)
    requires d in ds && UniqueIds(ds)
    ensures FindCached(ds, d.modelId) == Some(d)
  {
    if ds[0] != d {
      var i :| 0 <= i < |ds| && ds[i] == d;
      CachedIsFound(ds[1..], d);
    }
  }

  lemma ProviderIsFound(c: Config, p: Provider)
    requires WellFormed(c) && p in c.providers
    ensures var at := ProviderIndex(c.providers, p.key);
            at.Some? && c.providers[at.value] == p
  {
    var j :| 0 <= j < |c.providers| && c.providers[j] == p;
  }

  /** A row found at a provider is what its qualified name resolves to after the first lookup. */
  lemma RowResolves(c: Config, p: Provider, d: Discovered, includeHidden: bool)
    requires WellFormed(c) && p in c.providers && p.key in c.caches && d in c.caches[p.key]
    requires Listed(c, p, d, includeHidden)
    ensures ResolveQualified(c, p.key + ":" + d.modelId, includeHidden) == Some(Ok(Build(c, p, d.modelId, Some(d))))
  {
    SplitInverts(p.key, d.modelId);
    ProviderIsFound(c, p);
    CachedIsFound(c.caches[p.key], d);
    var i :| 0 <= i < |c.caches[p.key]| && c.caches[p.key][i] == d;
    assert d.modelId != "";
    hide Build, WellFormed;
  }

  lemma RowOrigin(c: Config, includeHidden: bool, row: Row) returns (p: Provider, d: Discovered)
    requires row in List(c, includeHidden) && row.source.FromDiscovery?
    ensures p in c.providers && p.key in c.caches && d in c.caches[p.key] && Listed(c, p, d, includeHidden)
    ensures row.resolved == Build(c, p, d.modelId, Some(d)) && row.resolved.qualifiedName == p.key + ":" + d.modelId
  {
    ListedExactly(c, includeHidden, row);
    p :| p in c.providers && RowFrom(c, p, includeHidden, row);
    d :| d in c.caches[p.key] && Listed(c, p, d, includeHidden) && row == RowOf(c, p, d);
  }

  lemma FindInOrder(c: Config, name: string, includeHidden: bool)
    ensures var fixed, qualified := c.findModel(name), ResolveQualified(c, name, includeHidden);
            && (fixed.Some? ==> Find(c, name, includeHidden) == Ok(fixed.value))
            && (fixed.None? && qualified.Some? ==> Find(c, name, includeHidden) == qualified.value)
  {
  }

  /**
   * Every discovered row of the list resolves back to its model by its qualified name, exactly
   * when the first lookup does not know that name or has the same model for it.
   */
  lemma ListedResolvesBack(c: Config, includeHidden: bool, row: Row)
    requires WellFormed(c) && row in List(c, includeHidden) && row.source.FromDiscovery?
    ensures var name := row.resolved.qualifiedName;
            Find(c, name, includeHidden) == Ok(row.resolved) <==>
            c.findModel(name).None? || c.findModel(name).value == row.resolved
  {
    var p, d := RowOrigin(c, includeHidden, row);
    RowResolves(c, p, d, includeHidden);
    FindInOrder(c, row.resolved.qualifiedName, includeHidden);
    hide *;
  }

  // ----- disabled providers, and bare ids -----

  lemma {:induction false} HitsAreEnabled(c: Config, ps: seq<Provider>, id: string, k: nat)
    requires k < |Hits(c, ps, id)|
    ensures exists p :: p in ps && p.enabled && Hits(c, ps, id)[k].resolved.providerKey == p.key
  {
    var front, last := ps[..|ps| - 1], ps[|ps| - 1];
    var before := Hits(c, front, id);
    if k < |before| {
      HitsAreEnabled(c, front, id, k);
      var p :| p in front && p.enabled && before[k].resolved.providerKey == p.key;
      assert p in ps;
    } else {
      assert last in ps;
    }
  }

  lemma {:induction false} ShownAreHits(hits: seq<Hit>, includeHidden: bool, k: nat) returns (at: nat)
    requires k < |Shown(hits, includeHidden)|
    ensures at < |hits| && Shown(hits, includeHidden)[k] == hits[at] && (includeHidden || !hits[at].hidden)
  {
    if k < |Shown(hits[..|hits| - 1], includeHidden)| {
      at := ShownAreHits(hits[..|hits| - 1], includeHidden, k);
    } else {
      at := |hits| - 1;
    }
  }

  /** Whatever resolves past the first lookup belongs to an enabled provider, static entries included. */
  lemma DisabledOnlyByFirstLookup(c: Config, name: string, includeHidden: bool)
    requires c.findModel(name).None? && Find(c, name, includeHidden).Ok?
    ensures exists p :: p in c.providers && p.enabled && p.key == Find(c, name, includeHidden).value.providerKey
  {
    var qualified := ResolveQualified(c, name, includeHidden);
    if qualified.Some? {
      var key := SplitColon(name).value.0;
      var at := ProviderIndex(c.providers, key).value;
      assert c.providers[at] in c.providers;
    } else {
      var hits := Hits(c, c.providers, name);
      var at := ShownAreHits(hits, includeHidden, 0);
      HitsAreEnabled(c, c.providers, name, at);
    }
  }

  /** A provider that counts towards a bare id. */
  predicate Offers(c: Config, p: Provider, id: string, includeHidden: bool) {
    var hit := HitAt(c, p, id);
    hit.Some? && (includeHidden || !hit.value.hidden)
  }

  predicate OnlyOffer(c: Config, ps: seq<Provider>, id: string, includeHidden: bool, i: int) {
    && 0 <= i < |ps| && Offers(c, ps[i], id, includeHidden)
    && forall j :: 0 <= j < |ps| && j != i ==> !Offers(c, ps[j], id, includeHidden)
  }

  predicate BothOffer(c: Config, ps: seq<Provider>, id: string, includeHidden: bool, i: int, j: int) {
    0 <= i < j < |ps| && Offers(c, ps[i], id, includeHidden) && Offers(c, ps[j], id, includeHidden)
  }

  lemma ShownStep(c: Config, ps: seq<Provider>, id: string, includeHidden: bool)
    requires ps != []
    ensures var front, last := ps[..|ps| - 1], ps[|ps| - 1];
            Shown(Hits(c, ps, id), includeHidden) ==
            Shown(Hits(c, front, id), includeHidden) +
            if Offers(c, last, id, includeHidden) then [HitAt(c, last, id).value] else []
  {
    var hits, hit := Hits(c, ps[..|ps| - 1], id), HitAt(c, ps[|ps| - 1], id);
    hide HitAt;
    if hit.Some? {
      assert (hits + [hit.value])[..|hits|] == hits;
    } else {
      assert hits + [] == hits;
    }
  }

  predicate NoOffer(c: Config, ps: seq<Provider>, id: string, includeHidden: bool) {
    forall k :: 0 <= k < |ps| ==> !Offers(c, ps[k], id, includeHidden)
  }

  /** How the offers of all providers follow from those of all but the last. */
  lemma OffersExtend(c: Config, ps: seq<Provider>, id: string, includeHidden: bool, i: int, j: int)
    requires ps != []
    ensures var front, last, n := ps[..|ps| - 1], Offers(c, ps[|ps| - 1], id, includeHidden), |ps| - 1;
            && (NoOffer(c, front, id, includeHidden) && last ==> OnlyOffer(c, ps, id, includeHidden, n))
            && (NoOffer(c, front, id, includeHidden) && !last ==> NoOffer(c, ps, id, includeHidden))
            && (OnlyOffer(c, front, id, includeHidden, i) ==> ps[i] == front[i])
            && (OnlyOffer(c, front, id, includeHidden, i) && last ==> BothOffer(c, ps, id, includeHidden, i, n))
            && (OnlyOffer(c, front, id, includeHidden, i) && !last ==> OnlyOffer(c, ps, id, includeHidden, i))
            && (BothOffer(c, front, id, includeHidden, i, j) ==> BothOffer(c, ps, id, includeHidden, i, j))
  {
    hide Offers;
  }

  /** The hits that count are as many as the providers that offer the id, up to two. */
  lemma {:induction false} ShownAreOffers(c: Config, ps: seq<Provider>, id: string, includeHidden: bool)
      returns (i: int, j: int)
    ensures var shown := Shown(Hits(c, ps, id), includeHidden);
            && (shown == [] ==> NoOffer(c, ps, id, includeHidden))
            && (|shown| == 1 ==> OnlyOffer(c, ps, id, includeHidden, i) && HitAt(c, ps[i], id) == Some(shown[0]))
            && (|shown| > 1 ==> BothOffer(c, ps, id, includeHidden, i, j))
  {
    i, j := 0, 0;
    if ps != [] {
      var n := |ps| - 1;
      i, j := ShownAreOffers(c, ps[..n], id, includeHidden);
      OffersExtend(c, ps, id, includeHidden, i, j);
      ShownStep(c, ps, id, includeHidden);
      var before := |Shown(Hits(c, ps[..n], id), includeHidden)|;
      var last := Offers(c, ps[n], id, includeHidden);
      assert last ==> HitAt(c, ps[n], id).Some?;
      hide HitAt, Hits, Shown, Offers, NoOffer, OnlyOffer, BothOffer;
      if last && before == 0 {
        i := n;
      } else if last && before == 1 {
        j := n;
      }
    }
  }

  /** A bare id resolves exactly when one provider offers it, and then to what that provider has. */
  lemma BareIdIsUnambiguous(c: Config, id: string, includeHidden: bool, m: Model)
    ensures var r, ps := Decide(Hits(c, c.providers, id), id, includeHidden), c.providers;
            && (r == Ok(m) <==>
                exists i :: OnlyOffer(c, ps, id, includeHidden, i) && HitAt(c, ps[i], id).value.resolved == m)
            && (r.Err? && r.error.Ambiguous? <==> exists i, j :: BothOffer(c, ps, id, includeHidden, i, j))
  {
    var i, j := ShownAreOffers(c, c.providers, id, includeHidden);
    hide HitAt, Hits, Shown, Offers;
  }

  // ----- what each kind of name comes to -----

  /** A static entry sits under the provider with that id. */
  predicate HasStatic(c: Config, key: string, id: string) {
    exists i :: 0 <= i < |c.models| && c.models[i].providerKey == key && c.models[i].modelId == id
  }

  predicate HasRecord(c: Config, key: string, id: string) {
    key in c.caches && exists i :: 0 <= i < |c.caches[key]| && c.caches[key][i].modelId == id
  }

  /** The result is the entry that stands first under that provider and id. */
  predicate IsFirstStatic(c: Config, key: string, id: string, m: Model) {
    exists i :: 0 <= i < |c.models| && c.models[i] == m && m.providerKey == key && m.modelId == id
      && forall j :: 0 <= j < i ==> c.models[j].providerKey != key || c.models[j].modelId != id
  }

  lemma {:induction false} StaticIsFirst(models: seq<Model>, key: string, id: string) returns (i: nat)
    ensures var m := FindStatic(models, key, id);
            m.Some? ==>
              && i < |models| && models[i] == m.value
              && forall j :: 0 <= j < i ==> models[j].providerKey != key || models[j].modelId != id
  {
    i := 0;
    if models != [] && !(models[0].providerKey == key && models[0].modelId == id) {
      i := StaticIsFirst(models[1..], key, id);
      i := i + 1;
    }
  }

  lemma StaticFound(c: Config, key: string, id: string)
    ensures FindStatic(c.models, key, id).Some? <==> HasStatic(c, key, id)
    ensures HasStatic(c, key, id) ==> IsFirstStatic(c, key, id, FindStatic(c.models, key, id).value)
  {
    var i := StaticIsFirst(c.models, key, id);
    if FindStatic(c.models, key, id).Some? {
      assert c.models[i].providerKey == key && c.models[i].modelId == id;
    }
  }

  lemma RecordFound(c: Config, key: string, id: string)
    ensures ReadDiscovery(c, key, id).Some? <==> HasRecord(c, key, id)
    ensures HasRecord(c, key, id) ==>
      ReadDiscovery(c, key, id).value in c.caches[key] && ReadDiscovery(c, key, id).value.modelId == id
  {
    if ReadDiscovery(c, key, id).Some? {
      var i :| 0 <= i < |c.caches[key]| && c.caches[key][i] == ReadDiscovery(c, key, id).value;
    }
  }

  /**
   * What a qualified name of an enabled provider comes to, once the first lookup does not know
   * it. A static entry wins. Without one, an id that discovery ignores is hidden, unless hidden
   * models are asked for. Any other id is trusted, with its record if there is one and the
   * provider is asked, and without otherwise.
   */
  lemma QualifiedNames(c: Config, p: Provider, id: string, includeHidden: bool)
    requires WellFormed(c) && p in c.providers && p.enabled && id != ""
    requires c.findModel(p.key + ":" + id).None?
    ensures var name := p.key + ":" + id;
            var r := Find(c, name, includeHidden);
            && (HasStatic(c, p.key, id) ==> r.Ok? && IsFirstStatic(c, p.key, id, r.value))
            && (!HasStatic(c, p.key, id) && p.discovery && !p.visible(id) && !includeHidden ==>
                  r == Err(Hidden(name, p.key)))
            && (!HasStatic(c, p.key, id) && (!p.discovery || p.visible(id) || includeHidden) ==>
                  r.Ok? && r.value.qualifiedName == name &&
                  if p.discovery && HasRecord(c, p.key, id)
                  then exists d :: d in c.caches[p.key] && d.modelId == id && r.value == Build(c, p, id, Some(d))
                  else r.value == Build(c, p, id, None))
  {
    SplitInverts(p.key, id);
    ProviderIsFound(c, p);
    StaticFound(c, p.key, id);
    RecordFound(c, p.key, id);
    hide SplitColon, ProviderIndex, FindStatic, ReadDiscovery, HasStatic, HasRecord, IsFirstStatic, WellFormed;
  }

  /** The provider knows the id, hidden or not. */
  predicate Knows(c: Config, p: Provider, id: string) {
    p.enabled && (HasStatic(c, p.key, id) || (p.discovery && HasRecord(c, p.key, id)))
  }

  /** A provider offers what it knows, unless discovery alone knows it and ignores it. */
  lemma OffersMeans(c: Config, p: Provider, id: string, includeHidden: bool)
    ensures Offers(c, p, id, includeHidden) <==>
              Knows(c, p, id) && (HasStatic(c, p.key, id) || p.visible(id) || includeHidden)
    ensures HitAt(c, p, id).Some? <==> Knows(c, p, id)
    ensures Knows(c, p, id) && HasStatic(c, p.key, id) ==> IsFirstStatic(c, p.key, id, HitAt(c, p, id).value.resolved)
    ensures Knows(c, p, id) && !HasStatic(c, p.key, id) ==>
              exists d :: d in c.caches[p.key] && d.modelId == id &&
                HitAt(c, p, id).value.resolved == Build(c, p, id, Some(d))
  {
    StaticFound(c, p.key, id);
    RecordFound(c, p.key, id);
    hide FindStatic, ReadDiscovery, HasStatic, HasRecord, IsFirstStatic, Build;
  }

  /** The first provider of the list that knows the id. */
  predicate FirstToKnow(c: Config, ps: seq<Provider>, id: string, i: int) {
    0 <= i < |ps| && Knows(c, ps[i], id) && forall j :: 0 <= j < i ==> !Knows(c, ps[j], id)
  }

  lemma {:induction false} FirstHit(c: Config, ps: seq<Provider>, id: string) returns (i: int)
    ensures var hits := Hits(c, ps, id);
            if hits == [] then forall j :: 0 <= j < |ps| ==> !Knows(c, ps[j], id)
            else FirstToKnow(c, ps, id, i) && hits[0].provider == ps[i].key
  {
    i := 0;
    if ps != [] {
      var n := |ps| - 1;
      i := FirstHit(c, ps[..n], id);
      OffersMeans(c, ps[n], id, true);
      hide HitAt, Knows;
      var before := Hits(c, ps[..n], id);
      if before == [] {
        assert forall j :: 0 <= j < n ==> ps[..n][j] == ps[j];
        i := n;
      } else {
        assert forall j :: 0 <= j < n ==> ps[..n][j] == ps[j];
      }
    }
  }

  /**
   * When a bare id does not resolve: it is unknown exactly if no enabled provider knows it, and
   * hidden exactly if some do and all of those hide it, in the name of the first of them.
   */
  lemma BareIdFails(c: Config, id: string, includeHidden: bool)
    ensures var r, ps := Decide(Hits(c, c.providers, id), id, includeHidden), c.providers;
            && (r == Err(NotFound(id)) <==> forall i :: 0 <= i < |ps| ==> !Knows(c, ps[i], id))
            && (r.Err? && r.error.Hidden? <==>
                  && (exists i :: 0 <= i < |ps| && Knows(c, ps[i], id))
                  && (forall i :: 0 <= i < |ps| ==> !Offers(c, ps[i], id, includeHidden)))
            && (r.Err? && r.error.Hidden? ==>
                  exists i :: FirstToKnow(c, ps, id, i) && r == Err(Hidden(id, ps[i].key)))
  {
    var ps := c.providers;
    var first := FirstHit(c, ps, id);
    var i, j := ShownAreOffers(c, ps, id, includeHidden);
    forall k | 0 <= k < |ps| && Offers(c, ps[k], id, includeHidden)
      ensures Knows(c, ps[k], id)
    {
      OffersMeans(c, ps[k], id, includeHidden);
    }
    if Hits(c, ps, id) == [] { assert Shown([], includeHidden) == []; }
    hide HitAt, Hits, Shown, Offers, Knows;
  }

  /**
   * A discovered row is listed exactly for a record of an enabled provider that may be asked,
   * where no static entry has that id, and the id is visible or hidden ones are asked for.
   */
  lemma DiscoveredRowMeans(c: Config, p: Provider, includeHidden: bool, row: Row)
    ensures RowFrom(c, p, includeHidden, row) <==>
      && p.enabled && p.discovery && p.key in c.caches
      && exists d :: d in c.caches[p.key] && !HasStatic(c, p.key, d.modelId)
           && (p.visible(d.modelId) || includeHidden)
           && row == Row(FromDiscovery, Build(c, p, d.modelId, Some(d)), !p.visible(d.modelId))
  {
    forall id: string
      ensures FindStatic(c.models, p.key, id).Some? <==> HasStatic(c, p.key, id)
    {
      StaticFound(c, p.key, id);
    }
    hide FindStatic, HasStatic, Build;
  }
}
