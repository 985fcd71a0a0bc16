/**
 Comparing a model catalog with a reference and promoting records from it.
 Python's equality of values is the given function `eq`.
 */
module CatalogPromotion {
  import opened Options
  import opened Coercion
  import opened Sorting

  type Record = map<string, Value>
  type Models = map<string, Record>
  type Catalog = map<string, Models>

  const COMPARABLE_MODEL_FIELDS: seq<string> :=
    ["id", "name", "api", "provider", "baseUrl", "reasoning", "thinkingLevelMap", "input", "cost", "contextWindow",
     "maxTokens", "compat"]

  const RUNTIME_SUPPORTED_COMPATIBILITY_KEYS: set<string> := {"allowEmptySignature", "sessionAffinityFormat"}

  function Get(record: Record, field: string): Value
  {
    if field in record then record[field] else Null
  }

  predicate ValidLimit(v: Value)
  {
    v.Null? || (v.Int? && v.n >= 0)
  }

  predicate ValidRecord(provider: string, model: string, record: Record)
  {
    && Get(record, "id") == Str(model)
    && Get(record, "provider") == Str(provider)
    && Get(record, "api").Str? && Get(record, "api").s != ""
    && ValidLimit(Get(record, "contextWindow")) && ValidLimit(Get(record, "maxTokens"))
    && ("input" in record ==> record["input"].Array?)
    && ("cost" in record ==> record["cost"].Object?)
    && ("compat" in record ==> record["compat"].Object?)
  }

  predicate ValidCatalog(c: Catalog)
  {
    forall p, m :: p in c && m in c[p] ==> ValidRecord(p, m, c[p][m])
  }

  /** The catalog in a payload of any shape, or none. */
  function ValidateCatalog(payload: Value): (r: Option<Catalog>)
    ensures r.Some? ==> ValidCatalog(r.value)
  {
    if !payload.Object? || exists p :: p in payload.entries && !payload.entries[p].Object? then None
    else if exists p, m ::
              p in payload.entries && m in payload.entries[p].entries && !payload.entries[p].entries[m].Object?
    then None
    else
      var c: Catalog := map p | p in payload.entries ::
                          map m | m in payload.entries[p].entries :: payload.entries[p].entries[m].entries;
      if ValidCatalog(c) then Some(c) else None
  }

  /** The payload that a catalog is read from. */
  function Payload(c: Catalog): Value
  {
    Object(map p | p in c :: Object(map m | m in c[p] :: Object(c[p][m])))
  }

  /** Exactly the payloads of valid catalogs are accepted, each as its own catalog. */
  lemma ValidateIff(payload: Value, c: Catalog)
    ensures ValidateCatalog(payload) == Some(c) <==> ValidCatalog(c) && payload == Payload(c)
  {
    if payload == Payload(c) {
      var models := map p | p in payload.entries ::
                      map m | m in payload.entries[p].entries :: payload.entries[p].entries[m].entries;
      forall p | p in c ensures models[p] == c[p] {
        assert models[p].Keys == c[p].Keys;
      }
      assert models == c;
    }
    if ValidateCatalog(payload) == Some(c) {
      var again := Payload(c);
      forall p | p in payload.entries ensures again.entries[p] == payload.entries[p] {
        assert again.entries[p].entries == payload.entries[p].entries;
      }
      assert again.entries == payload.entries;
    }
  }

  predicate Present(c: Catalog, p: string, m: string)
  {
    p in c && m in c[p]
  }

  /** The interfaces that some record of the catalog names. */
  function Apis(c: Catalog): set<string>
  {
    set p, m | p in c && m in c[p] && Get(c[p][m], "api").Str? && Get(c[p][m], "api").s != "" :: Get(c[p][m], "api").s
  }

  function CompatOf(record: Record): map<string, Value>
  {
    if Get(record, "compat").Object? then Get(record, "compat").entries else map[]
  }

  function CompatKeys(c: Catalog): set<string>
  {
    RUNTIME_SUPPORTED_COMPATIBILITY_KEYS + set p, m, k | p in c && m in c[p] && k in CompatOf(c[p][m]) :: k
  }

  predicate KnowsApi(c: Catalog, record: Record)
  {
    Get(record, "api").Str? && Get(record, "api").s in Apis(c)
  }

  // --------------------------------------------------------------- comparison

  datatype Drift =
    | ProviderMissingFromTravis(provider: string)
    | ProviderMissingFromPi(provider: string)
    | ModelMissingFromTravis(provider: string, model: string)
    | ModelMissingFromPi(provider: string, model: string)
    | FieldDifference(provider: string, model: string, field: string, current: Value, reference: Value)
    | UnsupportedApi(provider: string, model: string, reference: Value)
    | UnsupportedCompatibility(provider: string, model: string, key: string, reference: Value)

  type Equality = (Value, Value) -> bool

  /** What drift there is between two catalogs. */
  predicate Drifts(eq: Equality, c: Catalog, r: Catalog, d: Drift)
  {
    var p := d.provider;
    match d
    case ProviderMissingFromTravis(_) => p !in c && p in r
    case ProviderMissingFromPi(_) => p in c && p !in r
    case ModelMissingFromTravis(_, m) => p in c && m !in c[p] && Present(r, p, m)
    case ModelMissingFromPi(_, m) => Present(c, p, m) && p in r && m !in r[p]
    case FieldDifference(_, m, f, cv, rv) =>
      && Present(c, p, m) && Present(r, p, m) && f in COMPARABLE_MODEL_FIELDS
      && cv == Get(c[p][m], f) && rv == Get(r[p][m], f) && !eq(cv, rv)
    case UnsupportedApi(_, m, rv) =>
      p in c && Present(r, p, m) && rv == Get(r[p][m], "api") && !KnowsApi(c, r[p][m])
    case UnsupportedCompatibility(_, m, k, rv) =>
      p in c && Present(r, p, m) && k in CompatOf(r[p][m]) && k !in CompatKeys(c) && rv == CompatOf(r[p][m])[k]
  }

  /** The drift at one model that the reference has. */
  method CompareModel(eq: Equality, c: Catalog, r: Catalog, p: string, m: string, compat: set<string>)
    returns (drift: set<Drift>)
    requires p in c && Present(r, p, m) && compat == CompatKeys(c)
    ensures forall d :: d in drift <==> Drifts(eq, c, r, d) && d.provider == p && !d.ProviderMissingFromTravis?
                                        && !d.ProviderMissingFromPi? && d.model == m
  {
    drift := {};
    var record := r[p][m];
    if m !in c[p] {
      drift := {ModelMissingFromTravis(p, m)};
    }
    if !KnowsApi(c, record) {
      drift := drift + {UnsupportedApi(p, m, Get(record, "api"))};
    }
    drift := drift
             + set k | k in CompatOf(record) && k !in compat :: UnsupportedCompatibility(p, m, k, CompatOf(record)[k]);
    if m in c[p] {
      var fields := CompareFields(eq, c, r, p, m);
      drift := drift + fields;
    }
  }

  /** The fields in which two records differ. */
  method CompareFields(eq: Equality, c: Catalog, r: Catalog, p: string, m: string) returns (drift: set<Drift>)
    requires Present(c, p, m) && Present(r, p, m)
    ensures forall d :: d in drift <==> d.FieldDifference? && Drifts(eq, c, r, d) && d.provider == p && d.model == m
  {
    drift := {};
    for i := 0 to |COMPARABLE_MODEL_FIELDS|
      invariant forall d :: d in drift <==> d.FieldDifference? && Drifts(eq, c, r, d) && d.provider == p && d.model == m
                                            && d.field in COMPARABLE_MODEL_FIELDS[..i]
    {
      var f := COMPARABLE_MODEL_FIELDS[i];
      if !eq(Get(c[p][m], f), Get(r[p][m], f)) {
        drift := drift + {FieldDifference(p, m, f, Get(c[p][m], f), Get(r[p][m], f))};
      }
    }
  }

  /** The key that drift is sorted by; `json` is the stable JSON text of a value. */
  function SortKey(json: Value -> string, d: Drift): seq<string>
  {
    match d
    case ProviderMissingFromTravis(p) => [p, "", "provider_missing_from_travis", "", json(Null), json(Null)]
    case ProviderMissingFromPi(p) => [p, "", "provider_missing_from_pi", "", json(Null), json(Null)]
    case ModelMissingFromTravis(p, m) => [p, m, "model_missing_from_travis", "", json(Null), json(Null)]
    case ModelMissingFromPi(p, m) => [p, m, "model_missing_from_pi", "", json(Null), json(Null)]
    case FieldDifference(p, m, f, c, r) => [p, m, "field_difference", f, json(c), json(r)]
    case UnsupportedApi(p, m, r) => [p, m, "unsupported_api", "api", json(Null), json(r)]
    case UnsupportedCompatibility(p, m, k, r) => [p, m, "unsupported_compatibility", "compat." + k, json(Null), json(r)]
  }

  function DriftOrder(json: Value -> string): Order<Drift>
  {
    (d, e) => TupleBelow(SortKey(json, d), SortKey(json, e))
  }

  lemma DriftOrderIsPreorder(json: Value -> string)
    ensures Preorder(DriftOrder(json))
  {
    var below := DriftOrder(json);
    forall d, e ensures below(d, e) || below(e, d) {
      TupleBelowIsTotal(SortKey(json, d), SortKey(json, e));
    }
    forall a, b, c | below(a, b) && below(b, c) ensures below(a, c) {
      TupleBelowIsTransitive(SortKey(json, a), SortKey(json, b), SortKey(json, c));
    }
  }

  /** Reports exactly the drift there is, each once, in the order of its keys. */
  method ComparePiCatalogs(eq: Equality, json: Value -> string, c: Catalog, r: Catalog)
    returns (drift: Option<seq<Drift>>)
    ensures drift.Some? <==> ValidCatalog(c) && ValidCatalog(r)
    ensures drift.Some? ==> forall d :: multiset(drift.value)[d] == if Drifts(eq, c, r, d) then 1 else 0
    ensures drift.Some? ==> Ascending(DriftOrder(json), drift.value)
  {
    if !ValidCatalog(c) || !ValidCatalog(r) { return None; }
    var found := FindDrift(eq, c, r);
    DriftOrderIsPreorder(json);
    var sorted := SortedSet(DriftOrder(json), found);
    return Some(sorted);
  }

  method FindDrift(eq: Equality, c: Catalog, r: Catalog) returns (found: set<Drift>)
    ensures forall d :: d in found <==> Drifts(eq, c, r, d)
  {
    var compat := CompatKeys(c);
    found := {};
    var providers := c.Keys + r.Keys;
    while providers != {}
      invariant providers <= c.Keys + r.Keys
      invariant forall d :: d in found <==> Drifts(eq, c, r, d) && d.provider !in providers
      decreases |providers|
    {
      var p :| p in providers;
      var more := CompareProvider(eq, c, r, p, compat);
      found := found + more;
      providers := providers - {p};
    }
  }

  method CompareProvider(eq: Equality, c: Catalog, r: Catalog, p: string, compat: set<string>)
    returns (drift: set<Drift>)
    requires (p in c || p in r) && compat == CompatKeys(c)
    ensures forall d :: d in drift <==> Drifts(eq, c, r, d) && d.provider == p
  {
    if p !in c { return {ProviderMissingFromTravis(p)}; }
    if p !in r { return {ProviderMissingFromPi(p)}; }
    drift := {};
    var models := c[p].Keys + r[p].Keys;
    while models != {}
      invariant models <= c[p].Keys + r[p].Keys
      invariant forall d :: d in drift <==> Drifts(eq, c, r, d) && d.provider == p && d.model !in models
      decreases |models|
    {
      var m :| m in models;
      if m !in r[p] {
        drift := drift + {ModelMissingFromPi(p, m)};
      } else {
        var more := CompareModel(eq, c, r, p, m, compat);
        drift := drift + more;
      }
      models := models - {m};
    }
  }
}
