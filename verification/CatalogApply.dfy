/** Applying a set of promotions from the reference catalog, and what it leaves. */
module CatalogApply {
  import opened Options
  import opened Coercion
  import opened CatalogPromotion
  import opened Sorting

  datatype Action = Add | Update | Retire

  datatype Promotion = Promotion(action: Action, provider: string, model: string, reason: string, evidence: string)

  datatype Refusal =
    | InvalidCatalog | UnsupportedProvider | RetirementAbsent | ReferenceAbsent | ApiUnsupported
    | CompatibilityUnsupported | TargetExists | TargetAbsent

  datatype Result<T> = Ok(value: T) | Err(why: Refusal)

  function At(c: Catalog, p: string, m: string): Option<Record>
  {
    if Present(c, p, m) then Some(c[p][m]) else None
  }

  /** Whether the running system can serve the record. */
  predicate Supported(current: Catalog, record: Record)
  {
    KnowsApi(current, record) && CompatOf(record).Keys <= CompatKeys(current)
  }

  /** What a promotion asks for, given whether its target is there. */
  predicate Fits(current: Catalog, reference: Catalog, promotion: Promotion, present: bool)
  {
    && promotion.provider in current
    && match promotion.action
       case Retire => present
       case _ => && Present(reference, promotion.provider, promotion.model)
                 && Supported(current, reference[promotion.provider][promotion.model])
                 && (promotion.action.Update? <==> present)
  }

  function Step(updated: Catalog, reference: Catalog, promotion: Promotion): Catalog
    requires promotion.provider in updated
    requires promotion.action.Retire? || Present(reference, promotion.provider, promotion.model)
  {
    var p, m := promotion.provider, promotion.model;
    if promotion.action.Retire? then updated[p := updated[p] - {m}] else updated[p := updated[p][m := reference[p][m]]]
  }

  /** The catalog after promotions in their order, or none when one is refused. */
  function Applied(current: Catalog, reference: Catalog, promotions: seq<Promotion>): (r: Option<Catalog>)
    ensures r.Some? ==> r.value.Keys == current.Keys
  {
    if promotions == [] then Some(current)
    else
      var last := promotions[|promotions| - 1];
      match Applied(current, reference, promotions[..|promotions| - 1])
      case None => None
      case Some(updated) =>
        if Fits(current, reference, last, Present(updated, last.provider, last.model))
        then Some(Step(updated, reference, last)) else None
  }

  lemma {:induction false} RefusedStaysRefused(current: Catalog, reference: Catalog, promotions: seq<Promotion>, i: nat)
    requires i <= |promotions| && Applied(current, reference, promotions[..i]).None?
    ensures Applied(current, reference, promotions).None?
    decreases |promotions|
  {
    if i == |promotions| {
      assert promotions[..i] == promotions;
    } else {
      var front := promotions[..|promotions| - 1];
      assert front[..i] == promotions[..i];
      RefusedStaysRefused(current, reference, front, i);
    }
  }

  lemma AppliedNext(current: Catalog, reference: Catalog, promotions: seq<Promotion>, i: nat)
    requires i < |promotions| && Applied(current, reference, promotions[..i]).Some?
    ensures var updated, q := Applied(current, reference, promotions[..i]).value, promotions[i];
            Applied(current, reference, promotions[..i + 1]) ==
              if Fits(current, reference, q, Present(updated, q.provider, q.model))
              then Some(Step(updated, reference, q)) else None
  {
    assert promotions[..i + 1][..i] == promotions[..i];
  }

  /** Why a promotion is refused. */
  function Check(current: Catalog, reference: Catalog, updated: Catalog, promotion: Promotion): (r: Option<Refusal>)
    requires updated.Keys == current.Keys
    ensures r.None? <==> Fits(current, reference, promotion, Present(updated, promotion.provider, promotion.model))
  {
    var p, m := promotion.provider, promotion.model;
    if p !in current then Some(UnsupportedProvider)
    else if promotion.action.Retire? then if m !in updated[p] then Some(RetirementAbsent) else None
    else if !Present(reference, p, m) then Some(ReferenceAbsent)
    else if !KnowsApi(current, reference[p][m]) then Some(ApiUnsupported)
    else if !(CompatOf(reference[p][m]).Keys <= CompatKeys(current)) then Some(CompatibilityUnsupported)
    else if promotion.action.Add? && m in updated[p] then Some(TargetExists)
    else if promotion.action.Update? && m !in updated[p] then Some(TargetAbsent)
    else None
  }

  /** What a promotion is reported as. */
  function Label(promotion: Promotion): string
  {
    (match promotion.action case Add => "add" case Update => "update" case Retire => "retire")
    + ":" + promotion.provider + "/" + promotion.model
  }

  function Labels(promotions: seq<Promotion>): (r: seq<string>)
    ensures |r| == |promotions|
  {
    seq(|promotions|, i requires 0 <= i < |promotions| => Label(promotions[i]))
  }

  datatype Promoted = Promoted(catalog: Catalog, changed: seq<string>)

  method ApplyPiPromotions(current: Catalog, reference: Catalog, promotions: seq<Promotion>)
    returns (r: Result<Promoted>)
    ensures r == Err(InvalidCatalog) <==> !ValidCatalog(current) || !ValidCatalog(reference)
    ensures ValidCatalog(current) && ValidCatalog(reference) ==>
              (r.Ok? <==> Applied(current, reference, promotions).Some?)
    ensures r.Ok? ==> Some(r.value.catalog) == Applied(current, reference, promotions) && ValidCatalog(r.value.catalog)
    ensures r.Ok? ==> multiset(r.value.changed) == multiset(Labels(promotions)) && Ascending(Below, r.value.changed)
  {
    if !ValidCatalog(current) || !ValidCatalog(reference) {
      return Err(InvalidCatalog);
    }
    var updated := current;
    var changed: seq<string> := [];
    for i := 0 to |promotions|
      invariant updated.Keys == current.Keys && Applied(current, reference, promotions[..i]) == Some(updated)
      invariant changed == Labels(promotions[..i])
    {
      var promotion := promotions[i];
      AppliedNext(current, reference, promotions, i);
      var refusal := Check(current, reference, updated, promotion);
      if refusal.Some? {
        RefusedStaysRefused(current, reference, promotions, i + 1);
        return Err(refusal.value);
      }
      updated := Step(updated, reference, promotion);
      changed := changed + [Label(promotion)];
    }
    assert promotions[..|promotions|] == promotions;
    AppliedIsValid(current, reference, promotions);
    if !ValidCatalog(updated) {
      return Err(InvalidCatalog);
    }
    BelowIsPreorder();
    SortedSorts(Below, changed);
    return Ok(Promoted(updated, Sorted(Below, changed)));
  }

  lemma StepIsValid(updated: Catalog, reference: Catalog, promotion: Promotion)
    requires ValidCatalog(updated) && ValidCatalog(reference) && promotion.provider in updated
    requires promotion.action.Retire? || Present(reference, promotion.provider, promotion.model)
    ensures ValidCatalog(Step(updated, reference, promotion))
  {
    var c := Step(updated, reference, promotion);
    forall p, m | p in c && m in c[p] ensures ValidRecord(p, m, c[p][m]) {
      assert Touches(promotion, p, m) || Present(updated, p, m);
    }
  }

  /** The final check of the updated catalog cannot fail. */
  lemma {:induction false} AppliedIsValid(current: Catalog, reference: Catalog, promotions: seq<Promotion>)
    requires ValidCatalog(current) && ValidCatalog(reference) && Applied(current, reference, promotions).Some?
    ensures ValidCatalog(Applied(current, reference, promotions).value)
  {
    if promotions != [] {
      var front, last := promotions[..|promotions| - 1], promotions[|promotions| - 1];
      AppliedIsValid(current, reference, front);
      StepIsValid(Applied(current, reference, front).value, reference, last);
    }
  }

  // ------------------------------------------------------------ model by model

  predicate Touches(promotion: Promotion, p: string, m: string)
  {
    promotion.provider == p && promotion.model == m
  }

  predicate DistinctScopes(promotions: seq<Promotion>)
  {
    forall i, j :: 0 <= i < j < |promotions| ==> !Touches(promotions[i], promotions[j].provider, promotions[j].model)
  }

  /** What a promotion leaves at its own scope. */
  function Wanted(reference: Catalog, promotion: Promotion): Option<Record>
  {
    if promotion.action.Retire? then None else At(reference, promotion.provider, promotion.model)
  }

  /** Models that no promotion names are left alone. */
  lemma {:induction false} OthersUnchanged(current: Catalog, reference: Catalog, promotions: seq<Promotion>,
                                           p: string, m: string)
    requires Applied(current, reference, promotions).Some?
    requires forall i :: 0 <= i < |promotions| ==> !Touches(promotions[i], p, m)
    ensures At(Applied(current, reference, promotions).value, p, m) == At(current, p, m)
  {
    if promotions != [] {
      OthersUnchanged(current, reference, promotions[..|promotions| - 1], p, m);
    }
  }

  /** Every promoted model ends as its promotion wants it. */
  lemma {:induction false} PromotedAsWanted(current: Catalog, reference: Catalog, promotions: seq<Promotion>, i: nat)
    requires Applied(current, reference, promotions).Some? && DistinctScopes(promotions) && i < |promotions|
    ensures At(Applied(current, reference, promotions).value, promotions[i].provider, promotions[i].model)
         == Wanted(reference, promotions[i])
    ensures Fits(current, reference, promotions[i], Present(current, promotions[i].provider, promotions[i].model))
  {
    var front, last := promotions[..|promotions| - 1], promotions[|promotions| - 1];
    if i < |promotions| - 1 {
      PromotedAsWanted(current, reference, front, i);
    } else {
      OthersUnchanged(current, reference, front, last.provider, last.model);
    }
  }

  /** Promotions with distinct scopes go through exactly when each fits the current
      catalog by itself. */
  lemma {:induction false} AppliedIff(current: Catalog, reference: Catalog, promotions: seq<Promotion>)
    requires DistinctScopes(promotions)
    ensures Applied(current, reference, promotions).Some?
       <==> forall q :: q in promotions ==> Fits(current, reference, q, Present(current, q.provider, q.model))
  {
    if promotions != [] {
      var front, last := promotions[..|promotions| - 1], promotions[|promotions| - 1];
      assert promotions == front + [last];
      AppliedIff(current, reference, front);
      if Applied(current, reference, front).Some? {
        OthersUnchanged(current, reference, front, last.provider, last.model);
      }
    }
  }

  lemma SameCatalog(a: Catalog, b: Catalog)
    requires a.Keys == b.Keys && forall p, m :: At(a, p, m) == At(b, p, m)
    ensures a == b
  {
    forall p | p in a ensures a[p] == b[p] {
      forall m ensures m in a[p] <==> m in b[p] {
        assert At(a, p, m) == At(b, p, m);
      }
      forall m | m in a[p] ensures a[p][m] == b[p][m] {
        assert At(a, p, m) == At(b, p, m);
      }
      assert a[p].Keys == b[p].Keys;
    }
  }

  /** The order of promotions does not matter: the same promotions in another order
      are refused together or give the same catalog. */
  lemma OrderDoesNotMatter(current: Catalog, reference: Catalog, promotions: seq<Promotion>, others: seq<Promotion>)
    requires DistinctScopes(promotions) && DistinctScopes(others) && multiset(promotions) == multiset(others)
    ensures Applied(current, reference, promotions) == Applied(current, reference, others)
  {
    AppliedIff(current, reference, promotions);
    AppliedIff(current, reference, others);
    forall q ensures q in promotions <==> q in others {
      assert q in multiset(promotions) <==> q in multiset(others);
    }
    if Applied(current, reference, promotions).Some? {
      var a, b := Applied(current, reference, promotions).value, Applied(current, reference, others).value;
      forall p, m ensures At(a, p, m) == At(b, p, m) {
        if i :| 0 <= i < |promotions| && Touches(promotions[i], p, m) {
          assert promotions[i] in others;
          var j :| 0 <= j < |others| && others[j] == promotions[i];
          PromotedAsWanted(current, reference, promotions, i);
          PromotedAsWanted(current, reference, others, j);
        } else {
          forall j | 0 <= j < |others| ensures !Touches(others[j], p, m) {
            assert others[j] in promotions;
          }
          OthersUnchanged(current, reference, promotions, p, m);
          OthersUnchanged(current, reference, others, p, m);
        }
      }
      SameCatalog(a, b);
    }
  }

  /** After promotion, comparing with the reference reports drift at an added or
      updated model exactly where Python finds a field of the record unequal to
      itself, and no drift of any other kind. */
  lemma PromotedModelsDoNotDrift(eq: Equality, current: Catalog, reference: Catalog, promotions: seq<Promotion>,
                                 i: nat, d: Drift)
    requires ValidCatalog(current) && ValidCatalog(reference)
    requires Applied(current, reference, promotions).Some? && DistinctScopes(promotions)
    requires i < |promotions| && !promotions[i].action.Retire? && d.provider == promotions[i].provider
    requires d.ProviderMissingFromTravis? || d.ProviderMissingFromPi? || d.model == promotions[i].model
    ensures Present(reference, promotions[i].provider, promotions[i].model)
    ensures Drifts(eq, Applied(current, reference, promotions).value, reference, d)
       <==> && d.FieldDifference? && d.field in COMPARABLE_MODEL_FIELDS
            && var v := Get(reference[promotions[i].provider][promotions[i].model], d.field);
               d.current == v && d.reference == v && !eq(v, v)
  {
    var p, m := promotions[i].provider, promotions[i].model;
    var updated := Applied(current, reference, promotions).value;
    PromotedAsWanted(current, reference, promotions, i);
    var record := reference[p][m];
    assert At(updated, p, m) == Some(record);
    assert Get(record, "api").s in Apis(updated);
    assert CompatOf(record).Keys <= CompatKeys(updated);
  }

  // -------------------------------------------------------------- promotion sets

  /** One raw entry of a promotion manifest that `load_promotion_set` accepts. */
  predicate Acceptable(blank: char -> bool, raw: Value)
  {
    && raw.Object?
    && Get(raw.entries, "action") in {Str("add"), Str("update"), Str("retire")}
    && Written(blank, Get(raw.entries, "provider"))
    && Written(blank, Get(raw.entries, "model"))
    && Written(blank, Get(raw.entries, "reason"))
    && Get(raw.entries, "evidence").Str? && "https://" <= Get(raw.entries, "evidence").s
  }

  predicate Written(blank: char -> bool, v: Value)
  {
    v.Str? && exists i :: 0 <= i < |v.s| && !blank(v.s[i])
  }

  function PromotionOf(blank: char -> bool, raw: Value): Promotion
    requires Acceptable(blank, raw)
  {
    var e := raw.entries;
    var action :=
      if Get(e, "action") == Str("add") then Add else if Get(e, "action") == Str("update") then Update else Retire;
    Promotion(action, Get(e, "provider").s, Get(e, "model").s, Get(e, "reason").s, Get(e, "evidence").s)
  }

  type Scope = (string, string)

  function ScopeOf(promotion: Promotion): Scope
  {
    (promotion.provider, promotion.model)
  }

  function Scopes(promotions: seq<Promotion>): set<Scope>
  {
    if promotions == [] then {}
    else Scopes(promotions[..|promotions| - 1]) + {ScopeOf(promotions[|promotions| - 1])}
  }

  lemma {:induction false} ScopesMean(promotions: seq<Promotion>, scope: Scope)
    ensures scope in Scopes(promotions)
       <==> exists i :: 0 <= i < |promotions| && Touches(promotions[i], scope.0, scope.1)
  {
    if promotions != [] {
      ScopesMean(promotions[..|promotions| - 1], scope);
      var last := promotions[|promotions| - 1];
      assert ScopeOf(last) == scope <==> Touches(last, scope.0, scope.1);
    }
  }

  /** The promotions of raw entries that are all acceptable. */
  function AllPromoted(blank: char -> bool, raws: seq<Value>): (r: seq<Promotion>)
    requires forall i :: 0 <= i < |raws| ==> Acceptable(blank, raws[i])
    ensures |r| == |raws|
  {
    seq(|raws|, i requires 0 <= i < |raws| => PromotionOf(blank, raws[i]))
  }

  lemma MoreScopes(promotions: seq<Promotion>, next: Promotion)
    requires DistinctScopes(promotions)
    ensures DistinctScopes(promotions + [next]) <==> ScopeOf(next) !in Scopes(promotions)
  {
    ScopesMean(promotions, ScopeOf(next));
    var more := promotions + [next];
    if exists i :: 0 <= i < |promotions| && Touches(promotions[i], next.provider, next.model) {
      var i :| 0 <= i < |promotions| && Touches(promotions[i], next.provider, next.model);
      assert more[i] == promotions[i] && more[|promotions|] == next;
    }
  }

  lemma DistinctPrefix(promotions: seq<Promotion>, n: nat)
    requires n <= |promotions| && !DistinctScopes(promotions[..n])
    ensures !DistinctScopes(promotions)
  {
  }

  lemma PromotedMore(blank: char -> bool, raws: seq<Value>, i: nat)
    requires i < |raws| && forall k :: 0 <= k <= i ==> Acceptable(blank, raws[k])
    ensures AllPromoted(blank, raws[..i + 1]) == AllPromoted(blank, raws[..i]) + [PromotionOf(blank, raws[i])]
    ensures Scopes(AllPromoted(blank, raws[..i + 1]))
         == Scopes(AllPromoted(blank, raws[..i])) + {ScopeOf(PromotionOf(blank, raws[i]))}
  {
    var before := AllPromoted(blank, raws[..i]);
    assert (before + [PromotionOf(blank, raws[i])])[..i] == before;
  }

  lemma RepeatedScope(blank: char -> bool, raws: seq<Value>, i: nat)
    requires i < |raws| && (forall k :: 0 <= k < i ==> Acceptable(blank, raws[k])) && Acceptable(blank, raws[i])
    requires DistinctScopes(AllPromoted(blank, raws[..i]))
    requires ScopeOf(PromotionOf(blank, raws[i])) in Scopes(AllPromoted(blank, raws[..i]))
    ensures (forall k :: 0 <= k < |raws| ==> Acceptable(blank, raws[k])) ==> !DistinctScopes(AllPromoted(blank, raws))
  {
    MoreScopes(AllPromoted(blank, raws[..i]), PromotionOf(blank, raws[i]));
    PromotedMore(blank, raws, i);
    if forall k :: 0 <= k < |raws| ==> Acceptable(blank, raws[k]) {
      assert AllPromoted(blank, raws)[..i + 1] == AllPromoted(blank, raws[..i + 1]);
      DistinctPrefix(AllPromoted(blank, raws), i + 1);
    }
  }

  /** Loads the raw entries, in order, exactly when there are some, each is
      acceptable, and no two name the same model. */
  method LoadPromotions(blank: char -> bool, raws: seq<Value>) returns (r: Option<seq<Promotion>>)
    ensures r.Some? <==> && raws != []
                         && (forall i :: 0 <= i < |raws| ==> Acceptable(blank, raws[i]))
                         && DistinctScopes(AllPromoted(blank, raws))
    ensures r.Some? ==> r.value == AllPromoted(blank, raws)
  {
    if raws == [] { return None; }
    var promotions: seq<Promotion> := [];
    var seen: set<Scope> := {};
    for i := 0 to |raws|
      invariant forall k :: 0 <= k < i ==> Acceptable(blank, raws[k])
      invariant promotions == AllPromoted(blank, raws[..i]) && DistinctScopes(promotions) && seen == Scopes(promotions)
    {
      if !Acceptable(blank, raws[i]) { return None; }
      var promotion := PromotionOf(blank, raws[i]);
      if ScopeOf(promotion) in seen {
        RepeatedScope(blank, raws, i);
        return None;
      }
      MoreScopes(promotions, promotion);
      PromotedMore(blank, raws, i);
      seen := seen + {ScopeOf(promotion)};
      promotions := promotions + [promotion];
    }
    assert raws[..|raws|] == raws;
    return Some(promotions);
  }

  datatype PromotionSet = PromotionSet(piCommit: string, promotions: seq<Promotion>)

  predicate IsCommit(lower: string -> string, v: Value)
  {
    v.Str? && |v.s| == 40 && forall c :: c in lower(v.s) ==> '0' <= c <= '9' || 'a' <= c <= 'f'
  }

  /** A promotion manifest loads exactly when it names a full commit and its
      promotions load; `lower` is Python's lower-casing. */
  method LoadPromotionSet(lower: string -> string, blank: char -> bool, payload: Value)
    returns (r: Option<PromotionSet>)
    ensures r.Some? <==> && payload.Object?
                         && IsCommit(lower, Get(payload.entries, "piCommit"))
                         && Get(payload.entries, "promotions").Array?
                         && var raws := Get(payload.entries, "promotions").items;
                            && raws != [] && (forall i :: 0 <= i < |raws| ==> Acceptable(blank, raws[i]))
                            && DistinctScopes(AllPromoted(blank, raws))
    ensures r.Some? ==> r.value == PromotionSet(lower(Get(payload.entries, "piCommit").s),
                                                AllPromoted(blank, Get(payload.entries, "promotions").items))
  {
    if !payload.Object? { return None; }
    var commit, raws := Get(payload.entries, "piCommit"), Get(payload.entries, "promotions");
    if !IsCommit(lower, commit) || !raws.Array? { return None; }
    var promotions := LoadPromotions(blank, raws.items);
    return if promotions.Some? then Some(PromotionSet(lower(commit.s), promotions.value)) else None;
  }

  const NAN := Float(NotFinite("nan"))

  /** Where Python finds NaN unequal to itself, a record with a bare NaN for a name
      drifts from the reference right after it was promoted from it. */
  lemma PromotedNanDrifts(eq: Equality) returns (current: Catalog, reference: Catalog, promotion: Promotion)
    requires !eq(NAN, NAN)
    ensures ValidCatalog(current) && ValidCatalog(reference) && Applied(current, reference, [promotion]).Some?
    ensures promotion.action.Update?
    ensures Drifts(eq, Applied(current, reference, [promotion]).value, reference,
                   FieldDifference(promotion.provider, promotion.model, "name", NAN, NAN))
  {
    var record: Record := map["id" := Str("m"), "provider" := Str("p"), "api" := Str("a")];
    current := map["p" := map["m" := record]];
    reference := map["p" := map["m" := record["name" := NAN]]];
    promotion := Promotion(Update, "p", "m", "", "");
    assert ValidRecord("p", "m", record) && ValidRecord("p", "m", record["name" := NAN]);
    assert CompatOf(record["name" := NAN]) == map[];
    assert "a" in Apis(current) by {
      assert Get(current["p"]["m"], "api") == Str("a");
    }
    assert [promotion][..0] == [];
    assert COMPARABLE_MODEL_FIELDS[1] == "name";
  }
}
