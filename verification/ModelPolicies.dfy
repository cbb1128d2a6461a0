/** Model policies: which provider and model references an actor may use, and how authority narrows
    from one layer to the next. */
module ModelPolicies {
  import opened Ordering

  datatype ModelIds = Star | Ids(ids: seq<string>)
  datatype Selector = Selector(provider: string, models: ModelIds)
  datatype Allow = Everything | Selectors(list: seq<Selector>)
  datatype Ref = Ref(provider: string, modelId: string)
  datatype Policy = Policy(default: Option<Ref>, fallback: Option<seq<Ref>>, allow: Allow)
  datatype Override = Override(default: Option<Ref>, fallback: Option<seq<Ref>>, allow: Option<Allow>)
  datatype Result<+T> = Ok(value: T) | Err

  const DEFAULT_MODEL_POLICY := Policy(None, None, Everything)

  // ---------------------------------------------------------------- validated names

  predicate IsSpace(c: char) {
    || '\t' <= c <= '\r' || c == ' ' || c == '\U{00A0}' || c == '\U{1680}' || '\U{2000}' <= c <= '\U{200A}'
    || c == '\U{2028}' || c == '\U{2029}' || c == '\U{202F}' || c == '\U{205F}' || c == '\U{3000}' || c == '\U{FEFF}'
  }

  /** Trimmed and not empty. */
  predicate ValidName(s: string) {
    s != "" && !IsSpace(s[0]) && !IsSpace(s[|s| - 1])
  }

  predicate ValidSelector(s: Selector) {
    ValidName(s.provider) && (s.models.Ids? ==> s.models.ids != [] && forall id :: id in s.models.ids ==> ValidName(id))
  }

  predicate ValidAllow(a: Allow) {
    a.Selectors? ==> forall s :: s in a.list ==> ValidSelector(s)
  }

  predicate ValidRef(r: Ref) { ValidName(r.provider) && ValidName(r.modelId) }

  // ---------------------------------------------------------------- authority

  predicate Selects(s: Selector, r: Ref) {
    s.provider == r.provider && (s.models.Star? || r.modelId in s.models.ids)
  }

  /** `modelAllowedBy`. */
  predicate Allowed(a: Allow, r: Ref) {
    a.Everything? || exists i :: 0 <= i < |a.list| && Selects(a.list[i], r)
  }

  /** Every policy of the list allows the reference. */
  ghost predicate AllAllow(policies: seq<Policy>, r: Ref) {
    forall p :: p in policies ==> Allowed(p.allow, r)
  }

  datatype Models = All | Only(ids: set<string>)
  type Providers = map<string, Models>

  predicate MapAllows(m: Providers, r: Ref) {
    r.provider in m && (m[r.provider].All? || r.modelId in m[r.provider].ids)
  }

  function AddSelector(m: Providers, s: Selector): Providers {
    var current := if s.provider in m then m[s.provider] else Only({});
    m[s.provider := if current.All? || s.models.Star? then All else Only(current.ids + Elements(s.models.ids))]
  }

  function SelectorMap(selectors: seq<Selector>): Providers {
    if selectors == [] then map[]
    else AddSelector(SelectorMap(selectors[..|selectors| - 1]), selectors[|selectors| - 1])
  }

  lemma {:induction false} SelectorMapAllows(selectors: seq<Selector>, r: Ref)
    ensures MapAllows(SelectorMap(selectors), r) <==> Allowed(Selectors(selectors), r)
  {
    if selectors != [] {
      var prefix, last := selectors[..|selectors| - 1], selectors[|selectors| - 1];
      SelectorMapAllows(prefix, r);
      if Allowed(Selectors(prefix), r) {
        var i :| 0 <= i < |prefix| && Selects(prefix[i], r);
        assert Selects(selectors[i], r);
      }
      if Allowed(Selectors(selectors), r) {
        var i :| 0 <= i < |selectors| && Selects(selectors[i], r);
        if i < |prefix| { assert Selects(prefix[i], r); }
      }
      assert Selects(last, r) ==> Allowed(Selectors(selectors), r);
    }
  }

  method SelectorMapOf(selectors: seq<Selector>) returns (providers: Providers)
    ensures providers == SelectorMap(selectors)
  {
    providers := map[];
    for i := 0 to |selectors|
      invariant providers == SelectorMap(selectors[..i])
    {
      assert selectors[..i + 1][..i] == selectors[..i];
      var s := selectors[i];
      if (s.provider in providers && providers[s.provider].All?) || s.models.Star? {
        providers := providers[s.provider := All];
      } else {
        var current := if s.provider in providers then providers[s.provider].ids else {};
        providers := providers[s.provider := Only(current + Elements(s.models.ids))];
      }
    }
    assert selectors[..|selectors|] == selectors;
  }

  // ---------------------------------------------------------------- the canonical selector list

  ghost function SelectorFor(m: Providers, provider: string): Selector
    requires provider in m
  {
    CodeUnitOrder();
    Selector(provider, if m[provider].All? then Star else Ids(Listing(CodeUnitLe, m[provider].ids)))
  }

  /** Providers in collation order, each with its model ids in code-unit order. */
  ghost function SelectorsOf(m: Providers, collate: (string, string) -> bool): seq<Selector>
    requires TotalOrder(collate)
  {
    var keys := Listing(collate, m.Keys);
    assert forall i :: 0 <= i < |keys| ==> keys[i] in Elements(keys);
    SelectorsFor(m, keys)
  }

  ghost function SelectorsFor(m: Providers, keys: seq<string>): (list: seq<Selector>)
    requires forall k :: k in keys ==> k in m
    ensures |list| == |keys| && forall i :: 0 <= i < |keys| ==> list[i] == SelectorFor(m, keys[i])
  {
    seq(|keys|, i requires 0 <= i < |keys| => SelectorFor(m, keys[i]))
  }

  lemma SelectorsOfAllows(m: Providers, collate: (string, string) -> bool, r: Ref)
    requires TotalOrder(collate)
    ensures Allowed(Selectors(SelectorsOf(m, collate)), r) <==> MapAllows(m, r)
  {
    CodeUnitOrder();
    var keys, list := Listing(collate, m.Keys), SelectorsOf(m, collate);
    hide TotalOrder, Sorted, Distinct;
    if MapAllows(m, r) {
      assert r.provider in Elements(keys);
      var i :| 0 <= i < |keys| && keys[i] == r.provider;
      assert m[r.provider].Only? ==> r.modelId in Elements(Listing(CodeUnitLe, m[r.provider].ids));
      assert Selects(list[i], r);
    }
    if Allowed(Selectors(list), r) {
      var i :| 0 <= i < |list| && Selects(list[i], r);
      assert keys[i] in Elements(keys);
      assert m[keys[i]].Only? ==> r.modelId in Elements(Listing(CodeUnitLe, m[keys[i]].ids));
    }
  }

  method SortedSelectors(m: Providers, collate: (string, string) -> bool) returns (list: seq<Selector>)
    requires TotalOrder(collate)
    ensures list == SelectorsOf(m, collate)
  {
    var keys := ListSet(collate, m.Keys);
    ListingUnique(collate, keys, Listing(collate, m.Keys), m.Keys);
    assert forall k :: k in keys ==> k in Elements(keys);
    list := SelectorLoop(m, keys);
  }

  method SelectorLoop(m: Providers, keys: seq<string>) returns (list: seq<Selector>)
    requires forall k :: k in keys ==> k in m
    ensures list == SelectorsFor(m, keys)
  {
    hide SelectorFor, SelectorsFor;
    list := [];
    for i := 0 to |keys|
      invariant |list| == i && forall j :: 0 <= j < i ==> list[j] == SelectorFor(m, keys[j])
    {
      assert keys[i] in keys;
      var selector := SortedSelector(m, keys[i]);
      list := list + [selector];
    }
  }

  method SortedSelector(m: Providers, provider: string) returns (s: Selector)
    requires provider in m
    ensures s == SelectorFor(m, provider)
  {
    if m[provider].All? { return Selector(provider, Star); }
    CodeUnitOrder();
    var ids := ListSet(CodeUnitLe, m[provider].ids);
    ListingUnique(CodeUnitLe, ids, Listing(CodeUnitLe, m[provider].ids), m[provider].ids);
    s := Selector(provider, Ids(ids));
  }

  // ---------------------------------------------------------------- intersection

  function IntersectModels(a: Models, b: Models): Models {
    if a.All? then b else if b.All? then a else Only(set id | id in a.ids && id in b.ids)
  }

  /** Providers both sides name, unless nothing is shared. */
  function IntersectMaps(a: Providers, b: Providers): Providers {
    map p | p in a && p in b && IntersectModels(a[p], b[p]) != Only({}) :: IntersectModels(a[p], b[p])
  }

  lemma IntersectMapsAllows(a: Providers, b: Providers, r: Ref)
    ensures MapAllows(IntersectMaps(a, b), r) <==> MapAllows(a, r) && MapAllows(b, r)
  {
    if MapAllows(a, r) && MapAllows(b, r) {
      var shared := IntersectModels(a[r.provider], b[r.provider]);
      assert shared.All? || r.modelId in shared.ids;
    }
  }

  function Explicit(policies: seq<Policy>): seq<Policy> {
    if policies == [] then []
    else Explicit(policies[..|policies| - 1]) + (if policies[|policies| - 1].allow.Everything? then []
        else [policies[|policies| - 1]])
  }

  /** The intersection of the maps of `explicit[..n]`. */
  function Shared(explicit: seq<Policy>, n: nat): Providers
    requires 1 <= n <= |explicit| && forall p :: p in explicit ==> p.allow.Selectors?
  {
    if n == 1 then SelectorMap(explicit[0].allow.list)
    else IntersectMaps(Shared(explicit, n - 1), SelectorMap(explicit[n - 1].allow.list))
  }

  lemma {:induction false} ExplicitFacts(policies: seq<Policy>)
    ensures forall p :: p in Explicit(policies) <==> p in policies && p.allow.Selectors?
  {
    if policies != [] {
      ExplicitFacts(policies[..|policies| - 1]);
      assert forall p :: p in policies <==> p in policies[..|policies| - 1] || p == policies[|policies| - 1];
    }
  }

  /** The shared authority as a map; none when no policy is restrictive. */
  ghost function Authority(policies: seq<Policy>): Option<Providers> {
    var explicit := Explicit(policies);
    ExplicitFacts(policies);
    if explicit == [] then None else Some(Shared(explicit, |explicit|))
  }

  ghost function Intersection(policies: seq<Policy>, collate: (string, string) -> bool): Allow
    requires TotalOrder(collate)
  {
    match Authority(policies)
    case None => Everything
    case Some(m) => Selectors(SelectorsOf(m, collate))
  }

  method IntersectModelPolicies(policies: seq<Policy>, collate: (string, string) -> bool) returns (r: Policy)
    requires TotalOrder(collate)
    ensures r == Policy(None, None, Intersection(policies, collate))
  {
    hide TotalOrder, SelectorsOf;
    var explicit := Explicit(policies);
    ExplicitFacts(policies);
    if explicit == [] { return DEFAULT_MODEL_POLICY; }
    assert forall i :: 0 <= i < |explicit| ==> explicit[i] in explicit;
    var intersection := SelectorMapOf(explicit[0].allow.list);
    for i := 1 to |explicit|
      invariant intersection == Shared(explicit, i)
    {
      var right := SelectorMapOf(explicit[i].allow.list);
      intersection := IntersectLoop(intersection, right);
    }
    var list := SortedSelectors(intersection, collate);
    r := Policy(None, None, Selectors(list));
  }

  method IntersectLoop(left: Providers, right: Providers) returns (next: Providers)
    ensures next == IntersectMaps(left, right)
  {
    next := map[];
    var rest := left.Keys;
    while rest != {}
      invariant rest <= left.Keys
      invariant next == IntersectMaps(map p | p in left && p !in rest :: left[p], right)
      decreases rest
    {
      var provider :| provider in rest;
      rest := rest - {provider};
      if provider in right {
        var shared := IntersectModels(left[provider], right[provider]);
        if shared.All? || |shared.ids| > 0 { next := next[provider := shared]; }
      }
    }
    assert (map p | p in left && p !in rest :: left[p]) == left;
  }

  lemma {:induction false} SharedAllows(explicit: seq<Policy>, n: nat, r: Ref)
    requires 1 <= n <= |explicit| && forall p :: p in explicit ==> p.allow.Selectors?
    ensures MapAllows(Shared(explicit, n), r) <==> forall i :: 0 <= i < n ==> Allowed(explicit[i].allow, r)
  {
    hide MapAllows, Allowed, IntersectMaps;
    SelectorMapAllows(explicit[n - 1].allow.list, r);
    if n > 1 {
      SharedAllows(explicit, n - 1, r);
      IntersectMapsAllows(Shared(explicit, n - 1), SelectorMap(explicit[n - 1].allow.list), r);
    }
  }

  /** A reference is allowed by the intersection exactly when every policy allows it. */
  lemma IntersectionIsConjunction(policies: seq<Policy>, collate: (string, string) -> bool, r: Ref)
    requires TotalOrder(collate)
    ensures Allowed(Intersection(policies, collate), r) <==> AllAllow(policies, r)
  {
    hide TotalOrder, SelectorsOf, MapAllows;
    var explicit := Explicit(policies);
    ExplicitFacts(policies);
    assert forall p :: p in policies && p.allow.Everything? ==> Allowed(p.allow, r);
    hide Allowed;
    if explicit == [] {
      assert forall p :: p in policies ==> p.allow.Everything?;
      assert Allowed(Everything, r) by { EverythingAllowed(r); }
    } else {
      SharedAllows(explicit, |explicit|, r);
      SelectorsOfAllows(Shared(explicit, |explicit|), collate, r);
      assert forall p :: p in explicit ==> exists i :: 0 <= i < |explicit| && explicit[i] == p;
    }
  }

  lemma EverythingAllowed(r: Ref)
    ensures Allowed(Everything, r)
  {}

  // ---------------------------------------------------------------- canonical form

  ghost predicate ValidPolicies(policies: seq<Policy>) {
    forall p :: p in policies ==> ValidAllow(p.allow)
  }

  /** Every provider has a valid name and at least one valid model id, or all of them. */
  ghost predicate Normal(m: Providers) {
    forall p :: p in m ==>
      ValidName(p) && (m[p].Only? ==> m[p].ids != {} && forall id :: id in m[p].ids ==> ValidName(id))
  }

  lemma {:induction false} SelectorMapNormal(selectors: seq<Selector>)
    requires forall s :: s in selectors ==> ValidSelector(s)
    ensures Normal(SelectorMap(selectors))
  {
    hide ValidName;
    if selectors != [] {
      SelectorMapNormal(selectors[..|selectors| - 1]);
      var last := selectors[|selectors| - 1];
      assert ValidSelector(last);
      assert last.models.Ids? ==> last.models.ids[0] in Elements(last.models.ids);
    }
  }

  lemma {:induction false} SharedNormal(explicit: seq<Policy>, n: nat)
    requires 1 <= n <= |explicit| && forall p :: p in explicit ==> p.allow.Selectors? && ValidAllow(p.allow)
    ensures Normal(Shared(explicit, n))
  {
    SelectorMapNormal(explicit[n - 1].allow.list);
    if n > 1 {
      SharedNormal(explicit, n - 1);
      IntersectNormal(Shared(explicit, n - 1), SelectorMap(explicit[n - 1].allow.list));
    }
  }

  lemma IntersectNormal(a: Providers, b: Providers)
    requires Normal(a) && Normal(b)
    ensures Normal(IntersectMaps(a, b))
  {
    hide ValidName;
  }

  /** A valid name outside any finite set: longer than all of its members. */
  lemma {:induction false} FreshName(names: set<string>) returns (unused: string)
    ensures ValidName(unused) && forall n :: n in names ==> |n| < |unused|
  {
    if names == {} {
      unused := "a";
    } else {
      var n :| n in names;
      var shorter := FreshName(names - {n});
      unused := if |n| < |shorter| then shorter else seq(|n| + 1, i => 'a');
    }
  }

  /** Normal maps that allow the same valid references are the same map: no finite set of ids can
      stand in for a wildcard. */
  lemma NormalMapsEqual(a: Providers, b: Providers)
    requires Normal(a) && Normal(b)
    requires forall r :: ValidRef(r) ==> (MapAllows(a, r) <==> MapAllows(b, r))
    ensures a == b
  {
    forall p | p in a ensures p in b && SameModels(a[p], b[p]) { ProviderAgrees(a, b, p); }
    forall p | p in b ensures p in a { ProviderAgrees(b, a, p); }
    assert a.Keys == b.Keys;
  }

  ghost predicate SameModels(a: Models, b: Models) { a == b }

  lemma ProviderAgrees(a: Providers, b: Providers, p: string)
    requires Normal(a) && Normal(b) && p in a
    requires forall r :: ValidRef(r) ==> (MapAllows(a, r) <==> MapAllows(b, r))
    ensures p in b && SameModels(a[p], b[p])
  {
    hide ValidName;
    var some := if a[p].All? then AName() else ChosenId(a[p].ids);
    assert ValidRef(Ref(p, some)) && MapAllows(a, Ref(p, some));
    assert p in b;
    var unused := FreshName((if a[p].All? then {} else a[p].ids) + (if b[p].All? then {} else b[p].ids));
    assert ValidRef(Ref(p, unused));
    assert a[p].All? <==> b[p].All?;
    if a[p].Only? {
      forall id | id in a[p].ids || id in b[p].ids ensures id in a[p].ids && id in b[p].ids {
        assert ValidRef(Ref(p, id));
      }
      assert a[p].ids == b[p].ids;
    }
  }

  ghost function AName(): (s: string)
    ensures ValidName(s)
  {
    "a"
  }

  ghost function ChosenId(ids: set<string>): (id: string)
    requires ids != {}
    ensures id in ids
  {
    var id :| id in ids;
    id
  }

  /** Unrestricted authority is not the authority of any selector list. */
  lemma MapRefusesSome(m: Providers) returns (r: Ref)
    ensures ValidRef(r) && !MapAllows(m, r)
  {
    var provider := FreshName(m.Keys);
    r := Ref(provider, AName());
  }

  lemma AuthorityAllows(policies: seq<Policy>, r: Ref)
    ensures AllAllow(policies, r) <==>
            (Authority(policies).None? || MapAllows(Authority(policies).value, r))
  {
    hide MapAllows;
    var explicit := Explicit(policies);
    ExplicitFacts(policies);
    assert forall p :: p in policies && p.allow.Everything? ==> Allowed(p.allow, r);
    hide Allowed;
    if explicit == [] {
      assert forall p :: p in policies ==> p.allow.Everything?;
    } else {
      SharedAllows(explicit, |explicit|, r);
      assert forall p :: p in explicit ==> exists i :: 0 <= i < |explicit| && explicit[i] == p;
    }
  }

  lemma AuthorityNormal(policies: seq<Policy>)
    requires ValidPolicies(policies)
    ensures Authority(policies).Some? ==> Normal(Authority(policies).value)
  {
    var explicit := Explicit(policies);
    ExplicitFacts(policies);
    if explicit != [] { SharedNormal(explicit, |explicit|); }
  }

  /** `modelPolicyScopeOf`. */
  ghost function Scope(policies: seq<Policy>, collate: (string, string) -> bool, stringify: Allow -> string): string
    requires TotalOrder(collate)
  {
    stringify(Intersection(policies, collate))
  }

  /** Two lists of validated policies have the same scope exactly when they authorise the same valid references. */
  lemma ScopeIsCanonical(ps: seq<Policy>, qs: seq<Policy>, collate: (string, string) -> bool,
      stringify: Allow -> string)
    requires TotalOrder(collate) && Injective(stringify) && ValidPolicies(ps) && ValidPolicies(qs)
    ensures Scope(ps, collate, stringify) == Scope(qs, collate, stringify) <==>
      forall r :: ValidRef(r) ==> (AllAllow(ps, r) <==> AllAllow(qs, r))
  {
    hide TotalOrder, SelectorsOf, Allowed, AllAllow, Normal, MapAllows, ValidRef;
    if Scope(ps, collate, stringify) == Scope(qs, collate, stringify) {
      forall r ensures AllAllow(ps, r) <==> AllAllow(qs, r) {
        IntersectionIsConjunction(ps, collate, r);
        IntersectionIsConjunction(qs, collate, r);
      }
    }
    if forall r :: ValidRef(r) ==> (AllAllow(ps, r) <==> AllAllow(qs, r)) {
      SameAuthority(ps, qs);
    }
  }

  lemma SameAuthority(ps: seq<Policy>, qs: seq<Policy>)
    requires ValidPolicies(ps) && ValidPolicies(qs)
    requires forall r :: ValidRef(r) ==> (AllAllow(ps, r) <==> AllAllow(qs, r))
    ensures Authority(ps) == Authority(qs)
  {
    hide Allowed, AllAllow, Normal, ValidRef, Authority, MapAllows;
    var a, b := Authority(ps), Authority(qs);
    AuthorityNormal(ps);
    AuthorityNormal(qs);
    forall r | ValidRef(r) ensures a.None? || MapAllows(a.value, r) <==> b.None? || MapAllows(b.value, r) {
      AuthorityAllows(ps, r);
      AuthorityAllows(qs, r);
    }
    if a.Some? && b.Some? {
      NormalMapsEqual(a.value, b.value);
    } else if a.Some? {
      var r := MapRefusesSome(a.value);
    } else if b.Some? {
      var r := MapRefusesSome(b.value);
    }
  }

  /** Order and repetition of policies never change the scope. */
  lemma ScopeIgnoresOrder(ps: seq<Policy>, qs: seq<Policy>, collate: (string, string) -> bool,
      stringify: Allow -> string)
    requires TotalOrder(collate) && Injective(stringify) && ValidPolicies(ps)
    requires forall p :: p in ps <==> p in qs
    ensures Scope(ps, collate, stringify) == Scope(qs, collate, stringify)
  {
    hide TotalOrder, Scope, Allowed, ValidRef;
    ScopeIsCanonical(ps, qs, collate, stringify);
  }

  /** Intersecting some of the policies first never changes the scope. */
  lemma ScopeIgnoresGrouping(ps: seq<Policy>, qs: seq<Policy>, collate: (string, string) -> bool,
      stringify: Allow -> string)
    requires TotalOrder(collate) && Injective(stringify) && ValidPolicies(ps) && ValidPolicies(qs)
    ensures Scope([Policy(None, None, Intersection(ps, collate))] + qs, collate, stringify) ==
      Scope(ps + qs, collate, stringify)
  {
    hide TotalOrder, Scope, Allowed, ValidRef, Intersection, ValidAllow;
    var first := Policy(None, None, Intersection(ps, collate));
    IntersectionValid(ps, collate);
    forall r ensures AllAllow([first] + qs, r) <==> AllAllow(ps + qs, r) {
      IntersectionIsConjunction(ps, collate, r);
      assert first in [first] + qs;
      assert forall p :: p in [first] + qs <==> p == first || p in qs;
      assert forall p :: p in ps + qs <==> p in ps || p in qs;
    }
    ScopeIsCanonical([first] + qs, ps + qs, collate, stringify);
  }

  lemma IntersectionValid(policies: seq<Policy>, collate: (string, string) -> bool)
    requires TotalOrder(collate) && ValidPolicies(policies)
    ensures ValidAllow(Intersection(policies, collate))
  {
    AuthorityNormal(policies);
    hide Authority;
    if Authority(policies).Some? { SelectorsOfValid(Authority(policies).value, collate); }
  }

  lemma SelectorsOfValid(m: Providers, collate: (string, string) -> bool)
    requires TotalOrder(collate) && Normal(m)
    ensures forall s :: s in SelectorsOf(m, collate) ==> ValidSelector(s)
  {
    hide ValidName, Sorted, Distinct;
    var keys := Listing(collate, m.Keys);
    assert forall i :: 0 <= i < |keys| ==> keys[i] in Elements(keys);
    forall p | p in m ensures ValidSelector(SelectorFor(m, p)) {
      CodeUnitOrder();
      if m[p].Only? {
        var ids := Listing(CodeUnitLe, m[p].ids);
        assert forall id :: id in ids ==> id in Elements(ids);
        EmptyListing(CodeUnitLe, ids, m[p].ids);
      }
    }
  }

  /** `allowOf`: rewriting a selector list into canonical form keeps its authority. */
  lemma NormalizingKeepsAuthority(selectors: seq<Selector>, collate: (string, string) -> bool, r: Ref)
    requires TotalOrder(collate)
    ensures Allowed(Selectors(SelectorsOf(SelectorMap(selectors), collate)), r) <==> Allowed(Selectors(selectors), r)
  {
    SelectorMapAllows(selectors, r);
    SelectorsOfAllows(SelectorMap(selectors), collate, r);
  }

  // ---------------------------------------------------------------- attenuation

  ghost predicate FallbacksAllowed(p: Policy) {
    p.fallback.Some? ==> forall r :: r in p.fallback.value ==> Allowed(p.allow, r)
  }

  /** The incoming policy allows it, and so does the override unless it inherits. */
  ghost predicate BothAllow(incoming: Policy, override: Override, r: Ref) {
    Allowed(incoming.allow, r) && (override.allow.Some? ==> Allowed(override.allow.value, r))
  }

  ghost predicate FallbacksPermitted(incoming: Policy, override: Override, fallback: seq<Ref>) {
    forall f :: f in fallback ==> BothAllow(incoming, override, f)
  }

  /** `applyModelPolicy`: the override narrows authority and may replace the default and fallbacks,
      which must all be allowed by what is left. */
  ghost function ApplyModelPolicy(incoming: Policy, override: Override,
      collate: (string, string) -> bool): Result<Policy>
    requires TotalOrder(collate)
  {
    var layer := Policy(None, None, if override.allow.Some? then override.allow.value else Everything);
    var allow := Intersection([incoming, layer], collate);
    var selected := if override.default.Some? then override.default else incoming.default;
    var fallback := if override.fallback.Some? then override.fallback else incoming.fallback;
    if selected.Some? && !Allowed(allow, selected.value) then Err
    else if fallback.Some? && exists r :: r in fallback.value && !Allowed(allow, r) then Err
    else Ok(Policy(selected, fallback, allow))
  }

  /** One application allows exactly what both the incoming policy and the override allow, and its
      default and fallbacks are among that; it fails exactly when one of them would not be. */
  lemma ApplyNarrows(incoming: Policy, override: Override, collate: (string, string) -> bool, r: Ref)
    requires TotalOrder(collate)
    ensures var result := ApplyModelPolicy(incoming, override, collate);
      var selected := if override.default.Some? then override.default else incoming.default;
      var fallback := if override.fallback.Some? then override.fallback else incoming.fallback;
      && (result.Ok? ==>
            && (Allowed(result.value.allow, r) <==> BothAllow(incoming, override, r))
            && result.value.default == selected && result.value.fallback == fallback
            && (selected.Some? ==> Allowed(result.value.allow, selected.value))
            && FallbacksAllowed(result.value))
      && (result.Err? <==>
            || (selected.Some? && !BothAllow(incoming, override, selected.value))
            || (fallback.Some? && !FallbacksPermitted(incoming, override, fallback.value)))
  {
    var layer := Policy(None, None, if override.allow.Some? then override.allow.value else Everything);
    forall x ensures Allowed(Intersection([incoming, layer], collate), x) <==> BothAllow(incoming, override, x)
    {
      IntersectionIsConjunction([incoming, layer], collate, x);
      assert incoming in [incoming, layer] && layer in [incoming, layer];
      EverythingAllowed(x);
      hide Allowed, Intersection;
    }
    hide Allowed, Intersection, TotalOrder;
  }

  /** A chain of applications, outermost layer first. */
  ghost function Chain(incoming: Policy, overrides: seq<Override>, collate: (string, string) -> bool): Result<Policy>
    requires TotalOrder(collate)
  {
    if overrides == [] then Ok(incoming)
    else match Chain(incoming, overrides[..|overrides| - 1], collate)
      case Err => Err
      case Ok(p) => ApplyModelPolicy(p, overrides[|overrides| - 1], collate)
  }

  /** Along a chain the allowed set never grows, and the default and fallbacks that come out are allowed. */
  lemma {:induction false} ChainNeverWidens(incoming: Policy, overrides: seq<Override>,
      collate: (string, string) -> bool, n: nat, r: Ref)
    requires TotalOrder(collate) && n <= |overrides| && Chain(incoming, overrides, collate).Ok?
    ensures Chain(incoming, overrides[..n], collate).Ok?
    ensures Allowed(Chain(incoming, overrides, collate).value.allow, r) ==>
      Allowed(Chain(incoming, overrides[..n], collate).value.allow, r)
    ensures var p := Chain(incoming, overrides, collate).value;
      overrides != [] ==> FallbacksAllowed(p) && (p.default.Some? ==> Allowed(p.allow, p.default.value))
    decreases |overrides|
  {
    hide Allowed, ApplyModelPolicy, TotalOrder, FallbacksAllowed;
    if overrides == [] {
      assert overrides[..n] == overrides;
    } else {
      var prefix := overrides[..|overrides| - 1];
      ApplyNarrows(Chain(incoming, prefix, collate).value, overrides[|overrides| - 1], collate, r);
      if n < |overrides| {
        ChainNeverWidens(incoming, prefix, collate, n, r);
        assert prefix[..n] == overrides[..n];
      } else {
        assert overrides[..n] == overrides;
      }
    }
  }

  /** The canonical listing: providers strictly ascending by `collate`, and each provider's ids strictly
      ascending by code units. */
  lemma SelectorsOrdered(m: Providers, collate: (string, string) -> bool)
    requires TotalOrder(collate)
    ensures var list := SelectorsOf(m, collate);
      && (forall i, j :: 0 <= i < j < |list| ==>
            collate(list[i].provider, list[j].provider) && list[i].provider != list[j].provider)
      && (forall k :: 0 <= k < |list| ==> IdsAscend(list[k].models))
  {
    hide CodeUnitLe;
    var list, keys := SelectorsOf(m, collate), Listing(collate, m.Keys);
    hide TotalOrder;
    assert forall k :: 0 <= k < |keys| ==> keys[k] in Elements(keys);
    assert forall k :: 0 <= k < |list| ==> list[k] == SelectorFor(m, keys[k]);
    hide SelectorsOf;
    forall k | 0 <= k < |list| ensures IdsAscend(list[k].models) { SelectorAscends(m, keys[k]); }
  }

  ghost predicate IdsAscend(models: ModelIds) {
    models.Ids? ==> forall i, j :: 0 <= i < j < |models.ids| ==>
      models.ids[i] != models.ids[j] && ReadsBefore(models.ids[i], models.ids[j])
  }

  lemma SelectorAscends(m: Providers, provider: string)
    requires provider in m
    ensures IdsAscend(SelectorFor(m, provider).models) && SelectorFor(m, provider).provider == provider
  {
    var models := SelectorFor(m, provider).models;
    if models.Ids? {
      CodeUnitOrder();
      assert Lists(CodeUnitLe, models.ids, m[provider].ids);
      hide CodeUnitLe, ReadsBefore;
      forall i, j | 0 <= i < j < |models.ids|
        ensures models.ids[i] != models.ids[j] && ReadsBefore(models.ids[i], models.ids[j])
      {
        CodeUnitMeaning(models.ids[i], models.ids[j]);
      }
    }
  }
}
