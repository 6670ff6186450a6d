/** Where one sample's hot-path costs come from: the benchmark's own document and the observer. */
module HotPathCosts {
  import opened PythonValues
  import opened Wrappers

  type Key = string

  predicate Distinct(keys: seq<Key>) { forall i, j :: 0 <= i < j < |keys| ==> keys[i] != keys[j] }

  // In two parts, because the prover reads a character of a long literal only with difficulty.
  const REASON := "not" + " exposed by the child benchmark or configured observer"

  /** A benchmark document by path, and where a cost comes from: a bare path or a scaled one. */
  type Document = map<string, Json>
  datatype Source = Source(path: string, scale: Option<real>)

  datatype Scenario = Scenario(key: string, sources: seq<(Key, Source)>, required: seq<Key>)

  /** What load_inventory has checked; `keys` are the sixteen cost keys, in their fixed order. */
  predicate InventoryOk(inventory: seq<Scenario>, keys: seq<Key>) {
    && inventory != [] && Distinct(keys)
    && (forall i, j :: 0 <= i < j < |inventory| ==> inventory[i].key != inventory[j].key)
    && (forall i :: 0 <= i < |inventory| ==> ScenarioOk(inventory[i], keys))
  }

  predicate ScenarioOk(s: Scenario, keys: seq<Key>) {
    && (forall i :: 0 <= i < |s.sources| ==> s.sources[i].0 in keys)
    && (forall i, j :: 0 <= i < j < |s.sources| ==> s.sources[i].0 != s.sources[j].0)
    && (forall k :: k in s.required ==> k in keys)
  }

  type Costs = map<Key, Json>

  datatype Child = Child(document: Document, observed: Option<Costs>)

  /** A finite, non-negative number. */
  predicate CostOk(v: Json) { IsFinite(v) && Num(v) >= 0.0 }

  /** What load_observation has checked: every key, each null or a non-negative number. */
  predicate ObservationOk(child: Child, keys: seq<Key>) {
    child.observed.Some? ==>
      && (forall k :: k in keys ==> k in child.observed.value)
      && forall k :: k in child.observed.value ==>
           child.observed.value[k].Null? || CostOk(child.observed.value[k])
  }

  // --- Merging costs ---------------------------------------------------------------------------

  /** extract_scaled; None when it raises. */
  function ExtractScaled(document: Document, source: Source): Option<Json> {
    if source.path !in document then None
    else
      var value := document[source.path];
      match source.scale
      case None => Some(value)
      case Some(scale) =>
        if value.Null? then Some(Null) else if IsFinite(value) then Some(Float(Num(value) * scale)) else None
  }

  predicate HasSource(s: Scenario, key: Key) { exists i :: 0 <= i < |s.sources| && s.sources[i].0 == key }

  function SourceOf(s: Scenario, key: Key): Source
    requires HasSource(s, key)
  {
    SourceIn(s.sources, key)
  }

  function SourceIn(sources: seq<(Key, Source)>, key: Key): Source
    requires exists i :: 0 <= i < |sources| && sources[i].0 == key
  {
    if sources[0].0 == key then sources[0].1 else SourceIn(sources[1..], key)
  }

  /** The benchmark's own figure for a key: null without a source, None when extraction raises. */
  function RawCost(child: Child, s: Scenario, key: Key): Option<Json> {
    if HasSource(s, key) then ExtractScaled(child.document, SourceOf(s, key)) else Some(Null)
  }

  predicate Observes(child: Child, key: Key) {
    child.observed.Some? && key in child.observed.value && !child.observed.value[key].Null?
  }

  /** The observer wins where it reports; a disagreement with the benchmark raises. */
  function MergedCost(child: Child, s: Scenario, key: Key): Option<Json> {
    var raw := RawCost(child, s, key);
    if raw.None? then None
    else if !Observes(child, key) then raw
    else if raw.value.Null? || PyEq(raw.value, child.observed.value[key]) then Some(child.observed.value[key])
    else None
  }

  predicate Mergeable(child: Child, s: Scenario, keys: seq<Key>) {
    forall k :: k in keys ==> MergedCost(child, s, k).Some?
  }

  ghost predicate IsMerge(costs: Costs, child: Child, s: Scenario, keys: seq<Key>) {
    && (forall k :: k in costs <==> k in keys)
    && forall k :: k in costs ==> MergedCost(child, s, k) == Some(costs[k])
  }

  lemma MergeMeansMergeable(costs: Costs, child: Child, s: Scenario, keys: seq<Key>)
    requires IsMerge(costs, child, s, keys)
    ensures Mergeable(child, s, keys)
  {
  }

  lemma {:induction false} SourceAt(sources: seq<(Key, Source)>, i: nat)
    requires i < |sources|
    requires forall a, b :: 0 <= a < b < |sources| ==> sources[a].0 != sources[b].0
    ensures SourceIn(sources, sources[i].0) == sources[i].1
  {
    if i > 0 { SourceAt(sources[1..], i - 1); }
  }

  /** The loop over the configured sources. */
  method ExtractCosts(child: Child, s: Scenario, keys: seq<Key>) returns (values: Option<Costs>)
    requires ScenarioOk(s, keys)
    ensures values.None? ==> exists k :: k in keys && RawCost(child, s, k).None?
    ensures values.Some? ==>
              && (forall k :: k in values.value <==> k in keys)
              && forall k :: k in values.value ==> RawCost(child, s, k) == Some(values.value[k])
  {
    var costs: Costs := map k | k in keys :: Null;
    for i := 0 to |s.sources|
      invariant forall k :: k in costs <==> k in keys
      invariant forall j :: 0 <= j < i ==> RawCost(child, s, s.sources[j].0) == Some(costs[s.sources[j].0])
      invariant forall k :: k in costs && (forall j :: 0 <= j < i ==> s.sources[j].0 != k) ==> costs[k] == Null
    {
      var (key, source) := s.sources[i];
      SourceAt(s.sources, i);
      var extracted := ExtractScaled(child.document, source);
      if extracted.None? { return None; }
      costs := costs[key := extracted.value];
    }
    forall k | k in costs ensures RawCost(child, s, k) == Some(costs[k]) {
      if HasSource(s, k) { var j :| 0 <= j < |s.sources| && s.sources[j].0 == k; }
    }
    values := Some(costs);
  }

  /** merge_costs: the benchmark's figures, then the loop over the observer's. */
  method MergeCosts(child: Child, s: Scenario, keys: seq<Key>) returns (costs: Option<Costs>)
    requires ScenarioOk(s, keys) && Distinct(keys) && ObservationOk(child, keys)
    ensures costs.Some? <==> Mergeable(child, s, keys)
    ensures costs.Some? ==> IsMerge(costs.value, child, s, keys)
  {
    var extracted := ExtractCosts(child, s, keys);
    if extracted.None? { return None; }
    var values := extracted.value;
    if child.observed.None? { return Some(values); }
    for i := 0 to |keys|
      invariant forall k :: k in values <==> k in keys
      invariant forall j :: 0 <= j < i ==> MergedCost(child, s, keys[j]) == Some(values[keys[j]])
      invariant forall j :: i <= j < |keys| ==> values[keys[j]] == extracted.value[keys[j]]
    {
      var key := keys[i];
      var observed := child.observed.value[key];
      if observed.Null? { continue; }
      if !values[key].Null? && !PyEq(values[key], observed) { return None; }
      values := values[key := observed];
    }
    costs := Some(values);
  }
}
