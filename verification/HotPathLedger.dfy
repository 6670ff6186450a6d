/**
 The hot-path cost ledger: the runner that samples every scenario round-robin and writes a manifest,
 and the independent validator that re-derives everything in it.
 */
module HotPathLedger {
  import opened HotPathCosts
  import opened PythonValues
  import opened PythonText
  import opened Wrappers

  // --- The ledger ------------------------------------------------------------------------------

  datatype EvidenceClass = Development | FixedLab

  /** The run's identity; `texts` are the free-text identity and environment fields. */
  datatype Arguments = Arguments(evidence: EvidenceClass, samples: nat, cleanTree: bool, nativeRunner: bool,
                                 wsl: bool, release: bool, observer: bool, texts: seq<string>)

  datatype Sample = Sample(ordinal: nat, child: Child, costs: Costs, unavailable: map<Key, string>)
  datatype Record = Record(key: string, required: seq<Key>, samples: seq<Sample>)
  datatype Missing = Missing(scenario: string, ordinal: nat, cost: Key)
  datatype Manifest = Manifest(ok: bool, eligible: bool, arguments: Arguments, missing: seq<Missing>,
                               scenarios: seq<Record>)

  function NullReasons(costs: Costs): map<Key, string> { map k | k in costs && costs[k].Null? :: REASON }

  function MissingCosts(key: string, ordinal: nat, required: seq<Key>, costs: Costs): seq<Missing> {
    if required == [] then []
    else
      var last := required[|required| - 1];
      MissingCosts(key, ordinal, required[..|required| - 1], costs)
      + (if last in costs && costs[last].Null? then [Missing(key, ordinal, last)] else [])
  }

  function MissingInSamples(key: string, required: seq<Key>, samples: seq<Sample>): seq<Missing> {
    if samples == [] then []
    else
      var last := samples[|samples| - 1];
      MissingInSamples(key, required, samples[..|samples| - 1]) + MissingCosts(key, last.ordinal, required, last.costs)
  }

  /** Every required cost that is null: scenarios in order, samples in order, costs in order. */
  function MissingIn(records: seq<Record>): seq<Missing> {
    if records == [] then []
    else
      var last := records[|records| - 1];
      MissingIn(records[..|records| - 1]) + MissingInSamples(last.key, last.required, last.samples)
  }

  predicate FixedEnvironment(a: Arguments) {
    a.evidence.FixedLab? && a.samples >= 10 && a.cleanTree && a.nativeRunner && !a.wsl && a.release && a.observer
  }

  /** The loop over one sample's required costs. */
  method ListMissingCosts(record: Record, sample: Sample) returns (missing: seq<Missing>)
    ensures missing == MissingCosts(record.key, sample.ordinal, record.required, sample.costs)
  {
    missing := [];
    for c := 0 to |record.required|
      invariant missing == MissingCosts(record.key, sample.ordinal, record.required[..c], sample.costs)
    {
      var cost := record.required[c];
      assert record.required[..c + 1][..c] == record.required[..c];
      if cost in sample.costs && sample.costs[cost].Null? {
        missing := missing + [Missing(record.key, sample.ordinal, cost)];
      }
    }
    assert record.required[..|record.required|] == record.required;
  }

  lemma NextListed(key: string, required: seq<Key>, samples: seq<Sample>, j: nat)
    requires j < |samples|
    ensures MissingInSamples(key, required, samples[..j + 1]) ==
              MissingInSamples(key, required, samples[..j])
              + MissingCosts(key, samples[j].ordinal, required, samples[j].costs)
  {
    assert samples[..j + 1][..j] == samples[..j];
  }

  /** The loop over one record's samples. */
  method ListMissingOf(record: Record) returns (missing: seq<Missing>)
    ensures missing == MissingInSamples(record.key, record.required, record.samples)
  {
    missing := [];
    for j := 0 to |record.samples|
      invariant missing == MissingInSamples(record.key, record.required, record.samples[..j])
    {
      var more := ListMissingCosts(record, record.samples[j]);
      NextListed(record.key, record.required, record.samples, j);
      missing := missing + more;
    }
    assert record.samples[..|record.samples|] == record.samples;
  }

  /** The runner's listing. */
  method ListMissing(records: seq<Record>) returns (missing: seq<Missing>)
    ensures missing == MissingIn(records)
  {
    missing := [];
    for i := 0 to |records|
      invariant missing == MissingIn(records[..i])
    {
      assert records[..i + 1][..i] == records[..i];
      var some := ListMissingOf(records[i]);
      missing := missing + some;
    }
    assert records[..|records|] == records;
  }

  predicate Complete(costs: Costs, required: seq<Key>) {
    forall c :: 0 <= c < |required| ==> !(required[c] in costs && costs[required[c]].Null?)
  }

  lemma {:induction false} NoneMissingInCosts(key: string, ordinal: nat, required: seq<Key>, costs: Costs)
    ensures MissingCosts(key, ordinal, required, costs) == [] <==> Complete(costs, required)
  {
    if required != [] {
      var rest := required[..|required| - 1];
      NoneMissingInCosts(key, ordinal, rest, costs);
      assert Complete(costs, required) <==>
        Complete(costs, rest) && !(required[|rest|] in costs && costs[required[|rest|]].Null?) by {
        assert forall c :: 0 <= c < |rest| ==> rest[c] == required[c];
      }
    }
  }

  predicate SamplesComplete(samples: seq<Sample>, required: seq<Key>) {
    forall j :: 0 <= j < |samples| ==> Complete(samples[j].costs, required)
  }

  lemma LastSampleComplete(samples: seq<Sample>, required: seq<Key>)
    requires samples != []
    ensures var n := |samples| - 1;
            SamplesComplete(samples, required) <==>
              SamplesComplete(samples[..n], required) && Complete(samples[n].costs, required)
  {
    var n := |samples| - 1;
    assert forall j :: 0 <= j < n ==> samples[..n][j] == samples[j];
    if SamplesComplete(samples[..n], required) && Complete(samples[n].costs, required) {
      forall j | 0 <= j < |samples| ensures Complete(samples[j].costs, required) {
        if j < n { assert samples[..n][j] == samples[j]; }
      }
    }
  }

  lemma {:induction false} NoneMissingInSamples(key: string, required: seq<Key>, samples: seq<Sample>)
    ensures MissingInSamples(key, required, samples) == [] <==> SamplesComplete(samples, required)
  {
    if samples != [] {
      var rest := samples[..|samples| - 1];
      NoneMissingInSamples(key, required, rest);
      NoneMissingInCosts(key, samples[|rest|].ordinal, required, samples[|rest|].costs);
      LastSampleComplete(samples, required);
    }
  }

  predicate AllComplete(records: seq<Record>) {
    forall i :: 0 <= i < |records| ==> SamplesComplete(records[i].samples, records[i].required)
  }

  /** The listing is empty exactly when no sample of any scenario has a null required cost. */
  lemma {:induction false} NoneMissing(records: seq<Record>)
    ensures MissingIn(records) == [] <==> AllComplete(records)
  {
    if records != [] {
      var rest, last := records[..|records| - 1], records[|records| - 1];
      NoneMissing(rest);
      NoneMissingInSamples(last.key, last.required, last.samples);
      assert AllComplete(records) <==> AllComplete(rest) && SamplesComplete(last.samples, last.required) by {
        assert forall i :: 0 <= i < |rest| ==> rest[i] == records[i];
      }
    }
  }

  // --- The runner ------------------------------------------------------------------------------

  ghost predicate SampleWritten(sample: Sample, j: nat, child: Child, s: Scenario, keys: seq<Key>) {
    && sample.ordinal == j + 1 && sample.child == child
    && IsMerge(sample.costs, child, s, keys) && sample.unavailable == NullReasons(sample.costs)
  }

  /** One round's children: one per scenario, observed exactly if an observer is configured. */
  predicate RoundOk(round: seq<Child>, inventory: seq<Scenario>, keys: seq<Key>, observer: bool) {
    && |round| == |inventory|
    && forall i :: 0 <= i < |round| ==> ObservationOk(round[i], keys) && round[i].observed.Some? == observer
  }

  predicate ChildrenOk(a: Arguments, inventory: seq<Scenario>, keys: seq<Key>, children: seq<seq<Child>>) {
    |children| == a.samples && forall j :: 0 <= j < |children| ==> RoundOk(children[j], inventory, keys, a.observer)
  }

  predicate RoundMergeable(round: seq<Child>, inventory: seq<Scenario>, keys: seq<Key>) {
    |round| == |inventory| && forall i :: 0 <= i < |round| ==> Mergeable(round[i], inventory[i], keys)
  }

  /** `samples` are scenario i's samples of the given rounds. */
  ghost predicate Sampled(samples: seq<Sample>, i: nat, s: Scenario, keys: seq<Key>, rounds: seq<seq<Child>>) {
    && |samples| == |rounds|
    && forall j :: 0 <= j < |rounds| ==> i < |rounds[j]| && SampleWritten(samples[j], j, rounds[j][i], s, keys)
  }

  /** Part-way through a round: the first t scenarios have sampled `after`, the others `before`. */
  ghost predicate Owned(owned: map<string, seq<Sample>>, t: nat, inventory: seq<Scenario>, keys: seq<Key>,
                        before: seq<seq<Child>>, after: seq<seq<Child>>) {
    forall i :: 0 <= i < |inventory| ==>
      && inventory[i].key in owned
      && Sampled(owned[inventory[i].key], i, inventory[i], keys, if i < t then after else before)
  }

  lemma SampleAppended(samples: seq<Sample>, sample: Sample, i: nat, s: Scenario, keys: seq<Key>,
                       before: seq<seq<Child>>, round: seq<Child>)
    requires Sampled(samples, i, s, keys, before)
    requires i < |round| && SampleWritten(sample, |before|, round[i], s, keys)
    ensures Sampled(samples + [sample], i, s, keys, before + [round])
  {
    var rounds, all := before + [round], samples + [sample];
    forall j | 0 <= j < |rounds| ensures i < |rounds[j]| && SampleWritten(all[j], j, rounds[j][i], s, keys) {
      if j < |before| { assert rounds[j] == before[j] && all[j] == samples[j]; }
    }
  }

  /** Appending to one scenario's samples leaves every other scenario's alone. */
  lemma TurnTaken(owned: map<string, seq<Sample>>, t: nat, sample: Sample, inventory: seq<Scenario>, keys: seq<Key>,
                  before: seq<seq<Child>>, round: seq<Child>)
    requires InventoryOk(inventory, keys) && t < |inventory| == |round|
    requires Owned(owned, t, inventory, keys, before, before + [round])
    requires SampleWritten(sample, |before|, round[t], inventory[t], keys)
    ensures var key := inventory[t].key;
            key in owned && Owned(owned[key := owned[key] + [sample]], t + 1, inventory, keys, before, before + [round])
  {
    var key := inventory[t].key;
    SampleAppended(owned[key], sample, t, inventory[t], keys, before, round);
    var next := owned[key := owned[key] + [sample]];
    forall i | 0 <= i < |inventory|
      ensures inventory[i].key in next
      ensures Sampled(next[inventory[i].key], i, inventory[i], keys, if i < t + 1 then before + [round] else before)
    {
      if i < t { assert inventory[i].key != key; } else if t < i { assert inventory[t].key != inventory[i].key; }
    }
  }

  method TakeSample(child: Child, s: Scenario, keys: seq<Key>, j: nat) returns (sample: Option<Sample>)
    requires ScenarioOk(s, keys) && Distinct(keys) && ObservationOk(child, keys)
    ensures sample.Some? <==> Mergeable(child, s, keys)
    ensures sample.Some? ==> SampleWritten(sample.value, j, child, s, keys)
  {
    var costs := MergeCosts(child, s, keys);
    if costs.None? { return None; }
    sample := Some(Sample(j + 1, child, costs.value, NullReasons(costs.value)));
  }

  /** Scenario t's turn in a round: its sample goes to the end of its own record. */
  method TakeTurn(round: seq<Child>, t: nat, j: nat, inventory: seq<Scenario>, keys: seq<Key>,
                  owned: map<string, seq<Sample>>, ghost before: seq<seq<Child>>)
    returns (next: Option<map<string, seq<Sample>>>)
    requires InventoryOk(inventory, keys) && t < |inventory| == |round| && j == |before|
    requires ObservationOk(round[t], keys) && Owned(owned, t, inventory, keys, before, before + [round])
    ensures next.Some? <==> Mergeable(round[t], inventory[t], keys)
    ensures next.Some? ==> Owned(next.value, t + 1, inventory, keys, before, before + [round])
  {
    var sample := TakeSample(round[t], inventory[t], keys, j);
    if sample.None? { return None; }
    TurnTaken(owned, t, sample.value, inventory, keys, before, round);
    next := Some(owned[inventory[t].key := owned[inventory[t].key] + [sample.value]]);
  }

  lemma RoundEnds(owned: map<string, seq<Sample>>, inventory: seq<Scenario>, keys: seq<Key>,
                  before: seq<seq<Child>>, after: seq<seq<Child>>)
    requires Owned(owned, |inventory|, inventory, keys, before, after)
    ensures Owned(owned, 0, inventory, keys, after, after)
  {
  }

  /** One round: every scenario once, each sample appended to its own scenario's record. */
  method SampleRound(round: seq<Child>, ghost before: seq<seq<Child>>, j: nat, observer: bool,
                     inventory: seq<Scenario>, keys: seq<Key>, owned: map<string, seq<Sample>>)
    returns (next: Option<map<string, seq<Sample>>>)
    requires InventoryOk(inventory, keys) && RoundOk(round, inventory, keys, observer) && j == |before|
    requires Owned(owned, 0, inventory, keys, before, before + [round])
    ensures next.None? ==> !RoundMergeable(round, inventory, keys)
    ensures next.Some? ==> Owned(next.value, 0, inventory, keys, before + [round], before + [round])
  {
    var samples := owned;
    ghost var after := before + [round];
    for t := 0 to |inventory|
      invariant Owned(samples, t, inventory, keys, before, after)
    {
      var turn := TakeTurn(round, t, j, inventory, keys, samples, before);
      if turn.None? { return None; }
      samples := turn.value;
    }
    RoundEnds(samples, inventory, keys, before, after);
    next := Some(samples);
  }

  lemma RoundStarts(owned: map<string, seq<Sample>>, inventory: seq<Scenario>, keys: seq<Key>,
                    before: seq<seq<Child>>, after: seq<seq<Child>>)
    requires Owned(owned, 0, inventory, keys, before, before)
    ensures Owned(owned, 0, inventory, keys, before, after)
  {
  }

  lemma OwnedMeansMergeable(owned: map<string, seq<Sample>>, a: Arguments, inventory: seq<Scenario>, keys: seq<Key>,
                            children: seq<seq<Child>>)
    requires ChildrenOk(a, inventory, keys, children) && Owned(owned, 0, inventory, keys, children, children)
    ensures forall j :: 0 <= j < |children| ==> RoundMergeable(children[j], inventory, keys)
  {
    forall j, i | 0 <= j < |children| && 0 <= i < |inventory|
      ensures Mergeable(children[j][i], inventory[i], keys)
    {
      assert Sampled(owned[inventory[i].key], i, inventory[i], keys, children);
      MergeMeansMergeable(owned[inventory[i].key][j].costs, children[j][i], inventory[i], keys);
    }
  }

  method EmptyRecords(inventory: seq<Scenario>, keys: seq<Key>) returns (owned: map<string, seq<Sample>>)
    ensures Owned(owned, 0, inventory, keys, [], [])
  {
    owned := map[];
    for i := 0 to |inventory|
      invariant forall h :: 0 <= h < i ==> inventory[h].key in owned
      invariant forall k :: k in owned ==> owned[k] == []
    {
      owned := owned[inventory[i].key := []];
    }
  }

  /** The rounds; None when some merge raises. */
  method SampleRoundRobin(a: Arguments, inventory: seq<Scenario>, keys: seq<Key>, children: seq<seq<Child>>)
    returns (owned: Option<map<string, seq<Sample>>>)
    requires InventoryOk(inventory, keys) && ChildrenOk(a, inventory, keys, children)
    ensures owned.Some? <==> forall j :: 0 <= j < |children| ==> RoundMergeable(children[j], inventory, keys)
    ensures owned.Some? ==> Owned(owned.value, 0, inventory, keys, children, children)
  {
    var samples := EmptyRecords(inventory, keys);
    for j := 0 to a.samples
      invariant Owned(samples, 0, inventory, keys, children[..j], children[..j])
    {
      assert children[..j] + [children[j]] == children[..j + 1];
      RoundStarts(samples, inventory, keys, children[..j], children[..j + 1]);
      var next := SampleRound(children[j], children[..j], j, a.observer, inventory, keys, samples);
      if next.None? { return None; }
      samples := next.value;
    }
    assert children[..a.samples] == children;
    OwnedMeansMergeable(samples, a, inventory, keys, children);
    owned := Some(samples);
  }

  predicate RequiredPresent(child: Child, s: Scenario) {
    forall c :: 0 <= c < |s.required| ==> MergedCost(child, s, s.required[c]) != Some(Null)
  }

  predicate WarmedUp(warmups: seq<Child>, inventory: seq<Scenario>, keys: seq<Key>) {
    && |warmups| == |inventory|
    && forall i :: 0 <= i < |warmups| ==>
         Mergeable(warmups[i], inventory[i], keys) && RequiredPresent(warmups[i], inventory[i])
  }

  lemma CompleteMeansPresent(costs: Costs, child: Child, s: Scenario, keys: seq<Key>)
    requires ScenarioOk(s, keys) && IsMerge(costs, child, s, keys)
    ensures Complete(costs, s.required) <==> RequiredPresent(child, s)
  {
    forall c | 0 <= c < |s.required|
      ensures s.required[c] in costs && MergedCost(child, s, s.required[c]) == Some(costs[s.required[c]])
    {
      assert s.required[c] in keys;
    }
  }

  /** Fixed-lab warm-up: every scenario must already deliver all its required costs. */
  method WarmUp(warmups: seq<Child>, observer: bool, inventory: seq<Scenario>, keys: seq<Key>) returns (ok: bool)
    requires InventoryOk(inventory, keys) && RoundOk(warmups, inventory, keys, observer)
    ensures ok <==> WarmedUp(warmups, inventory, keys)
  {
    for i := 0 to |inventory|
      invariant forall h :: 0 <= h < i ==>
        Mergeable(warmups[h], inventory[h], keys) && RequiredPresent(warmups[h], inventory[h])
    {
      var costs := MergeCosts(warmups[i], inventory[i], keys);
      if costs.None? { return false; }
      CompleteMeansPresent(costs.value, warmups[i], inventory[i], keys);
      if !Complete(costs.value, inventory[i].required) { return false; }
    }
    ok := true;
  }

  predicate Preflight(a: Arguments) { a.samples >= 1 && (a.evidence.FixedLab? ==> FixedEnvironment(a)) }

  ghost predicate RecordWritten(record: Record, i: nat, s: Scenario, keys: seq<Key>, children: seq<seq<Child>>) {
    record.key == s.key && record.required == s.required && Sampled(record.samples, i, s, keys, children)
  }

  ghost predicate RecordsWritten(records: seq<Record>, inventory: seq<Scenario>, keys: seq<Key>,
                                 children: seq<seq<Child>>) {
    && |records| <= |inventory|
    && forall i :: 0 <= i < |records| ==> RecordWritten(records[i], i, inventory[i], keys, children)
  }

  /** The manifest run_suite writes. */
  ghost predicate Wrote(m: Manifest, a: Arguments, inventory: seq<Scenario>, keys: seq<Key>,
                        children: seq<seq<Child>>) {
    && m.arguments == a && a.samples >= 1
    && |m.scenarios| == |inventory| && RecordsWritten(m.scenarios, inventory, keys, children)
    && m.missing == MissingIn(m.scenarios)
    && m.eligible == (FixedEnvironment(a) && m.missing == [])
    && m.ok == (a.evidence.Development? || m.eligible)
  }

  method CollectRecords(owned: map<string, seq<Sample>>, inventory: seq<Scenario>, keys: seq<Key>,
                        ghost children: seq<seq<Child>>) returns (records: seq<Record>)
    requires Owned(owned, 0, inventory, keys, children, children)
    ensures |records| == |inventory| && RecordsWritten(records, inventory, keys, children)
  {
    records := [];
    for i := 0 to |inventory|
      invariant |records| == i && RecordsWritten(records, inventory, keys, children)
    {
      records := records + [Record(inventory[i].key, inventory[i].required, owned[inventory[i].key])];
    }
  }

  /** Everything a run needs for its manifest to be written at all. */
  predicate Completes(a: Arguments, inventory: seq<Scenario>, keys: seq<Key>, warmups: seq<Child>,
                      children: seq<seq<Child>>) {
    && Preflight(a)
    && (a.evidence.FixedLab? ==> WarmedUp(warmups, inventory, keys))
    && forall j :: 0 <= j < |children| ==> RoundMergeable(children[j], inventory, keys)
  }

  /** run_suite. An incomplete fixed-lab run writes its manifest and then raises. */
  method RunSuite(a: Arguments, inventory: seq<Scenario>, keys: seq<Key>, warmups: seq<Child>,
                  children: seq<seq<Child>>) returns (manifest: Option<Manifest>, raised: bool)
    requires InventoryOk(inventory, keys)
    requires RoundOk(warmups, inventory, keys, a.observer) && ChildrenOk(a, inventory, keys, children)
    ensures manifest.Some? <==> Completes(a, inventory, keys, warmups, children)
    ensures manifest.Some? ==> Wrote(manifest.value, a, inventory, keys, children)
    ensures raised <==> manifest.None? || (a.evidence.FixedLab? && manifest.value.missing != [])
  {
    if !Preflight(a) { return None, true; }
    if a.evidence.FixedLab? {
      var warm := WarmUp(warmups, a.observer, inventory, keys);
      if !warm { return None, true; }
    }
    var owned := SampleRoundRobin(a, inventory, keys, children);
    if owned.None? { return None, true; }
    var records := CollectRecords(owned.value, inventory, keys, children);
    var missing := ListMissing(records);
    var eligible := FixedEnvironment(a) && missing == [];
    manifest := Some(Manifest(a.evidence.Development? || eligible, eligible, a, missing, records));
    raised := a.evidence.FixedLab? && !eligible;
  }

  // --- The validator ---------------------------------------------------------------------------

  /** A null cost carries a reason and no other cost does; a reported cost is a non-negative number. */
  predicate FieldOk(sample: Sample, k: Key) {
    && k in sample.costs
    && (k in sample.unavailable <==> sample.costs[k].Null?)
    && if sample.costs[k].Null? then NonBlank(sample.unavailable[k]) else CostOk(sample.costs[k])
  }

  predicate FieldsOk(sample: Sample, keys: seq<Key>) {
    && (forall k :: k in sample.unavailable ==> k in keys)
    && forall i :: 0 <= i < |keys| ==> FieldOk(sample, keys[i])
  }

  /** costs == rebuilt_costs, as Python compares dictionaries. */
  ghost predicate Rebuilds(costs: Costs, child: Child, s: Scenario, keys: seq<Key>) {
    && (forall k :: k in costs <==> k in keys)
    && forall k :: k in costs ==>
         MergedCost(child, s, k).Some? && PyEq(costs[k], MergedCost(child, s, k).value)
  }

  ghost predicate SampleAccepted(sample: Sample, j: nat, s: Scenario, keys: seq<Key>, observer: bool) {
    && sample.ordinal == j + 1
    && sample.child.observed.Some? == observer && ObservationOk(sample.child, keys)
    && Rebuilds(sample.costs, sample.child, s, keys)
    && FieldsOk(sample, keys)
  }

  ghost predicate SamplesAccepted(samples: seq<Sample>, n: nat, s: Scenario, keys: seq<Key>, observer: bool)
    requires n <= |samples|
  {
    forall j {:trigger SampleAccepted(samples[j], j, s, keys, observer)} :: 0 <= j < n ==>
      SampleAccepted(samples[j], j, s, keys, observer)
  }

  ghost predicate RecordAccepted(record: Record, s: Scenario, keys: seq<Key>, n: nat, observer: bool) {
    && record.key == s.key && record.required == s.required && |record.samples| == n
    && SamplesAccepted(record.samples, n, s, keys, observer)
  }

  predicate TextsOk(texts: seq<string>) { forall i :: 0 <= i < |texts| ==> NonBlank(texts[i]) }

  /** The first n records are accepted. */
  ghost predicate AcceptedUpTo(records: seq<Record>, n: nat, inventory: seq<Scenario>, keys: seq<Key>, a: Arguments)
    requires n <= |records| == |inventory|
  {
    forall i {:trigger RecordAccepted(records[i], inventory[i], keys, a.samples, a.observer)} :: 0 <= i < n ==>
      RecordAccepted(records[i], inventory[i], keys, a.samples, a.observer)
  }

  ghost predicate RecordsAccepted(m: Manifest, inventory: seq<Scenario>, keys: seq<Key>) {
    |m.scenarios| == |inventory| && AcceptedUpTo(m.scenarios, |inventory|, inventory, keys, m.arguments)
  }

  /** The missing costs the validator notes for a scenario, numbering the samples itself and going by
      the inventory's required costs. */
  function Noted(s: Scenario, samples: seq<Sample>): seq<Missing> {
    if samples == [] then []
    else
      var n := |samples| - 1;
      Noted(s, samples[..n]) + MissingCosts(s.key, n + 1, s.required, samples[n].costs)
  }

  function NotedIn(inventory: seq<Scenario>, records: seq<Record>): seq<Missing>
    requires |records| <= |inventory|
  {
    if records == [] then []
    else
      var n := |records| - 1;
      NotedIn(inventory, records[..n]) + Noted(inventory[n], records[n].samples)
  }

  predicate SummaryOk(m: Manifest, inventory: seq<Scenario>, requireFixedLab: bool)
    requires |m.scenarios| == |inventory|
  {
    && m.missing == NotedIn(inventory, m.scenarios)
    && m.eligible == (FixedEnvironment(m.arguments) && m.missing == [])
    && m.ok == (m.arguments.evidence.Development? || m.eligible)
    && (requireFixedLab ==> m.eligible && m.ok)
  }

  /** What the validator demands of a manifest. */
  ghost predicate Accepts(m: Manifest, inventory: seq<Scenario>, keys: seq<Key>, requireFixedLab: bool) {
    && TextsOk(m.arguments.texts) && m.arguments.samples > 0
    && RecordsAccepted(m, inventory, keys) && SummaryOk(m, inventory, requireFixedLab)
  }

  /** The record belongs to the scenario and its samples are numbered from one. */
  predicate Numbered(record: Record, s: Scenario) {
    && record.key == s.key && record.required == s.required
    && forall j :: 0 <= j < |record.samples| ==> record.samples[j].ordinal == j + 1
  }

  lemma {:induction false} NotedIsListed(s: Scenario, samples: seq<Sample>)
    requires forall j :: 0 <= j < |samples| ==> samples[j].ordinal == j + 1
    ensures Noted(s, samples) == MissingInSamples(s.key, s.required, samples)
  {
    if samples != [] {
      var n := |samples| - 1;
      assert samples[n].ordinal == n + 1;
      NotedIsListed(s, samples[..n]);
    }
  }

  /** On records that match the inventory, the validator notes what the runner lists. */
  lemma {:induction false} ListingsAgree(inventory: seq<Scenario>, records: seq<Record>)
    requires |records| <= |inventory| && forall i :: 0 <= i < |records| ==> Numbered(records[i], inventory[i])
    ensures NotedIn(inventory, records) == MissingIn(records)
  {
    if records != [] {
      var n := |records| - 1;
      assert Numbered(records[n], inventory[n]);
      assert forall i :: 0 <= i < n ==> records[..n][i] == records[i];
      ListingsAgree(inventory, records[..n]);
      NotedIsListed(inventory[n], records[n].samples);
    }
  }

  /** So an accepted manifest lists exactly the missing costs of its own records, in their order. */
  lemma AcceptedListIsExact(m: Manifest, inventory: seq<Scenario>, keys: seq<Key>, requireFixedLab: bool)
    requires Accepts(m, inventory, keys, requireFixedLab)
    ensures m.missing == MissingIn(m.scenarios)
  {
    forall i | 0 <= i < |inventory| ensures Numbered(m.scenarios[i], inventory[i]) {
      var record := m.scenarios[i];
      assert RecordAccepted(record, inventory[i], keys, m.arguments.samples, m.arguments.observer);
      forall j | 0 <= j < |record.samples| ensures record.samples[j].ordinal == j + 1 {
        assert SampleAccepted(record.samples[j], j, inventory[i], keys, m.arguments.observer);
      }
    }
    ListingsAgree(inventory, m.scenarios);
  }

  predicate SameCosts(costs: Costs, rebuilt: Costs) {
    && (forall k :: k in costs ==> k in rebuilt)
    && forall k :: k in rebuilt ==> k in costs && PyEq(costs[k], rebuilt[k])
  }

  lemma SameMeansRebuilds(costs: Costs, rebuilt: Costs, child: Child, s: Scenario, keys: seq<Key>)
    requires IsMerge(rebuilt, child, s, keys)
    ensures SameCosts(costs, rebuilt) <==> Rebuilds(costs, child, s, keys)
  {
    if Rebuilds(costs, child, s, keys) {
      forall k | k in rebuilt ensures k in costs && PyEq(costs[k], rebuilt[k]) { assert k in keys; }
    }
    if SameCosts(costs, rebuilt) {
      forall k | k in costs
        ensures MergedCost(child, s, k).Some? && PyEq(costs[k], MergedCost(child, s, k).value)
      {
        assert k in rebuilt;
      }
    }
  }

  lemma NotMergeable(costs: Costs, child: Child, s: Scenario, keys: seq<Key>)
    requires !Mergeable(child, s, keys)
    ensures !Rebuilds(costs, child, s, keys)
  {
  }

  method CheckSample(sample: Sample, j: nat, s: Scenario, keys: seq<Key>, observer: bool) returns (ok: bool)
    requires ScenarioOk(s, keys) && Distinct(keys)
    ensures ok <==> SampleAccepted(sample, j, s, keys, observer)
  {
    if sample.ordinal != j + 1 || sample.child.observed.Some? != observer { return false; }
    if !ObservationOk(sample.child, keys) { return false; }
    var rebuilt := MergeCosts(sample.child, s, keys);
    if rebuilt.None? {
      NotMergeable(sample.costs, sample.child, s, keys);
      return false;
    }
    SameMeansRebuilds(sample.costs, rebuilt.value, sample.child, s, keys);
    if !SameCosts(sample.costs, rebuilt.value) { return false; }
    ok := CheckFields(sample, keys);
  }

  method CheckFields(sample: Sample, keys: seq<Key>) returns (ok: bool)
    ensures ok <==> FieldsOk(sample, keys)
  {
    if exists k :: k in sample.unavailable && k !in keys { return false; }
    for i := 0 to |keys|
      invariant forall h :: 0 <= h < i ==> FieldOk(sample, keys[h])
    {
      if !FieldOk(sample, keys[i]) { return false; }
    }
    ok := true;
  }

  lemma NextNoted(s: Scenario, samples: seq<Sample>, j: nat)
    requires j < |samples|
    ensures Noted(s, samples[..j + 1]) ==
              Noted(s, samples[..j]) + MissingCosts(s.key, j + 1, s.required, samples[j].costs)
  {
    assert samples[..j + 1][..j] == samples[..j];
  }

  lemma NextNotedIn(inventory: seq<Scenario>, records: seq<Record>, i: nat)
    requires i < |records| <= |inventory|
    ensures NotedIn(inventory, records[..i + 1]) ==
              NotedIn(inventory, records[..i]) + Noted(inventory[i], records[i].samples)
  {
    assert records[..i + 1][..i] == records[..i];
  }

  /** The validator's own loop over the inventory's required costs. */
  method NoteMissing(s: Scenario, ordinal: nat, costs: Costs) returns (missing: seq<Missing>)
    ensures missing == MissingCosts(s.key, ordinal, s.required, costs)
  {
    missing := [];
    for c := 0 to |s.required|
      invariant missing == MissingCosts(s.key, ordinal, s.required[..c], costs)
    {
      assert s.required[..c + 1][..c] == s.required[..c];
      if s.required[c] in costs && costs[s.required[c]].Null? {
        missing := missing + [Missing(s.key, ordinal, s.required[c])];
      }
    }
    assert s.required[..|s.required|] == s.required;
  }

  /** The body of the sample loop: check sample j, then note its missing costs after the earlier ones. */
  method CheckAndNote(samples: seq<Sample>, j: nat, s: Scenario, keys: seq<Key>, observer: bool, noted: seq<Missing>)
    returns (ok: bool, missing: seq<Missing>)
    requires ScenarioOk(s, keys) && Distinct(keys) && j < |samples| && noted == Noted(s, samples[..j])
    requires SamplesAccepted(samples, j, s, keys, observer)
    ensures ok ==> SamplesAccepted(samples, j + 1, s, keys, observer) && missing == Noted(s, samples[..j + 1])
    ensures !ok ==> !SamplesAccepted(samples, |samples|, s, keys, observer)
  {
    missing := noted;
    ok := CheckSample(samples[j], j, s, keys, observer);
    if !ok { return; }
    var more := NoteMissing(s, j + 1, samples[j].costs);
    NextNoted(s, samples, j);
    missing := noted + more;
  }

  method CheckRecord(record: Record, s: Scenario, keys: seq<Key>, n: nat, observer: bool)
    returns (ok: bool, missing: seq<Missing>)
    requires ScenarioOk(s, keys) && Distinct(keys)
    ensures ok <==> RecordAccepted(record, s, keys, n, observer)
    ensures ok ==> missing == Noted(s, record.samples)
  {
    missing := [];
    if record.key != s.key || record.required != s.required || |record.samples| != n { return false, missing; }
    for j := 0 to n
      invariant SamplesAccepted(record.samples, j, s, keys, observer)
      invariant missing == Noted(s, record.samples[..j])
    {
      ok, missing := CheckAndNote(record.samples, j, s, keys, observer, missing);
      if !ok { return; }
    }
    assert record.samples[..n] == record.samples;
    ok := true;
  }

  /** The loop over the scenarios, which checks each record and collects the missing costs. */
  method CheckRecords(m: Manifest, inventory: seq<Scenario>, keys: seq<Key>)
    returns (ok: bool, missing: seq<Missing>)
    requires InventoryOk(inventory, keys)
    ensures ok <==> RecordsAccepted(m, inventory, keys)
    ensures ok ==> missing == NotedIn(inventory, m.scenarios)
  {
    missing := [];
    if |m.scenarios| != |inventory| { return false, missing; }
    for i := 0 to |inventory|
      invariant AcceptedUpTo(m.scenarios, i, inventory, keys, m.arguments)
      invariant missing == NotedIn(inventory, m.scenarios[..i])
    {
      var more;
      ok, more := CheckRecord(m.scenarios[i], inventory[i], keys, m.arguments.samples, m.arguments.observer);
      if !ok { return; }
      NextNotedIn(inventory, m.scenarios, i);
      missing := missing + more;
    }
    assert m.scenarios[..|inventory|] == m.scenarios;
    ok := true;
  }

  /** validate_manifest. */
  method ValidateManifest(m: Manifest, inventory: seq<Scenario>, keys: seq<Key>, requireFixedLab: bool)
    returns (ok: bool)
    requires InventoryOk(inventory, keys)
    ensures ok <==> Accepts(m, inventory, keys, requireFixedLab)
  {
    if !TextsOk(m.arguments.texts) || m.arguments.samples == 0 { return false; }
    var missing;
    ok, missing := CheckRecords(m, inventory, keys);
    if !ok { return; }
    var eligible := FixedEnvironment(m.arguments) && missing == [];
    ok := m.missing == missing && m.eligible == eligible
          && m.ok == (m.arguments.evidence.Development? || eligible) && (requireFixedLab ==> eligible && m.ok);
  }

  // --- What the validator says of what the runner wrote ----------------------------------------

  /** The observer reports the cost, or the benchmark's own figure is null or a non-negative number. */
  predicate Presentable(child: Child, s: Scenario, k: Key) {
    Observes(child, k) || (var raw := RawCost(child, s, k); raw.Some? && (raw.value.Null? || CostOk(raw.value)))
  }

  predicate ChildPresentable(child: Child, s: Scenario, keys: seq<Key>) {
    forall i :: 0 <= i < |keys| ==> Presentable(child, s, keys[i])
  }

  lemma ReasonIsGiven()
    ensures NonBlank(REASON)
  {
    assert REASON[0] == 'n';
  }

  lemma FieldVerdict(sample: Sample, child: Child, s: Scenario, k: Key, keys: seq<Key>)
    requires k in keys && ObservationOk(child, keys)
    requires IsMerge(sample.costs, child, s, keys) && sample.unavailable == NullReasons(sample.costs)
    ensures FieldOk(sample, k) <==> Presentable(child, s, k)
  {
    assert MergedCost(child, s, k) == Some(sample.costs[k]);
    ReasonIsGiven();
  }

  lemma SampleVerdict(sample: Sample, j: nat, child: Child, s: Scenario, keys: seq<Key>, observer: bool)
    requires SampleWritten(sample, j, child, s, keys)
    requires ObservationOk(child, keys) && child.observed.Some? == observer
    ensures SampleAccepted(sample, j, s, keys, observer) <==> ChildPresentable(child, s, keys)
  {
    forall i | 0 <= i < |keys| ensures FieldOk(sample, keys[i]) <==> Presentable(child, s, keys[i]) {
      FieldVerdict(sample, child, s, keys[i], keys);
    }
    assert Rebuilds(sample.costs, child, s, keys);
  }

  predicate AllPresentable(inventory: seq<Scenario>, keys: seq<Key>, children: seq<seq<Child>>) {
    forall j, i :: 0 <= j < |children| && 0 <= i < |children[j]| && i < |inventory| ==>
      ChildPresentable(children[j][i], inventory[i], keys)
  }

  lemma RecordVerdict(record: Record, i: nat, a: Arguments, inventory: seq<Scenario>, keys: seq<Key>,
                      children: seq<seq<Child>>)
    requires i < |inventory| && ChildrenOk(a, inventory, keys, children)
    requires RecordWritten(record, i, inventory[i], keys, children)
    ensures RecordAccepted(record, inventory[i], keys, a.samples, a.observer) <==>
              forall j :: 0 <= j < |children| ==>
                i < |children[j]| && ChildPresentable(children[j][i], inventory[i], keys)
  {
    forall j | 0 <= j < |children|
      ensures i < |children[j]|
      ensures SampleAccepted(record.samples[j], j, inventory[i], keys, a.observer) <==>
                ChildPresentable(children[j][i], inventory[i], keys)
    {
      assert RoundOk(children[j], inventory, keys, a.observer);
      SampleVerdict(record.samples[j], j, children[j][i], inventory[i], keys, a.observer);
    }
  }

  lemma RecordsVerdict(m: Manifest, a: Arguments, inventory: seq<Scenario>, keys: seq<Key>, children: seq<seq<Child>>)
    requires ChildrenOk(a, inventory, keys, children) && Wrote(m, a, inventory, keys, children)
    ensures RecordsAccepted(m, inventory, keys) <==> AllPresentable(inventory, keys, children)
  {
    forall i | 0 <= i < |inventory|
      ensures RecordAccepted(m.scenarios[i], inventory[i], keys, a.samples, a.observer) <==>
                forall j :: 0 <= j < |children| ==>
                  i < |children[j]| && ChildPresentable(children[j][i], inventory[i], keys)
    {
      RecordVerdict(m.scenarios[i], i, a, inventory, keys, children);
    }
  }

  /**
   A manifest the runner wrote is accepted exactly when its text fields are not blank and every cost
   the observer leaves open is null or a non-negative number in the benchmark's own document.
   */
  lemma LedgerVerdict(m: Manifest, a: Arguments, inventory: seq<Scenario>, keys: seq<Key>, children: seq<seq<Child>>)
    requires ChildrenOk(a, inventory, keys, children) && Wrote(m, a, inventory, keys, children)
    ensures Accepts(m, inventory, keys, false) <==> TextsOk(a.texts) && AllPresentable(inventory, keys, children)
    ensures Accepts(m, inventory, keys, true) <==> Accepts(m, inventory, keys, false) && m.eligible
  {
    RecordsVerdict(m, a, inventory, keys, children);
    forall i | 0 <= i < |inventory| ensures Numbered(m.scenarios[i], inventory[i]) {
      var record := m.scenarios[i];
      assert RecordWritten(record, i, inventory[i], keys, children);
      forall j | 0 <= j < |record.samples| ensures record.samples[j].ordinal == j + 1 {
        assert SampleWritten(record.samples[j], j, children[j][i], inventory[i], keys);
      }
    }
    ListingsAgree(inventory, m.scenarios);
  }

  predicate AllRequiredPresent(inventory: seq<Scenario>, children: seq<seq<Child>>) {
    forall j, i :: 0 <= j < |children| && 0 <= i < |children[j]| && i < |inventory| ==>
      RequiredPresent(children[j][i], inventory[i])
  }

  lemma RecordComplete(record: Record, i: nat, a: Arguments, inventory: seq<Scenario>, keys: seq<Key>,
                       children: seq<seq<Child>>)
    requires i < |inventory| && InventoryOk(inventory, keys) && ChildrenOk(a, inventory, keys, children)
    requires RecordWritten(record, i, inventory[i], keys, children)
    ensures SamplesComplete(record.samples, record.required) <==>
              forall j :: 0 <= j < |children| ==> i < |children[j]| && RequiredPresent(children[j][i], inventory[i])
  {
    forall j | 0 <= j < |children|
      ensures i < |children[j]|
      ensures Complete(record.samples[j].costs, record.required) <==> RequiredPresent(children[j][i], inventory[i])
    {
      assert SampleWritten(record.samples[j], j, children[j][i], inventory[i], keys);
      CompleteMeansPresent(record.samples[j].costs, children[j][i], inventory[i], keys);
    }
  }

  /** Promotion eligibility, in terms of the environment and the children alone. */
  lemma EligibleWhen(m: Manifest, a: Arguments, inventory: seq<Scenario>, keys: seq<Key>, children: seq<seq<Child>>)
    requires InventoryOk(inventory, keys) && ChildrenOk(a, inventory, keys, children)
    requires Wrote(m, a, inventory, keys, children)
    ensures m.missing == [] <==> AllRequiredPresent(inventory, children)
    ensures m.eligible <==> FixedEnvironment(a) && AllRequiredPresent(inventory, children)
  {
    NoneMissing(m.scenarios);
    forall i | 0 <= i < |inventory|
      ensures SamplesComplete(m.scenarios[i].samples, m.scenarios[i].required) <==>
                forall j :: 0 <= j < |children| ==>
                  i < |children[j]| && RequiredPresent(children[j][i], inventory[i])
    {
      RecordComplete(m.scenarios[i], i, a, inventory, keys, children);
    }
    forall j | 0 <= j < |children| ensures |children[j]| == |inventory| {
      assert RoundOk(children[j], inventory, keys, a.observer);
    }
  }

  /** The evidence chain: a run, then the validator on what it wrote. */
  method RunThenValidate(a: Arguments, inventory: seq<Scenario>, keys: seq<Key>, warmups: seq<Child>,
                         children: seq<seq<Child>>, requireFixedLab: bool) returns (raised: bool, accepted: bool)
    requires InventoryOk(inventory, keys)
    requires RoundOk(warmups, inventory, keys, a.observer) && ChildrenOk(a, inventory, keys, children)
    ensures raised <==> !Completes(a, inventory, keys, warmups, children)
                        || (a.evidence.FixedLab? && !AllRequiredPresent(inventory, children))
    ensures accepted <==>
              && Completes(a, inventory, keys, warmups, children)
              && TextsOk(a.texts) && AllPresentable(inventory, keys, children)
              && (requireFixedLab ==> a.evidence.FixedLab? && !raised)
  {
    var manifest;
    manifest, raised := RunSuite(a, inventory, keys, warmups, children);
    if manifest.None? { return raised, false; }
    LedgerVerdict(manifest.value, a, inventory, keys, children);
    EligibleWhen(manifest.value, a, inventory, keys, children);
    accepted := ValidateManifest(manifest.value, inventory, keys, requireFixedLab);
  }

  /** The runner does not check what a bare cost path yields: whatever the validator will not take, a
      negative number or one beyond the range of floats, say, is recorded and then refused. */
  lemma UncheckedCostIsRefused(figure: Json)
    requires !figure.Null? && !CostOk(figure)
    ensures exists a, inventory, keys, warmups, children ::
              && InventoryOk(inventory, keys) && ChildrenOk(a, inventory, keys, children)
              && RoundOk(warmups, inventory, keys, a.observer)
              && Completes(a, inventory, keys, warmups, children)
              && TextsOk(a.texts)
              && forall m :: Wrote(m, a, inventory, keys, children) ==> !Accepts(m, inventory, keys, false)
  {
    var a := Arguments(Development, 1, false, true, false, true, false, []);
    var s := Scenario("s", [("cpu", Source("p", None))], ["cpu"]);
    var child := Child(map["p" := figure], None);
    var inventory, keys, round := [s], ["cpu"], [child];
    var children := [round];
    assert s.sources[0].0 == "cpu" && HasSource(s, "cpu");
    assert MergedCost(child, s, "cpu") == Some(figure);
    assert Mergeable(child, s, keys);
    assert RoundMergeable(round, inventory, keys);
    assert !Presentable(child, s, keys[0]) && !ChildPresentable(children[0][0], inventory[0], keys);
    assert RoundOk(round, inventory, keys, a.observer);
    assert Completes(a, inventory, keys, round, children);
    assert ScenarioOk(s, keys) && InventoryOk(inventory, keys);
    forall m | Wrote(m, a, inventory, keys, children) ensures !Accepts(m, inventory, keys, false) {
      LedgerVerdict(m, a, inventory, keys, children);
    }
  }
}
