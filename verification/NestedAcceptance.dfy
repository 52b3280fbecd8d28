/**
 The repair of a single agent is itself a small transaction: before a round accepts the result,
 the wrapper around the repair has already recorded it against the context it started from
 (backend/agent_runtime/repair_transaction.py). This module shows that, within a round, the
 double acceptance comes to the same as the round's own.
 */
module NestedAcceptance {
  import opened Wrappers
  import opened Pipeline
  import opened AnalysisContext
  import opened Invalidation
  import opened RepairRound

  function DownstreamSet(c: Context, agent: int): set<int> {
    set a | a in Downstream(c.groups, agent)
  }

  /** Drops what was built on the agent. */
  function Drop(c: Context, agent: int): Context {
    Invalidate(InvalidateRag(c, {agent}), DownstreamSet(c, agent))
  }

  /**
   What accepting a result does to the context: it is recorded, and its dependents dropped
   if the output is not `before`.
   */
  function Accepted(c: Context, agent: int, before: Fingerprint): Context {
    var recorded := RecordProvenance(c, agent);
    if OutputFingerprint(recorded, agent) == before then recorded else Drop(recorded, agent)
  }

  /** The wrapper accepts against the round's context, then the round against the original. */
  function AdoptTwice(c: Context, agent: int, repair: Repair, before: Fingerprint): Context
    requires repair.Produced?
  {
    Accepted(Accepted(Install(c, agent, repair), agent, OutputFingerprint(c, agent)), agent, before)
  }

  function VisitTwice(round: Round, agent: int, repair: Repair, before: Fingerprint, audit: Audit): Round {
    match repair
    case Rejected => Visit(round, agent, repair, before, audit)
    case Produced(_, _) =>
      Visit(round, agent, repair, before, audit).(context := AdoptTwice(round.context, agent, repair, before))
  }

  function StepTwice(original: Context, audit: Audit, repairs: int -> Repair): (Round, int) -> Round {
    (round: Round, agent: int) =>
      if round.failed != [] || agent !in round.pending then round
      else VisitTwice(round, agent, repairs(agent), OutputFingerprint(original, agent), audit)
  }

  function SweepWith(step: (Round, int) -> Round, begin: Round, order: seq<int>, n: nat): Round
    requires n <= |order|
  {
    if n == 0 then begin else step(SweepWith(step, begin, order, n - 1), order[n - 1])
  }

  /** The sweep in which every result is accepted twice. */
  function NestedSweep(original: Context, audit: Audit, repairs: int -> Repair, n: nat): Round
    requires n <= |Order(original.groups)|
  {
    SweepWith(StepTwice(original, audit, repairs), Begin(original, audit), Order(original.groups), n)
  }

  // ----- settled agents

  /** Invalidating these agents would change nothing. */
  ghost predicate Settled(c: Context, agents: set<int>) {
    Invalidate(c, agents) == c
  }

  lemma SettledSubset(c: Context, agents: set<int>, fewer: set<int>)
    requires Settled(c, agents) && fewer <= agents
    ensures Settled(c, fewer)
  {
    InvalidationComposes(c, agents, fewer);
    assert agents + fewer == agents;
  }

  lemma InvalidatedIsSettled(c: Context, agents: set<int>, fewer: set<int>)
    requires fewer <= agents
    ensures Settled(Invalidate(c, agents), fewer)
  {
    InvalidationComposes(c, agents, fewer);
    assert agents + fewer == agents;
  }

  lemma WithoutElsewhere<V>(values: map<Key, V>, agent: int, v: V, agents: set<int>)
    requires Without(values, agents) == values && agent !in agents
    ensures Without(values - {IntKey(agent), TextKey(agent)}, agents) == values - {IntKey(agent), TextKey(agent)}
    ensures Without(values[IntKey(agent) := v], agents) == values[IntKey(agent) := v]
  {
    assert forall k | k in values :: k in Without(values, agents);
  }

  /** Section by section. */
  ghost predicate SettledSections(c: Context, agents: set<int>) {
    && c.replaced && agents <= c.invalidated && c.narrative == ""
    && Without(c.analyses, agents) == c.analyses && Without(c.structured, agents) == c.structured
    && Without(c.ragContext, agents) == c.ragContext && Without(c.manifests, agents) == c.manifests
    && Kept(c.groups, c.digests, Target, agents) == c.digests
    && Kept(c.groups, c.digestCache, CacheTarget, agents) == c.digestCache
    && (c.agentState.Some? ==> KeptState(c.agentState.value, agents) == c.agentState.value)
    && (c.ragIndex.Some? ==> KeptChunks(c.ragIndex.value.chunks, agents) == c.ragIndex.value.chunks)
  }

  lemma SettledMeansSections(c: Context, agents: set<int>)
    requires agents != {} && Settled(c, agents)
    ensures SettledSections(c, agents)
  {
    assert Invalidate(c, agents).invalidated == c.invalidated + agents;
  }

  lemma SectionsMeanSettled(c: Context, agents: set<int>)
    requires SettledSections(c, agents)
    ensures Settled(c, agents)
  {
    assert c.invalidated + agents == c.invalidated;
  }

  lemma InstalledFrame(c: Context, agent: int, repair: Repair)
    requires repair.Produced?
    ensures var d := RecordProvenance(Install(c, agent, repair), agent);
            var cleared := c.structured - {IntKey(agent), TextKey(agent)};
            && d == c.(analyses := d.analyses, structured := d.structured, provenance := d.provenance,
                       invalidated := c.invalidated - {agent})
            && d.analyses == c.analyses[IntKey(agent) := repair.analysis]
            && d.structured == if repair.structured.None?
                then cleared else cleared[IntKey(agent) := repair.structured.value]
  {
  }

  lemma StructuredElsewhere(values: map<Key, string>, agent: int, value: Option<string>, agents: set<int>)
    requires Without(values, agents) == values && agent !in agents
    ensures var cleared := values - {IntKey(agent), TextKey(agent)};
            var after := if value.None? then cleared else cleared[IntKey(agent) := value.value];
            Without(after, agents) == after
  {
    WithoutElsewhere(values, agent, "", agents);
    if value.Some? {
      WithoutElsewhere(values - {IntKey(agent), TextKey(agent)}, agent, value.value, agents);
    }
  }

  /** A new result of another agent unsettles nothing. */
  lemma InstallKeepsSettled(c: Context, agent: int, repair: Repair, agents: set<int>)
    requires repair.Produced? && Settled(c, agents) && agent !in agents
    ensures Settled(RecordProvenance(Install(c, agent, repair), agent), agents)
  {
    if agents != {} {
      SettledMeansSections(c, agents);
      InstalledFrame(c, agent, repair);
      WithoutElsewhere(c.analyses, agent, repair.analysis, agents);
      StructuredElsewhere(c.structured, agent, repair.structured, agents);
      SectionsMeanSettled(RecordProvenance(Install(c, agent, repair), agent), agents);
    }
  }

  /** Chunks and the other sections are invalidated independently. */
  lemma SectionsApart(c: Context, a: set<int>, b: set<int>)
    ensures DropSections(InvalidateRag(c, a), b) == InvalidateRag(DropSections(c, b), a)
  {
  }

  lemma RagOnly(c: Context, a: set<int>, b: set<int>)
    ensures InvalidateRag(InvalidateRag(c, a), b) == InvalidateRag(InvalidateRag(c, b), a)
  {
    if c.ragIndex.Some? {
      var index := c.ragIndex.value;
      ChunksCommute(index.chunks, a, b);
      RagTwo(c, index, a, b);
      RagTwo(c, index, b, a);
    }
  }

  lemma RagTwo(c: Context, index: Index, a: set<int>, b: set<int>)
    requires c.ragIndex == Some(index)
    ensures InvalidateRag(InvalidateRag(c, a), b) ==
            c.(ragIndex := Some(index.(chunks := KeptChunks(KeptChunks(index.chunks, a), b))))
  {
  }

  lemma RagCommutes(c: Context, a: set<int>, b: set<int>)
    ensures Invalidate(InvalidateRag(c, a), b) == InvalidateRag(Invalidate(c, b), a)
  {
    if b != {} {
      SectionsApart(c, a, b);
      RagOnly(DropSections(c, b), a, b);
    }
  }

  lemma ChunksCommute(chunks: seq<Chunk>, a: set<int>, b: set<int>)
    ensures KeptChunks(KeptChunks(chunks, a), b) == KeptChunks(KeptChunks(chunks, b), a)
  {
    ChunksCompose(chunks, a, b);
    ChunksCompose(chunks, b, a);
    assert a + b == b + a;
  }

  /** Nor does dropping the dependents of another agent. */
  lemma DropKeepsSettled(c: Context, agent: int, dropped: set<int>, agents: set<int>)
    requires Settled(c, agents)
    ensures Settled(Invalidate(InvalidateRag(c, {agent}), dropped), agents)
  {
    InvalidationCommutes(InvalidateRag(c, {agent}), dropped, agents);
    RagCommutes(c, {agent}, agents);
  }

  // ----- one acceptance after another

  lemma RecordAgain(c: Context, agent: int)
    requires agent !in c.invalidated && TextKey(agent) !in c.provenance && IntKey(agent) in c.provenance
    requires c.provenance[IntKey(agent)] == Version(UpstreamFingerprints(c, agent), OutputFingerprint(c, agent))
    ensures RecordProvenance(c, agent) == c
  {
    assert c.invalidated - {agent} == c.invalidated;
    assert (c.provenance - {TextKey(agent)})[IntKey(agent) := c.provenance[IntKey(agent)]] == c.provenance;
  }

  lemma RecordTwice(c: Context, agent: int)
    ensures RecordProvenance(RecordProvenance(c, agent), agent) == RecordProvenance(c, agent)
  {
    var d := RecordProvenance(c, agent);
    assert UpstreamFingerprints(d, agent) == UpstreamFingerprints(c, agent);
    RecordAgain(d, agent);
  }

  /** Dropping the dependents of a recorded agent leaves its record as it is. */
  lemma RecordAfterDrop(c: Context, agent: int)
    requires agent in Order(c.groups)
    ensures var recorded := RecordProvenance(c, agent);
            var dropped := Invalidate(InvalidateRag(recorded, {agent}), DownstreamSet(c, agent));
            && RecordProvenance(dropped, agent) == dropped
            && OutputFingerprint(dropped, agent) == OutputFingerprint(c, agent)
  {
    var dropped := Invalidate(InvalidateRag(RecordProvenance(c, agent), {agent}), DownstreamSet(c, agent));
    UpstreamIsEarlierGroup(c.groups, agent, agent);
    RecordSurvivesDrop(c, agent);
    OutputSurvivesDrop(c, agent, agent);
    UpstreamSurvivesDrop(c, agent);
    RecordAgain(dropped, agent);
  }

  lemma RecordSurvivesDrop(c: Context, agent: int)
    requires agent !in Downstream(c.groups, agent)
    ensures var dropped := Invalidate(InvalidateRag(RecordProvenance(c, agent), {agent}), DownstreamSet(c, agent));
            && agent !in dropped.invalidated && TextKey(agent) !in dropped.provenance &&
                IntKey(agent) in dropped.provenance
            && dropped.provenance[IntKey(agent)] == Version(UpstreamFingerprints(c, agent), OutputFingerprint(c, agent))
  {
    InvalidationFrame(InvalidateRag(RecordProvenance(c, agent), {agent}), DownstreamSet(c, agent), agent);
  }

  lemma UpstreamSurvivesDrop(c: Context, agent: int)
    requires agent in Order(c.groups)
    ensures var dropped := Invalidate(InvalidateRag(RecordProvenance(c, agent), {agent}), DownstreamSet(c, agent));
            UpstreamFingerprints(dropped, agent) == UpstreamFingerprints(c, agent)
  {
    var dropped := Invalidate(InvalidateRag(RecordProvenance(c, agent), {agent}), DownstreamSet(c, agent));
    OutputSurvivesDrop(c, agent, agent) by {
      UpstreamIsEarlierGroup(c.groups, agent, agent);
    }
    forall u | u in Upstream(c.groups, agent) ensures OutputFingerprint(dropped, u) == OutputFingerprint(c, u) {
      UpstreamIsNotDownstream(c.groups, agent, u);
      OutputSurvivesDrop(c, agent, u);
    }
  }

  lemma OutputSurvivesDrop(c: Context, agent: int, x: int)
    requires x !in Downstream(c.groups, agent)
    ensures var dropped := Invalidate(InvalidateRag(RecordProvenance(c, agent), {agent}), DownstreamSet(c, agent));
            dropped.groups == c.groups && OutputFingerprint(dropped, x) == OutputFingerprint(c, x)
  {
    RecordAt(c, agent, x);
    RagAt(RecordProvenance(c, agent), {agent}, x);
    DropAt(InvalidateRag(RecordProvenance(c, agent), {agent}), DownstreamSet(c, agent), x);
  }

  lemma RagTwice(c: Context, agents: set<int>)
    ensures InvalidateRag(InvalidateRag(c, agents), agents) == InvalidateRag(c, agents)
  {
    if c.ragIndex.Some? {
      ChunksCompose(c.ragIndex.value.chunks, agents, agents);
      assert agents + agents == agents;
    }
  }

  lemma DropSettlesRag(c: Context, agent: int, agents: set<int>)
    ensures var dropped := Invalidate(InvalidateRag(c, {agent}), agents);
            InvalidateRag(dropped, {agent}) == dropped && dropped.groups == c.groups
  {
    RagCommutes(InvalidateRag(c, {agent}), {agent}, agents);
    RagTwice(c, {agent});
    DropAt(InvalidateRag(c, {agent}), agents, agent);
  }

  /** Dropping the dependents twice is dropping them once. */
  lemma DropTwice(c: Context, agent: int)
    ensures Drop(Drop(c, agent), agent) == Drop(c, agent)
  {
    DropSettlesRag(c, agent, DownstreamSet(c, agent));
    InvalidatedIsSettled(InvalidateRag(c, {agent}), DownstreamSet(c, agent), DownstreamSet(c, agent));
  }

  /** Dropping dependents that are settled changes nothing. */
  lemma DropSettled(c: Context, agent: int, repair: Repair)
    requires repair.Produced? && agent in Order(c.groups)
    requires Settled(c, {agent} + DownstreamSet(c, agent))
    ensures var recorded := RecordProvenance(Install(c, agent, repair), agent);
            Invalidate(InvalidateRag(recorded, {agent}), DownstreamSet(c, agent)) == recorded
  {
    var recorded, agents := RecordProvenance(Install(c, agent, repair), agent), DownstreamSet(c, agent);
    SettledSubset(c, {agent} + agents, {agent});
    SettledSubset(c, {agent} + agents, agents);
    UpstreamIsEarlierGroup(c.groups, agent, agent);
    InstallKeepsSettled(c, agent, repair, agents);
    assert InvalidateRag(recorded, {agent}) == recorded;
  }

  /** Accepting a result that is already recorded. */
  lemma AcceptRecorded(c: Context, agent: int, before: Fingerprint)
    requires RecordProvenance(c, agent) == c
    ensures Accepted(c, agent, before) == if OutputFingerprint(c, agent) == before then c else Drop(c, agent)
  {
  }

  lemma RecordAfterDropping(c: Context, agent: int)
    requires agent in Order(c.groups)
    ensures var dropped := Drop(RecordProvenance(c, agent), agent);
            && RecordProvenance(dropped, agent) == dropped
            && OutputFingerprint(dropped, agent) == OutputFingerprint(c, agent)
  {
    RecordAfterDrop(c, agent);
  }

  /**
   Once accepted, a result is the same when it is accepted against another output: at most
   its dependents are dropped.
   */
  lemma AcceptAgain(c: Context, agent: int, first: Fingerprint, second: Fingerprint)
    requires agent in Order(c.groups)
    ensures Accepted(Accepted(c, agent, first), agent, second) ==
            if OutputFingerprint(c, agent) == first then Accepted(c, agent, second) else Accepted(c, agent, first)
  {
    var recorded := RecordProvenance(c, agent);
    if OutputFingerprint(c, agent) == first {
      RecordTwice(c, agent);
      AcceptRecorded(recorded, agent, second);
    } else {
      RecordAfterDropping(c, agent);
      DropTwice(recorded, agent);
      AcceptRecorded(Drop(recorded, agent), agent, second);
    }
  }

  lemma AdoptIsAccepted(c: Context, agent: int, repair: Repair, before: Fingerprint)
    requires repair.Produced?
    ensures Adopt(c, agent, repair, before) == Accepted(Install(c, agent, repair), agent, before)
  {
  }

  /**
   If the round's context has the agent's original output, or has settled its loss, accepting
   a result twice is accepting it once.
   */
  lemma AdoptTwiceIsAdopt(c: Context, agent: int, repair: Repair, before: Fingerprint)
    requires repair.Produced? && agent in Order(c.groups)
    requires OutputFingerprint(c, agent) == before || Settled(c, {agent} + DownstreamSet(c, agent))
    ensures AdoptTwice(c, agent, repair, before) == Adopt(c, agent, repair, before)
  {
    AdoptIsAccepted(c, agent, repair, before);
    AcceptAgain(Install(c, agent, repair), agent, OutputFingerprint(c, agent), before);
    if OutputFingerprint(c, agent) != before {
      DropSettled(c, agent, repair);
    }
  }

  // ----- the sweep

  /** Every agent still to come has its original output, or its loss is settled for it and its downstream. */
  ghost predicate LossesSettled(original: Context, c: Context, n: nat) {
    var order := Order(original.groups);
    && c.groups == original.groups
    && forall j | n <= j < |order| :: LossSettled(original, c, order[j])
  }

  ghost predicate LossSettled(original: Context, c: Context, x: int) {
    OutputFingerprint(c, x) == OutputFingerprint(original, x) || Settled(c, {x} + DownstreamSet(c, x))
  }

  lemma AdoptSettles(original: Context, c: Context, n: nat, j: nat, repair: Repair, before: Fingerprint)
    requires Distinct(Order(original.groups)) && n < j < |Order(original.groups)|
    requires c.groups == original.groups && repair.Produced?
    requires LossSettled(original, c, Order(original.groups)[j])
    ensures LossSettled(original, Adopt(c, Order(original.groups)[n], repair, before), Order(original.groups)[j])
  {
    var agent, x := Order(original.groups)[n], Order(original.groups)[j];
    var d := Adopt(c, agent, repair, before);
    AdoptAt(c, agent, repair, before, x);
    if d.groups == c.groups && x in Downstream(c.groups, agent)
       && OutputFingerprint(Install(c, agent, repair), agent) != before {
      DownstreamIsSettled(c, agent, repair, before, x);
    } else if OutputFingerprint(c, x) != OutputFingerprint(original, x) {
      if agent in Downstream(c.groups, x) {
        UpstreamComesFirst(c.groups, j, n);
      }
      AdoptKeepsSettled(c, agent, repair, before, {x} + DownstreamSet(c, x));
    }
  }

  lemma DownstreamIsSettled(c: Context, agent: int, repair: Repair, before: Fingerprint, x: int)
    requires repair.Produced? && x in Downstream(c.groups, agent)
    requires OutputFingerprint(Install(c, agent, repair), agent) != before
    ensures Settled(Adopt(c, agent, repair, before), {x} + DownstreamSet(c, x))
  {
    var rag := AdoptDropsFrom(c, agent, repair, before);
    DownstreamIsClosed(c, agent, x);
    InvalidatedIsSettled(rag, DownstreamSet(c, agent), {x} + DownstreamSet(c, x));
  }

  lemma AdoptDropsFrom(c: Context, agent: int, repair: Repair, before: Fingerprint) returns (rag: Context)
    requires repair.Produced? && OutputFingerprint(Install(c, agent, repair), agent) != before
    ensures Adopt(c, agent, repair, before) == Invalidate(rag, DownstreamSet(c, agent))
  {
    rag := InvalidateRag(RecordProvenance(Install(c, agent, repair), agent), {agent});
  }

  lemma DownstreamIsClosed(c: Context, agent: int, x: int)
    requires x in Downstream(c.groups, agent)
    ensures {x} + DownstreamSet(c, x) <= DownstreamSet(c, agent)
  {
    forall y | y in Downstream(c.groups, x) ensures y in Downstream(c.groups, agent) {
      UpstreamIsTransitive(c.groups, agent, x, y);
    }
  }

  lemma AdoptKeepsSettled(c: Context, agent: int, repair: Repair, before: Fingerprint, agents: set<int>)
    requires repair.Produced? && Settled(c, agents) && agent !in agents
    ensures Settled(Adopt(c, agent, repair, before), agents)
  {
    var recorded := RecordProvenance(Install(c, agent, repair), agent);
    InstallKeepsSettled(c, agent, repair, agents);
    DropKeepsSettled(recorded, agent, DownstreamSet(c, agent), agents);
  }

  lemma VisitSettles(original: Context, audit: Audit, repairs: int -> Repair, round: Round, n: nat)
    requires Distinct(Order(original.groups)) && n < |Order(original.groups)|
    requires LossesSettled(original, round.context, n)
    ensures LossesSettled(original, Step(original, audit, repairs, round, Order(original.groups)[n]).context, n + 1)
  {
    var agent := Order(original.groups)[n];
    if round.failed == [] && agent in round.pending && repairs(agent).Produced? {
      var before := OutputFingerprint(original, agent);
      AdoptAt(round.context, agent, repairs(agent), before, agent);
      forall j | n < j < |Order(original.groups)|
        ensures LossSettled(original, Adopt(round.context, agent, repairs(agent), before), Order(original.groups)[j])
      {
        AdoptSettles(original, round.context, n, j, repairs(agent), before);
      }
    }
  }

  lemma SweepSettles(original: Context, audit: Audit, repairs: int -> Repair, n: nat)
    requires Distinct(Order(original.groups)) && n <= |Order(original.groups)|
    ensures LossesSettled(original, Sweep(original, audit, repairs, n).context, n)
  {
    var inv := (r: Round, k: nat) => LossesSettled(original, r.context, k);
    InitializeKeepsOutputs(original);
    forall r, k: nat | k < |Order(original.groups)| && inv(r, k)
      ensures inv(Step(original, audit, repairs, r, Order(original.groups)[k]), k + 1)
    {
      VisitSettles(original, audit, repairs, r, k);
    }
    SweepInduction(original, audit, repairs, inv, n);
  }

  lemma StepTwiceIsStep(original: Context, audit: Audit, repairs: int -> Repair, round: Round, n: nat)
    requires n < |Order(original.groups)| && LossesSettled(original, round.context, n)
    ensures StepTwice(original, audit, repairs)(round, Order(original.groups)[n]) ==
            Step(original, audit, repairs, round, Order(original.groups)[n])
  {
    var agent := Order(original.groups)[n];
    assert LossSettled(original, round.context, agent);
    if repairs(agent).Produced? {
      AdoptTwiceIsAdopt(round.context, agent, repairs(agent), OutputFingerprint(original, agent));
    }
  }

  /** A step that agrees with the round's along the sweep leads through the same sweep. */
  lemma {:induction false} SameSweep(original: Context, audit: Audit, repairs: int -> Repair,
                                     step: (Round, int) -> Round, n: nat)
    requires n <= |Order(original.groups)|
    requires forall k: nat | k < n ::
               step(Sweep(original, audit, repairs, k), Order(original.groups)[k]) ==
                   Sweep(original, audit, repairs, k + 1)
    ensures SweepWith(step, Begin(original, audit), Order(original.groups), n) == Sweep(original, audit, repairs, n)
  {
    if n > 0 {
      SameSweep(original, audit, repairs, step, n - 1);
      assert step(Sweep(original, audit, repairs, n - 1), Order(original.groups)[n - 1]) ==
             Sweep(original, audit, repairs, n - 1 + 1);
    }
  }

  /**
   Throughout a round, the acceptance inside each repair adds nothing to the round's own:
   the two sweeps agree step by step.
   */
  lemma NestedAcceptanceAddsNothing(original: Context, audit: Audit, repairs: int -> Repair, n: nat)
    requires Distinct(Order(original.groups)) && n <= |Order(original.groups)|
    ensures NestedSweep(original, audit, repairs, n) == Sweep(original, audit, repairs, n)
  {
    var step := StepTwice(original, audit, repairs);
    forall k: nat | k < n
      ensures step(Sweep(original, audit, repairs, k), Order(original.groups)[k]) ==
              Sweep(original, audit, repairs, k + 1)
    {
      SweepSettles(original, audit, repairs, k);
      StepTwiceIsStep(original, audit, repairs, Sweep(original, audit, repairs, k), k);
    }
    SameSweep(original, audit, repairs, step, n);
  }
}
