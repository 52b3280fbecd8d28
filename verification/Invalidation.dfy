/**
 Invalidating the results of a set of agents, and reusing context digests
 (backend/analysis_dependencies.py, backend/context_dependencies.py).
 */
module Invalidation {
  import opened Wrappers
  import opened Pipeline
  import opened AnalysisContext

  predicate OwnedBy(key: Key, agents: set<int>) {
    !key.OtherKey? && key.agent in agents
  }

  /** Reports and flag sources are keyed by text only. */
  predicate NamedBy(key: Key, agents: set<int>) {
    key.TextKey? && key.agent in agents
  }

  function Without<V>(values: map<Key, V>, agents: set<int>): map<Key, V> {
    map k | k in values && !OwnedBy(k, agents) :: values[k]
  }

  /** The digests that depend on one of the agents: its own and those of its downstream. */
  predicate Depends(groups: Groups, target: Option<int>, agents: set<int>) {
    target.Some? && exists a | a in agents :: target.value == a || a in Upstream(groups, target.value)
  }

  function Target(key: Key): Option<int> {
    if key.OtherKey? then None else Some(key.agent)
  }

  function CacheTarget(key: CacheKey): Option<int> {
    match key case Plain(k) => Target(k) case Paired(agent, _) => Some(agent)
  }

  /** The entries that do not depend on the agents, in a section whose keys name a target agent. */
  function Kept<K, V>(groups: Groups, values: map<K, V>, target: K -> Option<int>, agents: set<int>): map<K, V> {
    map k | k in values && !Depends(groups, target(k), agents) :: values[k]
  }

  function RemovedFlags(reports: map<Key, seq<Flag>>, agents: set<int>): set<Flag> {
    set k, f | k in reports && NamedBy(k, agents) && f in reports[k] :: f
  }

  predicate FlagKept(flag: Flag, agents: set<int>, removed: set<Flag>) {
    (forall s | s in flag.sources :: !NamedBy(s, agents)) && flag !in removed
  }

  function KeptFlags(flags: seq<Flag>, agents: set<int>, removed: set<Flag>): seq<Flag> {
    if flags == [] then [] else
      var rest := KeptFlags(flags[1..], agents, removed);
      if FlagKept(flags[0], agents, removed) then [flags[0]] + rest else rest
  }

  function KeptState(state: AgentState, agents: set<int>): AgentState {
    AgentState(map k | k in state.reports && !NamedBy(k, agents) :: state.reports[k],
               KeptFlags(state.riskFlags, agents, RemovedFlags(state.reports, agents)), "")
  }

  predicate ChunkOwnedBy(chunk: Chunk, agents: set<int>) {
    chunk.analysisSource && OwnedBy(chunk.owner, agents)
  }

  function KeptChunks(chunks: seq<Chunk>, agents: set<int>): seq<Chunk> {
    if chunks == [] then [] else
      var rest := KeptChunks(chunks[1..], agents);
      if ChunkOwnedBy(chunks[0], agents) then rest else [chunks[0]] + rest
  }

  function InvalidateRag(c: Context, agents: set<int>): Context {
    match c.ragIndex
    case None => c
    case Some(index) => c.(ragIndex := Some(index.(chunks := KeptChunks(index.chunks, agents))))
  }

  /** Every section but the chunks. */
  function DropSections(c: Context, agents: set<int>): Context {
    c.(replaced := true,
       invalidated := c.invalidated + agents,
       analyses := Without(c.analyses, agents),
       structured := Without(c.structured, agents),
       ragContext := Without(c.ragContext, agents),
       manifests := Without(c.manifests, agents),
       digests := Kept(c.groups, c.digests, Target, agents),
       digestCache := Kept(c.groups, c.digestCache, CacheTarget, agents),
       narrative := "",
       agentState := match c.agentState case None => None case Some(state) => Some(KeptState(state, agents)))
  }

  /** `invalidate_analysis_results` as one filter of every section. */
  function Invalidate(c: Context, agents: set<int>): Context {
    if agents == {} then c else InvalidateRag(DropSections(c, agents), agents)
  }

  /** Whether the digest for the agent can be reused, and the digests afterwards. */
  function Reuse(agent: int, input: DigestInput, digests: map<Key, Digest>, cache: map<CacheKey, Digest>)
    : (bool, map<Key, Digest>) {
    var cached := if Paired(agent, input) in cache then Some(cache[Paired(agent, input)]) else None;
    var existing := AgentValue(digests, agent);
    if DigestMatches(cached, input) then (true, digests[IntKey(agent) := cached.value])
    else if DigestMatches(existing, input) then (true, digests[IntKey(agent) := existing.value])
    else (false, digests - {IntKey(agent), TextKey(agent)})
  }

  lemma NonEmpty(agents: set<int>)
    requires agents != {}
    ensures exists a: int :: a in agents
  {
    assert (forall a: int :: a !in agents) ==> agents == {};
  }

  method PopAgents<V>(values: map<Key, V>, agents: set<int>) returns (left: map<Key, V>)
    ensures left == Without(values, agents)
  {
    left := values;
    var todo := agents;
    while todo != {}
      invariant todo <= agents
      invariant left == Without(values, agents - todo)
      decreases todo
    {
      assert exists a: int :: a in todo by { NonEmpty(todo); }
      var a: int :| a in todo;
      left := left - {IntKey(a), TextKey(a)};
      todo := todo - {a};
    }
    assert agents - {} == agents;
  }

  /** One section's share of `invalidate_repair_digests`. */
  method PopDependents<K(==), V>(groups: Groups, values: map<K, V>, target: K -> Option<int>, agent: int)
    returns (left: map<K, V>)
    ensures left == Kept(groups, values, target, {agent})
  {
    left := values;
    var todo := values.Keys;
    while todo != {}
      invariant todo <= values.Keys
      invariant left == map k | k in values && (k in todo || !Depends(groups, target(k), {agent})) :: values[k]
      decreases todo
    {
      var k :| k in todo;
      var t := target(k);
      if t.Some? && (t.value == agent || agent in Upstream(groups, t.value)) {
        left := left - {k};
      }
      todo := todo - {k};
    }
  }

  /** The context dictionary that the analysis functions update in place. */
  class AnalysisStore {
    var ctx: Context

    constructor (initial: Context)
      ensures ctx == initial
    {
      ctx := initial;
    }

    /** Makes the agent's result current, and touches no output and no other agent's version or mark. */
    method RecordResultProvenance(agent: int)
      modifies this
      ensures ctx == RecordProvenance(old(ctx), agent)
      ensures IsCurrent(ctx, agent)
      ensures forall other | other != agent :: SameRecord(old(ctx), ctx, other)
      ensures forall other :: SameOutputs(old(ctx), ctx, other)
    {
      RecordMakesCurrent(ctx, agent);
      var values := ctx.provenance - {TextKey(agent)};
      values := values[IntKey(agent) := Version(UpstreamFingerprints(ctx, agent), OutputFingerprint(ctx, agent))];
      ctx := ctx.(provenance := values, invalidated := ctx.invalidated - {agent});
    }

    method InitializeResultProvenance()
      modifies this
      ensures ctx == Initialize(old(ctx))
    {
      var order := Order(ctx.groups);
      var i := 0;
      while i < |order|
        invariant 0 <= i <= |order|
        invariant ctx == InitializeAmong(old(ctx), order[..i])
      {
        assert order[..i + 1][..i] == order[..i];
        if Unrecorded(ctx, order[i]) {
          RecordResultProvenance(order[i]);
        }
        i := i + 1;
      }
      assert order[..i] == order;
    }

    method InvalidateRepairDigests(agent: int)
      modifies this
      ensures ctx == old(ctx).(digests := Kept(ctx.groups, old(ctx).digests, Target, {agent}),
                               digestCache := Kept(ctx.groups, old(ctx).digestCache, CacheTarget, {agent}))
    {
      var digests := PopDependents(ctx.groups, ctx.digests, Target, agent);
      var cache := PopDependents(ctx.groups, ctx.digestCache, CacheTarget, agent);
      ctx := ctx.(digests := digests, digestCache := cache);
    }

    /** The loop over the invalidated agents. */
    method InvalidateDigestsOf(agents: set<int>)
      modifies this
      ensures ctx == old(ctx).(digests := Kept(ctx.groups, old(ctx).digests, Target, agents),
                               digestCache := Kept(ctx.groups, old(ctx).digestCache, CacheTarget, agents))
    {
      var todo := agents;
      while todo != {}
        invariant todo <= agents
        invariant ctx == old(ctx).(digests := Kept(ctx.groups, old(ctx).digests, Target, agents - todo),
                                   digestCache := Kept(ctx.groups, old(ctx).digestCache, CacheTarget, agents - todo))
        decreases todo
      {
        assert exists a: int :: a in todo by { NonEmpty(todo); }
        var a: int :| a in todo;
        InvalidateRepairDigests(a);
        KeptComposes(ctx.groups, old(ctx).digests, Target, agents - todo, {a});
        KeptComposes(ctx.groups, old(ctx).digestCache, CacheTarget, agents - todo, {a});
        assert agents - todo + {a} == agents - (todo - {a});
        todo := todo - {a};
      }
      assert agents - {} == agents;
    }

    method ForgetReports(agents: set<int>)
      modifies this
      ensures ctx == old(ctx).(agentState := match old(ctx).agentState
                                            case None => None
                                            case Some(state) => Some(KeptState(state, agents)))
    {
      if ctx.agentState.Some? {
        var state := ctx.agentState.value;
        var removed := RemovedFlags(state.reports, agents);
        var reports := map k | k in state.reports && !NamedBy(k, agents) :: state.reports[k];
        ctx := ctx.(agentState := Some(AgentState(reports, KeptFlags(state.riskFlags, agents, removed), "")));
      }
    }

    method InvalidateAnalysisRag(agents: set<int>)
      modifies this
      ensures ctx == InvalidateRag(old(ctx), agents)
    {
      if ctx.ragIndex.Some? {
        var index := ctx.ragIndex.value;
        ctx := ctx.(ragIndex := Some(index.(chunks := KeptChunks(index.chunks, agents))));
      }
    }

    method InvalidateAnalysisResults(agents: set<int>)
      modifies this
      ensures ctx == Invalidate(old(ctx), agents)
    {
      if agents == {} {
        return;
      }
      ctx := ctx.(replaced := true, invalidated := agents + ctx.invalidated);
      var analyses := PopAgents(ctx.analyses, agents);
      var structured := PopAgents(ctx.structured, agents);
      var ragContext := PopAgents(ctx.ragContext, agents);
      var manifests := PopAgents(ctx.manifests, agents);
      var digests := PopAgents(ctx.digests, agents);
      ctx := ctx.(analyses := analyses, structured := structured, ragContext := ragContext, manifests := manifests,
                  digests := digests);
      InvalidateDigestsOf(agents);
      KeptSubsumesPop(ctx.groups, old(ctx).digests, agents);
      ctx := ctx.(narrative := "");
      ForgetReports(agents);
      assert ctx == DropSections(old(ctx), agents);
      InvalidateAnalysisRag(agents);
    }

    method ReuseDigestCache(agent: int, input: DigestInput) returns (reused: bool)
      modifies this
      ensures var (r, digests) := Reuse(agent, input, old(ctx).digests, old(ctx).digestCache);
              reused == r && ctx == old(ctx).(digests := digests)
    {
      var cached := if Paired(agent, input) in ctx.digestCache
          then Some(ctx.digestCache[Paired(agent, input)]) else None;
      var existing := AgentValue(ctx.digests, agent);
      var candidates := [cached, existing];
      assert candidates[0] == cached && candidates[1] == existing;
      var i := 0;
      while i < 2
        invariant 0 <= i <= 2
        invariant ctx == old(ctx)
        invariant forall j | 0 <= j < i :: !DigestMatches(candidates[j], input)
      {
        if DigestMatches(candidates[i], input) {
          ctx := ctx.(digests := ctx.digests[IntKey(agent) := candidates[i].value]);
          return true;
        }
        i := i + 1;
      }
      assert !DigestMatches(candidates[0], input) && !DigestMatches(candidates[1], input);
      ctx := ctx.(digests := ctx.digests - {IntKey(agent), TextKey(agent)});
      return false;
    }
  }

  // ----- invalidation is a union homomorphism

  lemma KeptComposes<K, V>(groups: Groups, values: map<K, V>, target: K -> Option<int>, a: set<int>, b: set<int>)
    ensures Kept(groups, Kept(groups, values, target, a), target, b) == Kept(groups, values, target, a + b)
  {
    forall t ensures Depends(groups, t, a + b) <==> Depends(groups, t, a) || Depends(groups, t, b) {
      if Depends(groups, t, a) {
        var x :| x in a && (t.value == x || x in Upstream(groups, t.value));
        assert x in a + b;
      } else if Depends(groups, t, b) {
        var x :| x in b && (t.value == x || x in Upstream(groups, t.value));
        assert x in a + b;
      }
    }
  }

  /** Popping the agents' own digests first changes nothing: they depend on themselves. */
  lemma KeptSubsumesPop(groups: Groups, digests: map<Key, Digest>, agents: set<int>)
    ensures Kept(groups, Without(digests, agents), Target, agents) == Kept(groups, digests, Target, agents)
  {
    forall k: Key | OwnedBy(k, agents) ensures Depends(groups, Target(k), agents) {
      assert k.agent in agents;
    }
  }

  lemma {:induction false} ChunksCompose(chunks: seq<Chunk>, a: set<int>, b: set<int>)
    ensures KeptChunks(KeptChunks(chunks, a), b) == KeptChunks(chunks, a + b)
  {
    if chunks != [] {
      ChunksCompose(chunks[1..], a, b);
      var rest := KeptChunks(chunks[1..], a);
      assert ([chunks[0]] + rest)[1..] == rest;
    }
  }

  lemma {:induction false} FlagsCompose(flags: seq<Flag>, a: set<int>, ra: set<Flag>, b: set<int>, rb: set<Flag>)
    ensures KeptFlags(KeptFlags(flags, a, ra), b, rb) == KeptFlags(flags, a + b, ra + rb)
  {
    if flags != [] {
      FlagsCompose(flags[1..], a, ra, b, rb);
      var rest := KeptFlags(flags[1..], a, ra);
      assert ([flags[0]] + rest)[1..] == rest;
      assert FlagKept(flags[0], a + b, ra + rb) <==> FlagKept(flags[0], a, ra) && FlagKept(flags[0], b, rb);
    }
  }

  lemma StateComposes(state: AgentState, a: set<int>, b: set<int>)
    ensures KeptState(KeptState(state, a), b) == KeptState(state, a + b)
  {
    var after := KeptState(state, a);
    var ra, rb := RemovedFlags(state.reports, a), RemovedFlags(after.reports, b);
    assert ra + rb == RemovedFlags(state.reports, a + b) by {
      forall f | f in RemovedFlags(state.reports, a + b) ensures f in ra + rb {
        var k :| k in state.reports && NamedBy(k, a + b) && f in state.reports[k];
        if !NamedBy(k, a) {
          assert k in after.reports && NamedBy(k, b);
        }
      }
    }
    FlagsCompose(state.riskFlags, a, ra, b, rb);
  }

  /** Invalidating a then b is invalidating their union, in every section of the context. */
  lemma InvalidationComposes(c: Context, a: set<int>, b: set<int>)
    ensures Invalidate(Invalidate(c, a), b) == Invalidate(c, a + b)
  {
    if a == {} {
      assert a + b == b;
    } else if b == {} {
      assert a + b == a;
    } else {
      KeptComposes(c.groups, c.digests, Target, a, b);
      KeptComposes(c.groups, c.digestCache, CacheTarget, a, b);
      if c.ragIndex.Some? {
        ChunksCompose(c.ragIndex.value.chunks, a, b);
      }
      if c.agentState.Some? {
        StateComposes(c.agentState.value, a, b);
      }
      WithoutComposes(c.analyses, a, b);
      WithoutComposes(c.structured, a, b);
      WithoutComposes(c.ragContext, a, b);
      WithoutComposes(c.manifests, a, b);
      assert c.invalidated + a + b == c.invalidated + (a + b);
    }
  }

  lemma WithoutComposes<V>(values: map<Key, V>, a: set<int>, b: set<int>)
    ensures Without(Without(values, a), b) == Without(values, a + b)
  {
  }

  /** Hence it is idempotent, and the order of two invalidations does not matter. */
  lemma InvalidationCommutes(c: Context, a: set<int>, b: set<int>)
    ensures Invalidate(Invalidate(c, a), b) == Invalidate(Invalidate(c, b), a)
    ensures Invalidate(Invalidate(c, a), a) == Invalidate(c, a)
  {
    InvalidationComposes(c, a, b);
    InvalidationComposes(c, b, a);
    InvalidationComposes(c, a, a);
    assert a + b == b + a && a + a == a;
  }

  // ----- what invalidation removes and keeps

  /** Nothing of another agent goes from the results. */
  lemma InvalidationFrame(c: Context, agents: set<int>, other: int)
    requires other !in agents
    ensures var d := Invalidate(c, agents);
            && d.groups == c.groups && d.provenance == c.provenance
            && (other in d.invalidated <==> other in c.invalidated)
            && AgentValue(d.analyses, other) == AgentValue(c.analyses, other)
            && AgentValue(d.structured, other) == AgentValue(c.structured, other)
            && AgentValue(d.ragContext, other) == AgentValue(c.ragContext, other)
            && AgentValue(d.manifests, other) == AgentValue(c.manifests, other)
  {
    if agents != {} {
      WithoutKeeps(c.analyses, agents, other);
      WithoutKeeps(c.structured, agents, other);
      WithoutKeeps(c.ragContext, agents, other);
      WithoutKeeps(c.manifests, agents, other);
    }
  }

  /** Of the digests, exactly those for an invalidated agent or for an agent downstream of one go. */
  lemma InvalidationDropsDependents(c: Context, agents: set<int>, other: int)
    ensures AgentValue(Invalidate(c, agents).digests, other) ==
            if exists a | a in agents :: a == other || a in Upstream(c.groups, other) then None
            else AgentValue(c.digests, other)
  {
    KeptValue(c.groups, c.digests, agents, other);
    assert Depends(c.groups, Some(other), agents) <==>
           exists a | a in agents :: a == other || a in Upstream(c.groups, other);
  }

  /** Likewise in the cache, where an entry may also carry its input, and nothing else goes from it. */
  lemma InvalidationDropsCached(c: Context, agents: set<int>, key: CacheKey, other: int)
    requires key == Plain(IntKey(other)) || key == Plain(TextKey(other)) || (key.Paired? && key.agent == other)
    ensures var cache := Invalidate(c, agents).digestCache;
            && (key in cache <==>
                  key in c.digestCache && !exists a | a in agents :: a == other || a in Upstream(c.groups, other))
            && (key in cache ==> cache[key] == c.digestCache[key])
  {
    assert CacheTarget(key) == Some(other);
    assert Depends(c.groups, Some(other), agents) <==>
           exists a | a in agents :: a == other || a in Upstream(c.groups, other);
    KeptAt(c.groups, c.digestCache, CacheTarget, agents, key);
  }

  lemma KeptAt<K, V>(groups: Groups, values: map<K, V>, target: K -> Option<int>, agents: set<int>, key: K)
    ensures var left := Kept(groups, values, target, agents);
            && (key in left <==> key in values && !Depends(groups, target(key), agents))
            && (key in left ==> left[key] == values[key])
  {
  }

  /** Entries that name no agent stay. */
  lemma UnnamedStay(c: Context, agents: set<int>, name: string)
    ensures OtherKey(name) in c.digests ==> OtherKey(name) in Invalidate(c, agents).digests
    ensures Plain(OtherKey(name)) in c.digestCache ==> Plain(OtherKey(name)) in Invalidate(c, agents).digestCache
  {
    KeptAt(c.groups, c.digests, Target, agents, OtherKey(name));
    KeptAt(c.groups, c.digestCache, CacheTarget, agents, Plain(OtherKey(name)));
  }

  /** What popping the agents leaves of a section: the entries under neither form of their numbers. */
  lemma WithoutIff<V>(values: map<Key, V>, agents: set<int>, key: Key)
    ensures var left := Without(values, agents);
            && (key in left <==>
                  key in values && !exists a | a in agents :: key == IntKey(a) || key == TextKey(a))
            && (key in left ==> left[key] == values[key])
  {
    if OwnedBy(key, agents) {
      assert key == IntKey(key.agent) || key == TextKey(key.agent);
    }
  }

  lemma KeptValue(groups: Groups, digests: map<Key, Digest>, agents: set<int>, other: int)
    ensures AgentValue(Kept(groups, digests, Target, agents), other) ==
            if Depends(groups, Some(other), agents) then None else AgentValue(digests, other)
  {
  }

  lemma WithoutKeeps<V>(values: map<Key, V>, agents: set<int>, other: int)
    requires other !in agents
    ensures AgentValue(Without(values, agents), other) == AgentValue(values, other)
  {
  }

  /** Nothing of the invalidated agents stays, and no text that was written from them. */
  lemma InvalidationRemoves(c: Context, agents: set<int>, agent: int)
    requires agent in agents
    ensures var d := Invalidate(c, agents);
            && !IsCurrent(d, agent)
            && AgentValue(d.analyses, agent).None? && AgentValue(d.structured, agent).None?
            && AgentValue(d.ragContext, agent).None? && AgentValue(d.manifests, agent).None?
            && d.narrative == "" && d.replaced
            && (d.agentState.Some? ==>
                  TextKey(agent) !in d.agentState.value.reports && d.agentState.value.summary == "")
            && (d.ragIndex.Some? ==> forall ch | ch in d.ragIndex.value.chunks :: !ChunkOwnedBy(ch, {agent}))
  {
    if c.ragIndex.Some? {
      var chunks := c.ragIndex.value.chunks;
      forall ch | ch in KeptChunks(chunks, agents) ensures !ChunkOwnedBy(ch, {agent}) {
        ChunksKept(chunks, agents, ch);
        assert ch in multiset(KeptChunks(chunks, agents));
      }
    }
  }

  /** And no digest built on them can be served, their own included. */
  lemma InvalidationStalesDigests(c: Context, agents: set<int>, agent: int, target: int)
    requires agent in agents && (target == agent || agent in Upstream(c.groups, target))
    ensures FreshDigest(Invalidate(c, agents), target).None?
  {
    assert Depends(c.groups, Some(target), agents);
    KeptValue(c.groups, c.digests, agents, target);
  }

  /** Raw evidence and other agents' analysis chunks survive, with their multiplicity and order. */
  lemma {:induction false} ChunksKept(chunks: seq<Chunk>, agents: set<int>, chunk: Chunk)
    ensures multiset(KeptChunks(chunks, agents))[chunk] ==
            if ChunkOwnedBy(chunk, agents) then 0 else multiset(chunks)[chunk]
  {
    if chunks != [] {
      ChunksKept(chunks[1..], agents, chunk);
      assert chunks == [chunks[0]] + chunks[1..];
    }
  }

  /** An index without chunks of the agents is unchanged. */
  lemma {:induction false} UntouchedChunks(chunks: seq<Chunk>, agents: set<int>)
    requires forall chunk | chunk in chunks :: !ChunkOwnedBy(chunk, agents)
    ensures KeptChunks(chunks, agents) == chunks
  {
    if chunks != [] {
      UntouchedChunks(chunks[1..], agents);
      assert chunks[0] in chunks && chunks == [chunks[0]] + chunks[1..];
    }
  }

  /** External risks survive; a flag goes when an invalidated agent is among its sources or reported it. */
  lemma {:induction false} FlagsKept(flags: seq<Flag>, agents: set<int>, removed: set<Flag>, flag: Flag)
    ensures multiset(KeptFlags(flags, agents, removed))[flag] ==
            if FlagKept(flag, agents, removed) then multiset(flags)[flag] else 0
  {
    if flags != [] {
      FlagsKept(flags[1..], agents, removed, flag);
      assert flags == [flags[0]] + flags[1..];
    }
  }

  /** A flag goes exactly if it names an invalidated agent as a source, or is in such an agent's report. */
  lemma FlagSurvives(c: Context, agents: set<int>, flag: Flag)
    requires c.agentState.Some?
    ensures var d, state := Invalidate(c, agents), c.agentState.value;
            && d.agentState.Some?
            && multiset(d.agentState.value.riskFlags)[flag] ==
               if exists a | a in agents ::
                    || TextKey(a) in flag.sources
                    || (TextKey(a) in state.reports && flag in state.reports[TextKey(a)])
               then 0 else multiset(state.riskFlags)[flag]
  {
    var state := c.agentState.value;
    var removed := RemovedFlags(state.reports, agents);
    FlagsKept(state.riskFlags, agents, removed, flag);
    FlagKeptIff(state.reports, agents, flag);
    if agents == {} {
      assert FlagKept(flag, agents, removed);
    }
  }

  lemma FlagKeptIff(reports: map<Key, seq<Flag>>, agents: set<int>, flag: Flag)
    ensures FlagKept(flag, agents, RemovedFlags(reports, agents)) <==>
            !exists a | a in agents ::
              TextKey(a) in flag.sources || (TextKey(a) in reports && flag in reports[TextKey(a)])
  {
    if s :| s in flag.sources && NamedBy(s, agents) {
      assert s == TextKey(s.agent) && s.agent in agents;
    }
    if flag in RemovedFlags(reports, agents) {
      var k :| k in reports && NamedBy(k, agents) && flag in reports[k];
      assert k == TextKey(k.agent) && k.agent in agents;
    }
  }

  /** A report goes exactly if it is an invalidated agent's. */
  lemma ReportSurvives(state: AgentState, agents: set<int>, key: Key)
    ensures var reports := KeptState(state, agents).reports;
            && (key in reports <==> key in state.reports && !exists a | a in agents :: key == TextKey(a))
            && (key in reports ==> reports[key] == state.reports[key])
  {
    if key.TextKey? && key.agent in agents {
      assert key == TextKey(key.agent);
    }
  }

  /** A chunk goes exactly if it is analysis text of an invalidated agent: raw evidence never does. */
  lemma ChunkSurvives(c: Context, agents: set<int>, chunk: Chunk)
    requires c.ragIndex.Some?
    ensures var d := Invalidate(c, agents);
            && d.ragIndex.Some? && d.ragIndex.value.metadata == c.ragIndex.value.metadata
            && multiset(d.ragIndex.value.chunks)[chunk] ==
               if chunk.analysisSource
                  && exists a | a in agents :: chunk.owner == IntKey(a) || chunk.owner == TextKey(a)
               then 0 else multiset(c.ragIndex.value.chunks)[chunk]
  {
    ChunksKept(c.ragIndex.value.chunks, agents, chunk);
    var key := chunk.owner;
    if OwnedBy(key, agents) {
      assert key == IntKey(key.agent) || key == TextKey(key.agent);
    }
  }

  // ----- digest reuse

  /**
   Reuse succeeds exactly when a candidate carries the present input, and then the digest left
   for the agent carries it; otherwise no digest is left for it. Other digests are untouched.
   */
  lemma ReuseIsSound(agent: int, input: DigestInput, digests: map<Key, Digest>, cache: map<CacheKey, Digest>)
    ensures var (reused, after) := Reuse(agent, input, digests, cache);
            && (reused <==> DigestMatches(AgentValue(after, agent), input))
            && (reused <==>
                  || (Paired(agent, input) in cache && DigestMatches(Some(cache[Paired(agent, input)]), input))
                            || DigestMatches(AgentValue(digests, agent), input))
            && (Paired(agent, input) in cache && DigestMatches(Some(cache[Paired(agent, input)]), input) ==>
                  after[IntKey(agent)] == cache[Paired(agent, input)])
            && (!reused ==> IntKey(agent) !in after && TextKey(agent) !in after)
            && (reused ==>
                  after[IntKey(agent)] in cache.Values || AgentValue(digests, agent) == Some(after[IntKey(agent)]))
            && forall k: Key | k != IntKey(agent) && k != TextKey(agent) ::
                 (k in after <==> k in digests) && (k in digests ==> after[k] == digests[k])
  {
  }

  /** Run with the context's own input, reuse returns whether a fresh digest can be served afterwards. */
  lemma ReuseServesFresh(c: Context, agent: int)
    ensures var (reused, digests) := Reuse(agent, DigestInputOf(c, agent), c.digests, c.digestCache);
            var d := c.(digests := digests);
            && (reused <==> FreshDigest(d, agent).Some?)
            && (FreshDigest(c, agent).Some? ==> reused)
  {
    var (reused, digests) := Reuse(agent, DigestInputOf(c, agent), c.digests, c.digestCache);
    var d := c.(digests := digests);
    forall u ensures IsCurrent(d, u) <==> IsCurrent(c, u) {
      CurrencyDependsOn(c, d, u);
    }
    assert DigestInputOf(d, agent) == DigestInputOf(c, agent);
  }
}
