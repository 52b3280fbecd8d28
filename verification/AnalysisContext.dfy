/**
 The analysis context shared by the agents of a pipeline, and when a result in it is current
 (backend/analysis_dependencies.py, backend/context_dependencies.py).

 SHA-256 digests of JSON payloads are the payloads themselves, that is, hashing is taken to
 be collision free.
 */
module AnalysisContext {
  import opened Wrappers
  import opened Pipeline

  const DIGEST_SCHEMA := "context_digest.v2"

  /** Dictionaries are keyed by the agent number, by its decimal text after a JSON round trip, or by other text. */
  datatype Key = IntKey(agent: int) | TextKey(agent: int) | OtherKey(name: string)

  /** An analysis text: the stripped body, and the generated audit sections around it. */
  datatype Analysis = Analysis(body: string, appendix: string)

  datatype Fingerprint = Fingerprint(body: string, structured: Option<string>)
  datatype Version = Version(inputs: map<int, Fingerprint>, output: Fingerprint)

  /** Everything a digest is built from. */
  datatype DigestInput = DigestInput(schema: string, pipelineId: string, target: int, upstream: seq<int>,
                                     promptVersion: string, promptFingerprint: string,
                                     analyses: map<int, Analysis>, structured: map<int, string>)

  /** `Unversioned` is any stored value that is not JSON carrying a digest provenance. */
  datatype Digest = Unversioned(text: string) | Versioned(schema: string, input: DigestInput, facts: string)

  datatype CacheKey = Plain(key: Key) | Paired(agent: int, input: DigestInput)

  datatype Flag = Flag(id: string, sources: seq<Key>)
  datatype AgentState = AgentState(reports: map<Key, seq<Flag>>, riskFlags: seq<Flag>, summary: string)
  datatype Chunk = Chunk(id: string, analysisSource: bool, owner: Key)
  datatype Index = Index(chunks: seq<Chunk>, metadata: string)

  datatype Context = Context(
    groups: Groups, pipelineId: string, promptVersion: string, promptFingerprint: string,
    analyses: map<Key, Analysis>, structured: map<Key, string>,
    provenance: map<Key, Version>, invalidated: set<int>,
    digests: map<Key, Digest>, digestCache: map<CacheKey, Digest>,
    ragContext: map<Key, string>, manifests: map<Key, string>,
    narrative: string, agentState: Option<AgentState>, ragIndex: Option<Index>, replaced: bool)

  /** `values.get(agent, values.get(str(agent)))` */
  function AgentValue<V>(values: map<Key, V>, agent: int): Option<V> {
    if IntKey(agent) in values then Some(values[IntKey(agent)])
    else if TextKey(agent) in values then Some(values[TextKey(agent)])
    else None
  }

  function OutputFingerprint(c: Context, agent: int): Fingerprint {
    var analysis := AgentValue(c.analyses, agent);
    Fingerprint(if analysis.Some? then analysis.value.body else "", AgentValue(c.structured, agent))
  }

  function UpstreamFingerprints(c: Context, agent: int): map<int, Fingerprint> {
    map u | u in Upstream(c.groups, agent) :: OutputFingerprint(c, u)
  }

  function Provenance(c: Context, agent: int): Option<Version> {
    AgentValue(c.provenance, agent)
  }

  predicate IsCurrent(c: Context, agent: int) {
    && agent !in c.invalidated
    && var version := Provenance(c, agent);
    (version.None? || version.value == Version(UpstreamFingerprints(c, agent), OutputFingerprint(c, agent)))
  }

  function Stale(c: Context): (r: seq<int>)
    ensures forall a :: a in r <==> a in Order(c.groups) && !IsCurrent(c, a)
  {
    StaleAmong(c, Order(c.groups))
  }

  function StaleAmong(c: Context, agents: seq<int>): (r: seq<int>)
    ensures forall a :: a in r <==> a in agents && !IsCurrent(c, a)
  {
    if agents == [] then [] else
      assert agents == [agents[0]] + agents[1..];
      var rest := StaleAmong(c, agents[1..]);
      if IsCurrent(c, agents[0]) then rest else [agents[0]] + rest
  }

  function RecordProvenance(c: Context, agent: int): Context {
    var version := Version(UpstreamFingerprints(c, agent), OutputFingerprint(c, agent));
    c.(provenance := (c.provenance - {TextKey(agent)})[IntKey(agent) := version],
       invalidated := c.invalidated - {agent})
  }

  /** A result of a legacy context that has no version yet. */
  predicate Unrecorded(c: Context, agent: int) {
    agent !in c.invalidated && AgentValue(c.analyses, agent).Some? && Provenance(c, agent).None?
  }

  function InitializeAmong(c: Context, agents: seq<int>): Context {
    if agents == [] then c
    else
      var before := InitializeAmong(c, agents[..|agents| - 1]);
      var agent := agents[|agents| - 1];
      if Unrecorded(before, agent) then RecordProvenance(before, agent) else before
  }

  function Initialize(c: Context): Context {
    InitializeAmong(c, Order(c.groups))
  }

  // ----- currency

  /** A value written under the agent's number is read back, and under its decimal text only without one. */
  lemma AgentValueReads<V>(values: map<Key, V>, agent: int, value: V)
    ensures AgentValue(values[IntKey(agent) := value], agent) == Some(value)
    ensures IntKey(agent) !in values ==> AgentValue(values[TextKey(agent) := value], agent) == Some(value)
    ensures AgentValue(values - {IntKey(agent), TextKey(agent)}, agent) == None
    ensures forall other | other != agent ::
              && AgentValue(values[IntKey(agent) := value], other) == AgentValue(values, other)
              && AgentValue(values[TextKey(agent) := value], other) == AgentValue(values, other)
  {
  }

  /** The stripped analysis of an agent, empty if it has none. */
  ghost function BodyOf(c: Context, agent: int): string {
    if AgentValue(c.analyses, agent).None? then "" else AgentValue(c.analyses, agent).value.body
  }

  /** An output is the analysis body and the structured output, and nothing else. */
  lemma FingerprintIsOutput(c: Context, d: Context, agent: int, other: int)
    ensures OutputFingerprint(c, agent) == OutputFingerprint(d, other) <==>
            BodyOf(c, agent) == BodyOf(d, other) && AgentValue(c.structured, agent) == AgentValue(d.structured, other)
  {
  }

  /** Replacing an upstream analysis makes a recorded result stale exactly if it has another body. */
  lemma ReplacedAnalysisStales(c: Context, agent: int, u: int, analysis: Analysis)
    requires u in Upstream(c.groups, agent)
    ensures var recorded := RecordProvenance(c, agent);
            var d := recorded.(analyses := recorded.analyses[IntKey(u) := analysis]);
            IsCurrent(d, agent) <==> analysis.body == BodyOf(c, u)
  {
    var recorded := RecordProvenance(c, agent);
    var d := recorded.(analyses := recorded.analyses[IntKey(u) := analysis]);
    OneReplaced(c, d, agent, u);
    FingerprintIsOutput(c, d, u, u);
  }

  /** Replacing an upstream structured output makes a recorded result stale exactly if it differs. */
  lemma ReplacedStructureStales(c: Context, agent: int, u: int, structured: string)
    requires u in Upstream(c.groups, agent)
    ensures var recorded := RecordProvenance(c, agent);
            var d := recorded.(structured := recorded.structured[IntKey(u) := structured]);
            IsCurrent(d, agent) <==> AgentValue(c.structured, u) == Some(structured)
  {
    var recorded := RecordProvenance(c, agent);
    var d := recorded.(structured := recorded.structured[IntKey(u) := structured]);
    OneReplaced(c, d, agent, u);
    FingerprintIsOutput(c, d, u, u);
  }

  lemma OneReplaced(c: Context, d: Context, agent: int, u: int)
    requires d.groups == c.groups && u in Upstream(c.groups, agent)
    requires d.provenance == RecordProvenance(c, agent).provenance && agent !in d.invalidated
    requires forall x | x != u :: OutputFingerprint(d, x) == OutputFingerprint(c, x)
    ensures IsCurrent(d, agent) <==> OutputFingerprint(d, u) == OutputFingerprint(c, u)
  {
    UpstreamIsEarlierGroup(c.groups, agent, agent);
    CurrentIffUnchangedSinceRecord(c, d, agent);
  }

  /** The two contexts hold the same version and invalidation mark for the agent. */
  ghost predicate SameRecord(c: Context, d: Context, agent: int) {
    && c.groups == d.groups
    && (agent in c.invalidated <==> agent in d.invalidated)
    && Provenance(c, agent) == Provenance(d, agent)
  }

  /** The outputs the agent's result depends on, its own included, are the same in both. */
  ghost predicate SameOutputs(c: Context, d: Context, agent: int) {
    && c.groups == d.groups
    && OutputFingerprint(c, agent) == OutputFingerprint(d, agent)
    && forall u | u in Upstream(c.groups, agent) :: OutputFingerprint(c, u) == OutputFingerprint(d, u)
  }

  lemma CurrencyDependsOn(c: Context, d: Context, agent: int)
    requires SameRecord(c, d, agent) && SameOutputs(c, d, agent)
    ensures IsCurrent(c, agent) <==> IsCurrent(d, agent)
  {
    assert UpstreamFingerprints(c, agent) == UpstreamFingerprints(d, agent);
  }

  /**
   What a recorded version means: the result is current exactly while it is not invalidated
   and neither its own output nor any upstream output differs from when it was recorded.
   */
  lemma CurrentIffUnchangedSinceRecord(recorded: Context, now: Context, agent: int)
    requires now.groups == recorded.groups
    requires Provenance(now, agent) == Provenance(RecordProvenance(recorded, agent), agent)
    ensures IsCurrent(now, agent) <==> agent !in now.invalidated && SameOutputs(recorded, now, agent)
  {
    var a, b := UpstreamFingerprints(recorded, agent), UpstreamFingerprints(now, agent);
    assert SameOutputs(recorded, now, agent) ==> a == b;
    if a == b {
      forall u | u in Upstream(now.groups, agent) ensures OutputFingerprint(recorded, u) == OutputFingerprint(now, u) {
        assert a[u] == b[u];
      }
    }
  }

  /**
   Changing one agent's fingerprinted output makes stale exactly that agent and its
   downstream among the results that were current and versioned; every other agent, in
   particular earlier groups and peers, keeps its status.
   */
  lemma StalenessIsExact(c: Context, d: Context, changed: int, agent: int)
    requires changed in Order(c.groups) && agent in Order(c.groups)
    requires SameRecord(c, d, agent)
    requires forall u | u in Order(c.groups) :: OutputFingerprint(c, u) == OutputFingerprint(d, u) <==> u != changed
    ensures agent != changed && agent !in Downstream(c.groups, changed) ==>
            (IsCurrent(d, agent) <==> IsCurrent(c, agent))
    ensures IsCurrent(c, agent) && Provenance(c, agent).Some? ==>
              (!IsCurrent(d, agent) <==> agent == changed || agent in Downstream(c.groups, changed))
  {
    forall u | u in Upstream(c.groups, agent) ensures u in Order(c.groups) {
      UpstreamIsEarlierGroup(c.groups, agent, u);
    }
    if agent == changed {
      UpstreamIsEarlierGroup(c.groups, agent, agent);
    } else if agent in Downstream(c.groups, changed) {
      if IsCurrent(c, agent) && Provenance(c, agent).Some? {
        assert UpstreamFingerprints(c, agent)[changed] != UpstreamFingerprints(d, agent)[changed];
      }
    } else {
      CurrencyDependsOn(c, d, agent);
    }
  }

  /** Audit appendices are not revisions: a text with the same body leaves every status as it was. */
  lemma AppendixIsNoRevision(c: Context, agent: int, analysis: Analysis, appendix: string, other: int)
    requires AgentValue(c.analyses, agent) == Some(analysis)
    ensures var d := c.(analyses := c.analyses[IntKey(agent) := analysis.(appendix := appendix)]);
            IsCurrent(d, other) <==> IsCurrent(c, other)
  {
    var d := c.(analyses := c.analyses[IntKey(agent) := analysis.(appendix := appendix)]);
    forall u ensures OutputFingerprint(d, u) == OutputFingerprint(c, u) {}
    CurrencyDependsOn(c, d, other);
  }

  lemma RecordMakesCurrent(c: Context, agent: int)
    ensures IsCurrent(RecordProvenance(c, agent), agent)
    ensures forall other | other != agent :: SameRecord(c, RecordProvenance(c, agent), other)
    ensures forall other :: SameOutputs(c, RecordProvenance(c, agent), other)
  {
    assert UpstreamFingerprints(c, agent) == UpstreamFingerprints(RecordProvenance(c, agent), agent);
  }

  lemma RecordingKeepsStatus(c: Context, agent: int, other: int)
    requires Unrecorded(c, agent)
    ensures var d := RecordProvenance(c, agent);
            && d == c.(provenance := d.provenance)
            && (IsCurrent(d, other) <==> IsCurrent(c, other))
            && (Provenance(c, other).Some? ==> Provenance(d, other) == Provenance(c, other))
            && (other == agent ==> !Unrecorded(d, other))
            && (Unrecorded(d, other) ==> Unrecorded(c, other))
  {
    RecordMakesCurrent(c, agent);
    if other != agent {
      CurrencyDependsOn(c, RecordProvenance(c, agent), other);
    }
    assert c.invalidated - {agent} == c.invalidated;
  }

  /** Binding legacy results changes no status, touches nothing else and refreshes no existing version. */
  lemma {:induction false} InitializeKeepsStatus(c: Context, agents: seq<int>, other: int)
    ensures var d := InitializeAmong(c, agents);
            && d == c.(provenance := d.provenance)
            && (IsCurrent(d, other) <==> IsCurrent(c, other))
            && (Provenance(c, other).Some? ==> Provenance(d, other) == Provenance(c, other))
            && (other in agents ==> !Unrecorded(d, other))
  {
    if agents != [] {
      var front, agent := agents[..|agents| - 1], agents[|agents| - 1];
      InitializeKeepsStatus(c, front, other);
      assert agents == front + [agent];
      if Unrecorded(InitializeAmong(c, front), agent) {
        RecordingKeepsStatus(InitializeAmong(c, front), agent, other);
      }
    }
  }

  /**
   Binding a legacy context gives a version, of the present outputs, to exactly the agents of
   the pipeline that have an analysis, no mark and no version; every other version stays.
   */
  lemma InitializeBinds(c: Context, agent: int)
    ensures Provenance(Initialize(c), agent) ==
            if Provenance(c, agent).None? && agent in Order(c.groups)
               && agent !in c.invalidated && AgentValue(c.analyses, agent).Some?
            then Some(Version(UpstreamFingerprints(c, agent), OutputFingerprint(c, agent)))
            else Provenance(c, agent)
  {
    BindsAmong(c, Order(c.groups), agent);
  }

  lemma {:induction false} BindsAmong(c: Context, agents: seq<int>, agent: int)
    ensures Provenance(InitializeAmong(c, agents), agent) ==
            if Provenance(c, agent).None? && agent in agents
               && agent !in c.invalidated && AgentValue(c.analyses, agent).Some?
            then Some(Version(UpstreamFingerprints(c, agent), OutputFingerprint(c, agent)))
            else Provenance(c, agent)
  {
    if agents != [] {
      var front, last := agents[..|agents| - 1], agents[|agents| - 1];
      BindsAmong(c, front, agent);
      InitializeKeepsStatus(c, front, agent);
      BindsNext(c, InitializeAmong(c, front), last, agent);
      assert agents == front + [last];
    }
  }

  lemma BindsNext(c: Context, before: Context, last: int, agent: int)
    requires before == c.(provenance := before.provenance)
    ensures var after := if Unrecorded(before, last) then RecordProvenance(before, last) else before;
            Provenance(after, agent) ==
            if Provenance(before, agent).None? && agent == last
               && agent !in c.invalidated && AgentValue(c.analyses, agent).Some?
            then Some(Version(UpstreamFingerprints(c, agent), OutputFingerprint(c, agent)))
            else Provenance(before, agent)
  {
    assert UpstreamFingerprints(before, agent) == UpstreamFingerprints(c, agent);
  }

  // ----- evidence for digests

  function CurrentValues<V>(c: Context, agent: int, values: map<Key, V>): map<int, V> {
    map u | u in Upstream(c.groups, agent) && IsCurrent(c, u) && AgentValue(values, u).Some? ::
        AgentValue(values, u).value
  }

  /** The payload of `digest_input_hash`. */
  function DigestInputOf(c: Context, agent: int): DigestInput {
    DigestInput(DIGEST_SCHEMA, c.pipelineId, agent, Upstream(c.groups, agent), c.promptVersion, c.promptFingerprint,
                CurrentValues(c, agent, c.analyses), CurrentValues(c, agent, c.structured))
  }

  predicate DigestMatches(digest: Option<Digest>, input: DigestInput) {
    digest.Some? && digest.value.Versioned? && digest.value.schema == DIGEST_SCHEMA && digest.value.input == input
  }

  function FreshDigest(c: Context, agent: int): Option<Digest> {
    var digest := AgentValue(c.digests, agent);
    if DigestMatches(digest, DigestInputOf(c, agent)) then digest else None
  }

  /**
   A digest that is served as fresh was built from the present evidence: once the value of an
   upstream result it used has changed, it is not served again.
   */
  lemma ChangedEvidenceStalesDigest(c: Context, d: Context, agent: int, u: int)
    requires FreshDigest(c, agent).Some?
    requires AgentValue(d.digests, agent) == AgentValue(c.digests, agent)
    requires u in Upstream(c.groups, agent) && IsCurrent(c, u)
    requires || (AgentValue(c.analyses, u).Some? && AgentValue(d.analyses, u) != AgentValue(c.analyses, u))
             || (AgentValue(c.structured, u).Some? && AgentValue(d.structured, u) != AgentValue(c.structured, u))
    ensures FreshDigest(d, agent).None?
  {
    var was, now := DigestInputOf(c, agent), DigestInputOf(d, agent);
    if AgentValue(c.analyses, u).Some? && AgentValue(d.analyses, u) != AgentValue(c.analyses, u) {
      assert Some(was.analyses[u]) == AgentValue(c.analyses, u);
      assert u in now.analyses ==> Some(now.analyses[u]) == AgentValue(d.analyses, u);
    } else {
      assert Some(was.structured[u]) == AgentValue(c.structured, u);
      assert u in now.structured ==> Some(now.structured[u]) == AgentValue(d.structured, u);
    }
  }

  /** What an upstream agent contributes to digests: its values while it is current. */
  function Evidence(c: Context, u: int): (Option<Analysis>, Option<string>) {
    if IsCurrent(c, u) then (AgentValue(c.analyses, u), AgentValue(c.structured, u)) else (None, None)
  }

  lemma EvidenceDecides(c: Context, d: Context, agent: int)
    requires c.groups == d.groups
    ensures CurrentValues(c, agent, c.analyses) == CurrentValues(d, agent, d.analyses)
            && CurrentValues(c, agent, c.structured) == CurrentValues(d, agent, d.structured)
            <==> forall u | u in Upstream(c.groups, agent) :: Evidence(c, u) == Evidence(d, u)
  {
    var a, b := CurrentValues(c, agent, c.analyses), CurrentValues(d, agent, d.analyses);
    var s, t := CurrentValues(c, agent, c.structured), CurrentValues(d, agent, d.structured);
    if a == b && s == t {
      forall u | u in Upstream(c.groups, agent) ensures Evidence(c, u) == Evidence(d, u) {
        assert u in a <==> u in b;
        assert u in s <==> u in t;
      }
    }
    if forall u | u in Upstream(c.groups, agent) :: Evidence(c, u) == Evidence(d, u) {
      forall u ensures (u in a <==> u in b) && (u in a && u in b ==> a[u] == b[u]) && (u in s <==> u in t) &&
          (u in s && u in t ==> s[u] == t[u]) {
        assert u in Upstream(c.groups, agent) ==> Evidence(c, u) == Evidence(d, u);
      }
      assert a == b && s == t;
    }
  }

  /**
   A stored digest is served as fresh exactly when it has the present schema and pipeline,
   target, prompt revision and the evidence of every upstream agent are those it was built with.
   */
  lemma DigestServedIff(built: Context, now: Context, target: int, agent: int, schema: string, facts: string)
    requires AgentValue(now.digests, agent) == Some(Versioned(schema, DigestInputOf(built, target), facts))
    ensures now.groups == built.groups ==>
              (FreshDigest(now, agent).Some? <==>
                && schema == "context_digest.v2" && agent == target
                && now.pipelineId == built.pipelineId
                && now.promptVersion == built.promptVersion && now.promptFingerprint == built.promptFingerprint
                && forall u | u in Upstream(built.groups, agent) :: Evidence(built, u) == Evidence(now, u))
    ensures FreshDigest(now, agent).Some? ==>
              && FreshDigest(now, agent) == AgentValue(now.digests, agent)
              && Upstream(now.groups, agent) == Upstream(built.groups, agent)
  {
    if now.groups == built.groups {
      EvidenceDecides(built, now, agent);
    }
  }
}
