/**
 A repair round: one sweep in pipeline order that regenerates the requested and the stale
 agents, and expands to the downstream of every agent whose output really changed
 (backend/agent_runtime/repair_transaction.py, over backend/analysis_dependencies.py).
 */
module RepairRound {
  import opened Wrappers
  import opened Pipeline
  import opened AnalysisContext
  import opened Invalidation

  /** What the repair of an agent comes back with. */
  datatype Repair = Rejected | Produced(analysis: Analysis, structured: Option<string>)

  datatype Round = Round(context: Context, pending: set<int>, failed: seq<int>, completed: set<int>)

  /** The audit's requests, and those among them that must not fail. */
  datatype Audit = Audit(requests: set<int>, required: set<int>)

  function Begin(original: Context, audit: Audit): Round {
    var c := Initialize(original);
    Round(c, audit.requests + (set a | a in Stale(c)), [], {})
  }

  /** The candidate of a repair: every attempt starts without the agent's structured output. */
  function Install(c: Context, agent: int, repair: Repair): Context
    requires repair.Produced?
  {
    var cleared := c.structured - {IntKey(agent), TextKey(agent)};
    c.(analyses := c.analyses[IntKey(agent) := repair.analysis],
       structured := match repair.structured case None => cleared case Some(s) => cleared[IntKey(agent) := s])
  }

  /** The context once the new result is recorded, and its downstream dropped if the output is not `before`. */
  function Adopt(c: Context, agent: int, repair: Repair, before: Fingerprint): Context
    requires repair.Produced?
  {
    var recorded := RecordProvenance(Install(c, agent, repair), agent);
    if OutputFingerprint(recorded, agent) == before then recorded
    else Invalidate(InvalidateRag(recorded, {agent}), set a | a in Downstream(c.groups, agent))
  }

  function Visit(round: Round, agent: int, repair: Repair, before: Fingerprint, audit: Audit): Round {
    match repair
    case Rejected =>
      if agent in audit.required || agent in Stale(round.context)
          then round.(failed := round.failed + [agent]) else round
    case Produced(_, _) =>
      var changed := OutputFingerprint(Install(round.context, agent, repair), agent) != before;
      Round(Adopt(round.context, agent, repair, before),
            if changed then round.pending + (set a | a in Downstream(round.context.groups, agent)) else round.pending,
            round.failed,
            round.completed + {agent})
  }

  /** The round after the first n agents of the pipeline order; a failure ends the sweep. */
  function Sweep(original: Context, audit: Audit, repairs: int -> Repair, n: nat): Round
    requires n <= |Order(original.groups)|
  {
    if n == 0 then Begin(original, audit)
    else Step(original, audit, repairs, Sweep(original, audit, repairs, n - 1), Order(original.groups)[n - 1])
  }

  function Step(original: Context, audit: Audit, repairs: int -> Repair, round: Round, agent: int): Round {
    if round.failed != [] || agent !in round.pending then round
    else Visit(round, agent, repairs(agent), OutputFingerprint(original, agent), audit)
  }

  function FinalRound(original: Context, audit: Audit, repairs: int -> Repair): Round {
    Sweep(original, audit, repairs, |Order(original.groups)|)
  }

  lemma InitializeKeepsOutputs(c: Context)
    ensures Initialize(c).groups == c.groups
    ensures forall x :: OutputFingerprint(Initialize(c), x) == OutputFingerprint(c, x)
  {
    InitializeKeepsStatus(c, Order(c.groups), 0);
  }

  /** The round object, driven through its steps. */
  class RepairSweep {
    var round: Round
    const original: Context
    const audit: Audit
    const before: map<int, Fingerprint>

    constructor (original: Context, audit: Audit)
      ensures this.original == original && this.audit == audit
      ensures round == Begin(original, audit)
      ensures before == map a | a in Order(original.groups) :: OutputFingerprint(original, a)
    {
      this.original, this.audit := original, audit;
      var store := new AnalysisStore(original);
      store.InitializeResultProvenance();
      round := Round(store.ctx, audit.requests + (set a | a in Stale(store.ctx)), [], {});
      before := map a | a in Order(original.groups) :: OutputFingerprint(store.ctx, a);
      new;
      InitializeKeepsOutputs(original);
    }

    method Accept(agent: int, repair: Repair)
      requires agent in before
      modifies this`round
      ensures round == Visit(old(round), agent, repair, before[agent], audit)
    {
      match repair
      case Rejected =>
        if agent in audit.required || agent in Stale(round.context) {
          round := round.(failed := round.failed + [agent]);
        }
      case Produced(_, _) =>
        var store := new AnalysisStore(Install(round.context, agent, repair));
        var pending := round.pending;
        store.RecordResultProvenance(agent);
        if OutputFingerprint(store.ctx, agent) != before[agent] {
          store.InvalidateAnalysisRag({agent});
          var descendants := set a | a in Downstream(store.ctx.groups, agent);
          pending := pending + descendants;
          store.InvalidateAnalysisResults(descendants);
        }
        round := Round(store.ctx, pending, round.failed, round.completed + {agent});
    }

    /** The steps of the round and its outcome: whether the repaired context may be committed. */
    method Run(repairs: int -> Repair) returns (committed: bool)
      requires before == map a | a in Order(original.groups) :: OutputFingerprint(original, a)
      requires round == Begin(original, audit)
      modifies this`round
      ensures round == FinalRound(original, audit, repairs)
      ensures committed <==> round.failed == [] && Stale(round.context) == []
    {
      var order := Order(original.groups);
      var i := 0;
      while i < |order| && round.failed == []
        invariant 0 <= i <= |order|
        invariant round == Sweep(original, audit, repairs, i)
      {
        if order[i] in round.pending {
          Accept(order[i], repairs(order[i]));
        }
        i := i + 1;
      }
      FailureEndsSweep(original, audit, repairs, i);
      return round.failed == [] && Stale(round.context) == [];
    }
  }

  lemma {:induction false} FailureEndsSweep(original: Context, audit: Audit, repairs: int -> Repair, n: nat)
    requires n <= |Order(original.groups)|
    requires n == |Order(original.groups)| || Sweep(original, audit, repairs, n).failed != []
    ensures FinalRound(original, audit, repairs) == Sweep(original, audit, repairs, n)
    decreases |Order(original.groups)| - n
  {
    if n < |Order(original.groups)| {
      FailureEndsSweep(original, audit, repairs, n + 1);
    }
  }

  // ----- one adoption

  /** What the status of every agent depends on, before and after: versions, invalidation marks and outputs. */
  ghost predicate SameResult(c: Context, d: Context, x: int) {
    SameRecord(c, d, x) && OutputFingerprint(c, x) == OutputFingerprint(d, x)
  }

  lemma InstallAt(c: Context, agent: int, repair: Repair, x: int)
    requires repair.Produced?
    ensures var d := Install(c, agent, repair);
            SameRecord(c, d, x) && (x != agent ==> SameResult(c, d, x))
  {
  }

  /** A candidate holds what the repair produced, and no structured output unless it produced one. */
  lemma InstallReads(c: Context, agent: int, repair: Repair)
    requires repair.Produced?
    ensures var d := Install(c, agent, repair);
            && AgentValue(d.analyses, agent) == Some(repair.analysis)
            && AgentValue(d.structured, agent) == repair.structured
            && OutputFingerprint(d, agent) == Fingerprint(repair.analysis.body, repair.structured)
  {
  }

  lemma RecordAt(c: Context, agent: int, x: int)
    ensures var d := RecordProvenance(c, agent);
            && d.groups == c.groups && OutputFingerprint(c, x) == OutputFingerprint(d, x)
            && (x != agent ==> SameResult(c, d, x))
            && agent !in d.invalidated
            && Provenance(d, agent) == Some(Version(UpstreamFingerprints(c, agent), OutputFingerprint(c, agent)))
  {
  }

  lemma RagAt(c: Context, agents: set<int>, x: int)
    ensures SameResult(c, InvalidateRag(c, agents), x)
  {
  }

  lemma DropAt(c: Context, agents: set<int>, x: int)
    ensures Invalidate(c, agents).groups == c.groups
    ensures x !in agents ==> SameResult(c, Invalidate(c, agents), x)
    ensures x in agents ==> x in Invalidate(c, agents).invalidated
  {
    if x !in agents {
      InvalidationFrame(c, agents, x);
    }
  }

  /** An adoption touches the agent, and its downstream if the output changed; nothing else. */
  lemma AdoptAt(c: Context, agent: int, repair: Repair, before: Fingerprint, x: int)
    requires repair.Produced? && agent in Order(c.groups)
    ensures var d, installed := Adopt(c, agent, repair, before), OutputFingerprint(Install(c, agent, repair), agent);
            && d.groups == c.groups
            && (x != agent && (x !in Downstream(c.groups, agent) || installed == before) ==> SameResult(c, d, x))
            && (x == agent ==>
                  && x !in d.invalidated && OutputFingerprint(d, x) == installed
                  && Provenance(d, x) == Some(Version(UpstreamFingerprints(Install(c, agent, repair), agent),
                      installed)))
  {
    var installed := Install(c, agent, repair);
    var recorded := RecordProvenance(installed, agent);
    var dropped := InvalidateRag(recorded, {agent});
    var descendants := set a | a in Downstream(c.groups, agent);
    UpstreamIsEarlierGroup(c.groups, agent, agent);
    InstallAt(c, agent, repair, x);
    RecordAt(installed, agent, x);
    RagAt(recorded, {agent}, x);
    DropAt(dropped, descendants, x);
  }

  /** Outside the downstream of the agent, an adopted result disturbs nothing. */
  lemma AdoptIsLocal(c: Context, agent: int, repair: Repair, before: Fingerprint, x: int)
    requires repair.Produced? && agent in Order(c.groups) && x in Order(c.groups)
    requires x != agent && x !in Downstream(c.groups, agent)
    ensures var d := Adopt(c, agent, repair, before);
            SameRecord(c, d, x) && SameOutputs(c, d, x)
  {
    var d := Adopt(c, agent, repair, before);
    AdoptAt(c, agent, repair, before, x);
    forall u | u in Upstream(c.groups, x) ensures OutputFingerprint(c, u) == OutputFingerprint(d, u) {
      UpstreamIsEarlierGroup(c.groups, x, u);
      if u in Downstream(c.groups, agent) {
        UpstreamIsTransitive(c.groups, agent, u, x);
      }
      AdoptAt(c, agent, repair, before, u);
    }
  }

  /** The adopted result itself is current. */
  lemma AdoptMakesCurrent(c: Context, agent: int, repair: Repair, before: Fingerprint)
    requires repair.Produced? && agent in Order(c.groups)
    ensures IsCurrent(Adopt(c, agent, repair, before), agent)
  {
    var d, installed := Adopt(c, agent, repair, before), Install(c, agent, repair);
    AdoptAt(c, agent, repair, before, agent);
    forall u | u in Upstream(c.groups, agent) ensures OutputFingerprint(d, u) == OutputFingerprint(installed, u) {
      UpstreamIsNotDownstream(c.groups, agent, u);
      AdoptAt(c, agent, repair, before, u);
      InstallAt(c, agent, repair, u);
    }
    assert UpstreamFingerprints(d, agent) == UpstreamFingerprints(installed, agent);
  }

  // ----- the sweep

  /** What holds when a round begins and is kept by every step holds throughout the sweep. */
  lemma {:induction false} SweepInduction(original: Context, audit: Audit, repairs: int -> Repair,
                                          inv: (Round, nat) -> bool, n: nat)
    requires n <= |Order(original.groups)|
    requires inv(Begin(original, audit), 0)
    requires forall r, k: nat | k < |Order(original.groups)| && inv(r, k) ::
               inv(Step(original, audit, repairs, r, Order(original.groups)[k]), k + 1)
    ensures inv(Sweep(original, audit, repairs, n), n)
  {
    if n > 0 {
      SweepInduction(original, audit, repairs, inv, n - 1);
    }
  }

  /** The agent's version and everything it depends on are as when the round began. */
  ghost predicate Untouched(original: Context, c: Context, x: int) {
    SameRecord(Initialize(original), c, x) && SameOutputs(Initialize(original), c, x)
  }

  ghost predicate SweptTo(original: Context, audit: Audit, round: Round, n: nat) {
    var order := Order(original.groups);
    && n <= |order|
    && round.context.groups == original.groups
    && Begin(original, audit).pending <= round.pending
    && (forall j | 0 <= j < n :: IsCurrent(round.context, order[j]))
    && (forall j | n <= j < |order| && order[j] !in round.pending :: Untouched(original, round.context, order[j]))
  }

  lemma VisitKeepsSwept(original: Context, audit: Audit, round: Round, n: nat, repair: Repair)
    requires Distinct(Order(original.groups)) && n < |Order(original.groups)|
    requires SweptTo(original, audit, round, n) && round.failed == []
    requires Order(original.groups)[n] in round.pending
    requires repair.Produced?
    ensures SweptTo(original, audit,
                    Visit(round, Order(original.groups)[n], repair,
                        OutputFingerprint(original, Order(original.groups)[n]), audit), n + 1)
  {
    var order, c := Order(original.groups), round.context;
    var agent := order[n];
    var before := OutputFingerprint(original, agent);
    var after := Visit(round, agent, repair, before, audit);
    AdoptMakesCurrent(c, agent, repair, before);
    AdoptAt(c, agent, repair, before, agent);
    forall j | 0 <= j < n ensures IsCurrent(after.context, order[j]) {
      if agent in Upstream(c.groups, order[j]) {
        UpstreamComesFirst(c.groups, n, j);
      }
      AdoptIsLocal(c, agent, repair, before, order[j]);
      CurrencyDependsOn(c, after.context, order[j]);
    }
    forall j | n < j < |order| && order[j] !in after.pending ensures Untouched(original, after.context, order[j]) {
      UntouchedStays(original, audit, round, n, repair, order[j]);
    }
  }

  lemma UntouchedStays(original: Context, audit: Audit, round: Round, n: nat, repair: Repair, x: int)
    requires n < |Order(original.groups)| && repair.Produced?
    requires round.context.groups == original.groups
    requires x in Order(original.groups) && x != Order(original.groups)[n]
    requires Untouched(original, round.context, x)
    requires var agent := Order(original.groups)[n];
             x !in Visit(round, agent, repair, OutputFingerprint(original, agent), audit).pending
    ensures var agent := Order(original.groups)[n];
            Untouched(original, Visit(round, agent, repair, OutputFingerprint(original, agent), audit).context, x)
  {
    var agent, c := Order(original.groups)[n], round.context;
    var before := OutputFingerprint(original, agent);
    if x !in Downstream(c.groups, agent) {
      AdoptIsLocal(c, agent, repair, before, x);
    } else {
      UnchangedAdoptKeeps(original, c, agent, repair, x);
    }
  }

  /** A repair that reproduces the original output keeps untouched even its downstream. */
  lemma UnchangedAdoptKeeps(original: Context, c: Context, agent: int, repair: Repair, x: int)
    requires repair.Produced? && agent in Order(c.groups) && x != agent
    requires Untouched(original, c, x)
    requires OutputFingerprint(Install(c, agent, repair), agent) == OutputFingerprint(original, agent)
    ensures Untouched(original, Adopt(c, agent, repair, OutputFingerprint(original, agent)), x)
  {
    var before, begun := OutputFingerprint(original, agent), Initialize(original);
    var d := Adopt(c, agent, repair, before);
    InitializeKeepsStatus(original, Order(original.groups), agent);
    AdoptAt(c, agent, repair, before, x);
    forall u | u in Upstream(c.groups, x) ensures OutputFingerprint(begun, u) == OutputFingerprint(d, u) {
      AdoptAt(c, agent, repair, before, u);
    }
  }

  lemma StepKeepsSwept(original: Context, audit: Audit, repairs: int -> Repair, round: Round, n: nat)
    requires Distinct(Order(original.groups)) && n < |Order(original.groups)|
    requires SweptTo(original, audit, round, n) && round.failed == []
    requires Step(original, audit, repairs, round, Order(original.groups)[n]).failed == []
    ensures SweptTo(original, audit, Step(original, audit, repairs, round, Order(original.groups)[n]), n + 1)
  {
    var agent := Order(original.groups)[n];
    if agent !in round.pending {
      CurrencyDependsOn(Initialize(original), round.context, agent);
    } else if repairs(agent).Produced? {
      VisitKeepsSwept(original, audit, round, n, repairs(agent));
    }
  }

  lemma SweepLeavesCurrent(original: Context, audit: Audit, repairs: int -> Repair, n: nat)
    requires Distinct(Order(original.groups)) && n <= |Order(original.groups)|
    requires Sweep(original, audit, repairs, n).failed == []
    ensures SweptTo(original, audit, Sweep(original, audit, repairs, n), n)
  {
    var inv := (r: Round, k: nat) => r.failed == [] ==> SweptTo(original, audit, r, k);
    InitializeKeepsOutputs(original);
    forall r, k: nat | k < |Order(original.groups)| && inv(r, k)
      ensures inv(Step(original, audit, repairs, r, Order(original.groups)[k]), k + 1)
    {
      if Step(original, audit, repairs, r, Order(original.groups)[k]).failed == [] {
        StepKeepsSwept(original, audit, repairs, r, k);
      }
    }
    SweepInduction(original, audit, repairs, inv, n);
  }

  lemma {:induction false} AllCurrentMeansNoneStale(c: Context, agents: seq<int>)
    requires forall j | 0 <= j < |agents| :: IsCurrent(c, agents[j])
    ensures StaleAmong(c, agents) == []
  {
    if agents != [] {
      AllCurrentMeansNoneStale(c, agents[1..]);
    }
  }

  /**
   One pass in pipeline order repairs everything: whatever was stale at the start and
   whatever the repairs produce, a round without a failure leaves no stale agent. The
   staleness test of the commit can therefore refuse only a round that also failed.
   */
  lemma RoundRepairsEverything(original: Context, audit: Audit, repairs: int -> Repair)
    requires Distinct(Order(original.groups))
    ensures var final := FinalRound(original, audit, repairs);
            final.failed == [] ==> Stale(final.context) == []
  {
    if FinalRound(original, audit, repairs).failed == [] {
      SweepLeavesCurrent(original, audit, repairs, |Order(original.groups)|);
      AllCurrentMeansNoneStale(FinalRound(original, audit, repairs).context, Order(original.groups));
    }
  }

  /** A rejected repair fails the round if it was required, or leaves a stale result behind. */
  ghost predicate Fails(audit: Audit, repairs: int -> Repair, round: Round, x: int) {
    x in round.pending && repairs(x).Rejected? && (x in audit.required || x in Stale(round.context))
  }

  /** Unless the round failed, each of the first n agents is completed exactly if it is pending and was produced. */
  ghost predicate Accounted(original: Context, audit: Audit, repairs: int -> Repair, round: Round, n: nat) {
    var order := Order(original.groups);
    && n <= |order| && round.context.groups == original.groups
    && (forall y | y in round.completed :: y in order[..n] && Repaired(repairs, round.context, y))
    && (round.failed == [] ==> forall j | 0 <= j < n ::
          && (order[j] in round.completed <==> order[j] in round.pending && repairs(order[j]).Produced?)
          && (order[j] in round.pending && repairs(order[j]).Rejected? ==> order[j] !in audit.required))
    && (round.failed != [] ==> exists x | x in order :: Fails(audit, repairs, round, x))
  }

  /** The agent's output is the one its repair produced. */
  ghost predicate Repaired(repairs: int -> Repair, c: Context, y: int) {
    repairs(y).Produced? && OutputFingerprint(c, y) == Fingerprint(repairs(y).analysis.body, repairs(y).structured)
  }

  /** A visit calls for no agent at or before its position. */
  lemma PendingBefore(original: Context, audit: Audit, round: Round, n: nat, repair: Repair, j: nat)
    requires Distinct(Order(original.groups)) && j <= n < |Order(original.groups)|
    requires round.context.groups == original.groups && repair.Produced?
    ensures var agent := Order(original.groups)[n];
            var after := Visit(round, agent, repair, OutputFingerprint(original, agent), audit);
            Order(original.groups)[j] in after.pending <==> Order(original.groups)[j] in round.pending
  {
    var order := Order(original.groups);
    if order[j] in Downstream(original.groups, order[n]) {
      UpstreamComesFirst(original.groups, n, j);
    }
  }

  /** It leaves the agent, and everyone completed before, with the output of their repair. */
  lemma VisitRepairs(original: Context, repairs: int -> Repair, c: Context, n: nat, y: int)
    requires Distinct(Order(original.groups)) && n < |Order(original.groups)| && c.groups == original.groups
    requires repairs(Order(original.groups)[n]).Produced? && y in Order(original.groups)[..n + 1]
    requires y in Order(original.groups)[..n] ==> Repaired(repairs, c, y)
    ensures var agent := Order(original.groups)[n];
            Repaired(repairs, Adopt(c, agent, repairs(agent), OutputFingerprint(original, agent)), y)
  {
    var order := Order(original.groups);
    var before := OutputFingerprint(original, order[n]);
    if y in order[..n] {
      EarlierOutputStays(c, n, repairs(order[n]), before, y);
    } else {
      assert order[..n + 1] == order[..n] + [order[n]];
      AdoptAt(c, y, repairs(y), before, y);
      InstallReads(c, y, repairs(y));
    }
  }

  lemma AccountsNext(original: Context, audit: Audit, repairs: int -> Repair, round: Round, after: Round, n: nat)
    requires Distinct(Order(original.groups)) && n < |Order(original.groups)|
    requires Accounted(original, audit, repairs, round, n) && round.failed == []
    requires Order(original.groups)[n] in round.pending && repairs(Order(original.groups)[n]).Produced?
    requires after.context.groups == original.groups && after.failed == []
    requires after.completed == round.completed + {Order(original.groups)[n]}
    requires forall y | y in after.completed :: Repaired(repairs, after.context, y)
    requires forall j: nat | j <= n ::
               Order(original.groups)[j] in after.pending <==> Order(original.groups)[j] in round.pending
    ensures Accounted(original, audit, repairs, after, n + 1)
  {
    var order := Order(original.groups);
    assert order[..n + 1] == order[..n] + [order[n]];
  }

  lemma VisitAccounts(original: Context, audit: Audit, repairs: int -> Repair, round: Round, n: nat)
    requires Distinct(Order(original.groups)) && n < |Order(original.groups)|
    requires Accounted(original, audit, repairs, round, n) && round.failed == []
    requires Order(original.groups)[n] in round.pending && repairs(Order(original.groups)[n]).Produced?
    ensures Accounted(original, audit, repairs,
                      Step(original, audit, repairs, round, Order(original.groups)[n]), n + 1)
  {
    var order := Order(original.groups);
    var agent := order[n];
    var after := Step(original, audit, repairs, round, agent);
    AdoptAt(round.context, agent, repairs(agent), OutputFingerprint(original, agent), agent);
    forall y | y in after.completed ensures Repaired(repairs, after.context, y) {
      assert order[..n + 1] == order[..n] + [agent];
      VisitRepairs(original, repairs, round.context, n, y);
    }
    forall j: nat | j <= n ensures order[j] in after.pending <==> order[j] in round.pending {
      PendingBefore(original, audit, round, n, repairs(agent), j);
    }
    AccountsNext(original, audit, repairs, round, after, n);
  }

  lemma StepAccounts(original: Context, audit: Audit, repairs: int -> Repair, round: Round, n: nat)
    requires Distinct(Order(original.groups)) && n < |Order(original.groups)|
    requires Accounted(original, audit, repairs, round, n)
    ensures Accounted(original, audit, repairs,
                      Step(original, audit, repairs, round, Order(original.groups)[n]), n + 1)
  {
    var order := Order(original.groups);
    var agent := order[n];
    if round.failed == [] && agent in round.pending && repairs(agent).Produced? {
      VisitAccounts(original, audit, repairs, round, n);
    } else {
      var after := Step(original, audit, repairs, round, agent);
      assert order[..n + 1] == order[..n] + [agent];
      assert agent !in order[..n];
      if round.failed == [] && after.failed != [] {
        assert Fails(audit, repairs, after, agent);
      } else if round.failed != [] {
        assert after == round;
      }
    }
  }

  lemma SweepAccounts(original: Context, audit: Audit, repairs: int -> Repair)
    requires Distinct(Order(original.groups))
    ensures Accounted(original, audit, repairs, FinalRound(original, audit, repairs), |Order(original.groups)|)
  {
    var inv := (r: Round, k: nat) => Accounted(original, audit, repairs, r, k);
    InitializeKeepsOutputs(original);
    forall r, k: nat | k < |Order(original.groups)| && inv(r, k)
      ensures inv(Step(original, audit, repairs, r, Order(original.groups)[k]), k + 1)
    {
      StepAccounts(original, audit, repairs, r, k);
    }
    SweepInduction(original, audit, repairs, inv, |Order(original.groups)|);
  }

  /**
   A round fails exactly if some pending agent's repair was rejected although it was required
   or its result is stale. Whoever it completes has the output its repair produced, and unless
   it fails it completes every pending agent whose repair produced a result.
   */
  lemma RoundFailsIff(original: Context, audit: Audit, repairs: int -> Repair)
    requires Distinct(Order(original.groups))
    ensures var final := FinalRound(original, audit, repairs);
            && (final.failed != [] <==> exists x | x in Order(original.groups) ::
                  && x in final.pending && repairs(x).Rejected?
                  && (x in audit.required || x in Stale(final.context)))
            && (forall x | x in final.completed :: Repaired(repairs, final.context, x))
            && (final.failed == [] ==> forall x | x in Order(original.groups) ::
                  x in final.completed <==> x in final.pending && repairs(x).Produced?)
  {
    SweepAccounts(original, audit, repairs);
    RoundRepairsEverything(original, audit, repairs);
    var order, final := Order(original.groups), FinalRound(original, audit, repairs);
    if final.failed == [] {
      forall x | x in order
        ensures !Fails(audit, repairs, final, x)
        ensures x in final.completed <==> x in final.pending && repairs(x).Produced?
      {
        var j :| 0 <= j < |order| && order[j] == x;
      }
    } else {
      var x :| x in order && Fails(audit, repairs, final, x);
    }
  }

  /** The context after these agents have been visited in order, each stale one merely regenerated and recorded. */
  function Regenerated(c: Context, repairs: int -> Repair, agents: seq<int>): Context
    decreases |agents|
  {
    if agents == [] then c
    else
      var agent := agents[0];
      if IsCurrent(c, agent) || repairs(agent).Rejected? then Regenerated(c, repairs, agents[1..])
      else Regenerated(RecordProvenance(Install(c, agent, repairs(agent)), agent), repairs, agents[1..])
  }

  ghost predicate CurrentUpTo(c: Context, order: seq<int>, n: nat) {
    n <= |order| && Order(c.groups) == order && forall j | 0 <= j < n :: IsCurrent(c, order[j])
  }

  /**
   Without any invalidation, too, one pass in pipeline order leaves no stale agent if every
   repair produces a result.
   */
  lemma OnePassRegenerates(c: Context, repairs: int -> Repair)
    requires Distinct(Order(c.groups)) && forall a :: repairs(a).Produced?
    ensures Stale(Regenerated(c, repairs, Order(c.groups))) == []
  {
    var order := Order(c.groups);
    assert order[0..] == order;
    RegenerateFrom(c, repairs, order, 0);
    AllCurrentMeansNoneStale(Regenerated(c, repairs, order), order);
  }

  lemma {:induction false} RegenerateFrom(c: Context, repairs: int -> Repair, order: seq<int>, n: nat)
    requires Distinct(order) && (forall a :: repairs(a).Produced?) && CurrentUpTo(c, order, n)
    ensures CurrentUpTo(Regenerated(c, repairs, order[n..]), order, |order|)
    decreases |order| - n
  {
    if n < |order| {
      assert order[n..][1..] == order[n + 1..];
      if IsCurrent(c, order[n]) {
        RegenerateFrom(c, repairs, order, n + 1);
      } else {
        RegenerateStep(c, repairs(order[n]), n);
        RegenerateFrom(RecordProvenance(Install(c, order[n], repairs(order[n])), order[n]), repairs, order, n + 1);
      }
    }
  }

  lemma RegenerateStep(c: Context, repair: Repair, n: nat)
    requires Distinct(Order(c.groups)) && n < |Order(c.groups)| && repair.Produced?
    requires CurrentUpTo(c, Order(c.groups), n)
    ensures var agent := Order(c.groups)[n];
            CurrentUpTo(RecordProvenance(Install(c, agent, repair), agent), Order(c.groups), n + 1)
  {
    var agent := Order(c.groups)[n];
    var installed := OutputFingerprint(Install(c, agent, repair), agent);
    var d := Adopt(c, agent, repair, installed);
    RecordAt(Install(c, agent, repair), agent, agent);
    AdoptMakesCurrent(c, agent, repair, installed);
    forall j | 0 <= j < n ensures IsCurrent(d, Order(c.groups)[j]) {
      if agent in Upstream(c.groups, Order(c.groups)[j]) {
        UpstreamComesFirst(c.groups, n, j);
      }
      AdoptIsLocal(c, agent, repair, installed, Order(c.groups)[j]);
      CurrencyDependsOn(c, d, Order(c.groups)[j]);
    }
  }

  // ----- nothing more than needed

  /**
   Why an agent may be rebuilt: requested, stale from the start, or downstream of a rebuilt
   agent whose output changed.
   */
  ghost predicate Called(original: Context, audit: Audit, round: Round, x: int) {
    || x in audit.requests
    || x in Stale(Initialize(original))
    || exists y | y in round.completed ::
         y in Upstream(original.groups, x) && OutputFingerprint(round.context, y) != OutputFingerprint(original, y)
  }

  ghost predicate Economical(original: Context, audit: Audit, round: Round, n: nat) {
    var order := Order(original.groups);
    && n <= |order|
    && round.context.groups == original.groups
    && (forall y | y in round.completed :: y in order[..n] && y in round.pending)
    && (forall x | x in round.pending :: Called(original, audit, round, x))
  }

  lemma EarlierOutputStays(c: Context, n: nat, repair: Repair, before: Fingerprint, y: int)
    requires Distinct(Order(c.groups)) && n < |Order(c.groups)| && repair.Produced?
    requires y in Order(c.groups)[..n]
    ensures OutputFingerprint(Adopt(c, Order(c.groups)[n], repair, before), y) == OutputFingerprint(c, y)
  {
    var order := Order(c.groups);
    var k :| 0 <= k < n && order[k] == y;
    if y in Downstream(c.groups, order[n]) {
      UpstreamComesFirst(c.groups, n, k);
    }
    AdoptAt(c, order[n], repair, before, y);
  }

  lemma VisitIsEconomical(original: Context, audit: Audit, round: Round, n: nat, repair: Repair)
    requires Distinct(Order(original.groups)) && n < |Order(original.groups)|
    requires Economical(original, audit, round, n)
    requires Order(original.groups)[n] in round.pending && repair.Produced?
    ensures Economical(original, audit,
                       Visit(round, Order(original.groups)[n], repair,
                           OutputFingerprint(original, Order(original.groups)[n]), audit), n + 1)
  {
    var order, c := Order(original.groups), round.context;
    var agent := order[n];
    var before := OutputFingerprint(original, agent);
    var after := Visit(round, agent, repair, before, audit);
    AdoptAt(c, agent, repair, before, agent);
    assert order[..n + 1] == order[..n] + [agent];
    forall y | y in round.completed && y != agent
      ensures OutputFingerprint(after.context, y) == OutputFingerprint(c, y)
    {
      EarlierOutputStays(c, n, repair, before, y);
    }
    forall x | x in after.pending ensures Called(original, audit, after, x) {
      if x in round.pending {
        CallStands(original, audit, round, after, x, n);
      } else {
        assert agent in after.completed && agent in Upstream(original.groups, x);
      }
    }
  }

  lemma CallStands(original: Context, audit: Audit, round: Round, after: Round, x: int, n: nat)
    requires Distinct(Order(original.groups)) && n < |Order(original.groups)|
    requires forall y | y in round.completed :: y in Order(original.groups)[..n]
    requires round.completed <= after.completed
    requires forall y | y in round.completed && y != Order(original.groups)[n] ::
               OutputFingerprint(after.context, y) == OutputFingerprint(round.context, y)
    requires Called(original, audit, round, x)
    ensures Called(original, audit, after, x)
  {
    if x !in audit.requests && x !in Stale(Initialize(original)) {
      var y :| y in round.completed && y in Upstream(original.groups, x)
               && OutputFingerprint(round.context, y) != OutputFingerprint(original, y);
      assert y in Order(original.groups)[..n];
      assert y in after.completed;
    }
  }

  lemma SweepIsEconomical(original: Context, audit: Audit, repairs: int -> Repair, n: nat)
    requires Distinct(Order(original.groups)) && n <= |Order(original.groups)|
    ensures Economical(original, audit, Sweep(original, audit, repairs, n), n)
  {
    var inv := (r: Round, k: nat) => Economical(original, audit, r, k);
    BeginIsEconomical(original, audit);
    forall r, k: nat | k < |Order(original.groups)| && inv(r, k)
      ensures inv(Step(original, audit, repairs, r, Order(original.groups)[k]), k + 1)
    {
      StepIsEconomical(original, audit, repairs, r, k);
    }
    SweepInduction(original, audit, repairs, inv, n);
  }

  lemma BeginIsEconomical(original: Context, audit: Audit)
    ensures Economical(original, audit, Begin(original, audit), 0)
  {
    InitializeKeepsOutputs(original);
  }

  lemma StepIsEconomical(original: Context, audit: Audit, repairs: int -> Repair, round: Round, n: nat)
    requires Distinct(Order(original.groups)) && n < |Order(original.groups)|
    requires Economical(original, audit, round, n)
    ensures Economical(original, audit, Step(original, audit, repairs, round, Order(original.groups)[n]), n + 1)
  {
    var order := Order(original.groups);
    var after := Step(original, audit, repairs, round, order[n]);
    assert order[..n + 1] == order[..n] + [order[n]];
    if round.failed == [] && order[n] in round.pending && repairs(order[n]).Produced? {
      VisitIsEconomical(original, audit, round, n, repairs(order[n]));
    } else {
      forall x | x in after.pending ensures Called(original, audit, after, x) {
        CallStands(original, audit, round, after, x, n);
      }
    }
  }

  ghost predicate KeptOrDropped(original: Context, round: Round, x: int) {
    || x in round.completed
    || x in round.context.invalidated
    || OutputFingerprint(round.context, x) == OutputFingerprint(original, x)
  }

  lemma VisitKeepsOrDrops(original: Context, audit: Audit, round: Round, agent: int, repair: Repair, x: int)
    requires round.context.groups == original.groups
    requires repair.Produced? && agent in Order(original.groups)
    requires KeptOrDropped(original, round, x)
    ensures var after := Visit(round, agent, repair, OutputFingerprint(original, agent), audit);
            after.context.groups == original.groups && KeptOrDropped(original, after, x)
  {
    AdoptAt(round.context, agent, repair, OutputFingerprint(original, agent), x);
    AdoptDrops(round.context, agent, repair, OutputFingerprint(original, agent), x);
  }

  lemma SweepKeepsOthers(original: Context, audit: Audit, repairs: int -> Repair, n: nat, x: int)
    requires n <= |Order(original.groups)|
    ensures Sweep(original, audit, repairs, n).context.groups == original.groups
    ensures KeptOrDropped(original, Sweep(original, audit, repairs, n), x)
  {
    var inv := (r: Round, k: nat) => r.context.groups == original.groups && KeptOrDropped(original, r, x);
    InitializeKeepsOutputs(original);
    forall r, k: nat | k < |Order(original.groups)| && inv(r, k)
      ensures inv(Step(original, audit, repairs, r, Order(original.groups)[k]), k + 1)
    {
      StepKeepsOrDrops(original, audit, repairs, r, Order(original.groups)[k], x);
    }
    SweepInduction(original, audit, repairs, inv, n);
  }

  lemma StepKeepsOrDrops(original: Context, audit: Audit, repairs: int -> Repair, round: Round, agent: int, x: int)
    requires round.context.groups == original.groups && agent in Order(original.groups)
    requires KeptOrDropped(original, round, x)
    ensures var after := Step(original, audit, repairs, round, agent);
            after.context.groups == original.groups && KeptOrDropped(original, after, x)
  {
    if round.failed == [] && agent in round.pending && repairs(agent).Produced? {
      VisitKeepsOrDrops(original, audit, round, agent, repairs(agent), x);
    }
  }

  lemma AdoptDrops(c: Context, agent: int, repair: Repair, before: Fingerprint, x: int)
    requires repair.Produced?
    ensures var d := Adopt(c, agent, repair, before);
            x in Downstream(c.groups, agent) && OutputFingerprint(Install(c, agent, repair), agent) != before ==>
                x in d.invalidated
  {
    var recorded := RecordProvenance(Install(c, agent, repair), agent);
    RecordAt(Install(c, agent, repair), agent, agent);
    DropAt(InvalidateRag(recorded, {agent}), (set a | a in Downstream(c.groups, agent)), x);
  }

  /**
   A round rebuilds an agent only when called for: because it was requested or stale, or
   because an upstream agent was rebuilt with a different output. Every agent a successful
   round does not rebuild keeps its output.
   */
  lemma RoundRebuildsOnlyCalled(original: Context, audit: Audit, repairs: int -> Repair, x: int)
    requires Distinct(Order(original.groups)) && x in Order(original.groups)
    ensures var final := FinalRound(original, audit, repairs);
            if x in final.completed then Called(original, audit, final, x)
            else final.failed == [] ==> OutputFingerprint(final.context, x) == OutputFingerprint(original, x)
  {
    var n := |Order(original.groups)|;
    SweepIsEconomical(original, audit, repairs, n);
    SweepKeepsOthers(original, audit, repairs, n, x);
    RoundRepairsEverything(original, audit, repairs);
    var final := FinalRound(original, audit, repairs);
    assert final.failed == [] ==> x !in Stale(final.context);
  }

  // ----- the retrieval index

  ghost function ChunkCount(c: Context, chunk: Chunk): nat {
    if c.ragIndex.Some? then multiset(c.ragIndex.value.chunks)[chunk] else 0
  }

  ghost predicate OwnedByOne(chunk: Chunk, x: int) {
    chunk.analysisSource && (chunk.owner == IntKey(x) || chunk.owner == TextKey(x))
  }

  lemma RagCount(c: Context, agents: set<int>, chunk: Chunk)
    ensures ChunkCount(InvalidateRag(c, agents), chunk) ==
            if exists x | x in agents :: OwnedByOne(chunk, x) then 0 else ChunkCount(c, chunk)
  {
    if c.ragIndex.Some? {
      ChunksKept(c.ragIndex.value.chunks, agents, chunk);
      if ChunkOwnedBy(chunk, agents) {
        assert OwnedByOne(chunk, chunk.owner.agent);
      }
    }
  }

  lemma DropCount(c: Context, agents: set<int>, chunk: Chunk)
    ensures ChunkCount(Invalidate(c, agents), chunk) ==
            if exists x | x in agents :: OwnedByOne(chunk, x) then 0 else ChunkCount(c, chunk)
  {
    if agents != {} {
      RagCount(DropSections(c, agents), agents, chunk);
    }
  }

  /**
   An adopted result with another output takes its own chunks and those of its downstream out
   of the index, and no other; one with the same output takes none.
   */
  lemma AdoptDropsChunks(c: Context, agent: int, repair: Repair, before: Fingerprint, chunk: Chunk)
    requires repair.Produced?
    ensures var d := Adopt(c, agent, repair, before);
            ChunkCount(d, chunk) ==
            if OutputFingerprint(Install(c, agent, repair), agent) != before
               && (OwnedByOne(chunk, agent) || exists x | x in Downstream(c.groups, agent) :: OwnedByOne(chunk, x))
            then 0 else ChunkCount(c, chunk)
  {
    var recorded := RecordProvenance(Install(c, agent, repair), agent);
    var descendants := set a | a in Downstream(c.groups, agent);
    RecordAt(Install(c, agent, repair), agent, agent);
    RagCount(recorded, {agent}, chunk);
    DropCount(InvalidateRag(recorded, {agent}), descendants, chunk);
    assert agent in {agent};
    assert forall x :: x in descendants <==> x in Downstream(c.groups, agent);
  }

  /** If the agent's output is not the original one, the chunk is not one of its own. */
  ghost predicate Stripped(original: Context, c: Context, chunk: Chunk, y: int) {
    OwnedByOne(chunk, y) && OutputFingerprint(c, y) != OutputFingerprint(original, y) ==> ChunkCount(c, chunk) == 0
  }

  /** Of a chunk, the round keeps all or nothing, and nothing if it is of a repaired agent whose output changed. */
  ghost predicate ChunkSettled(original: Context, round: Round, n: nat, chunk: Chunk) {
    && n <= |Order(original.groups)| && round.context.groups == original.groups
    && (forall y | y in round.completed :: y in Order(original.groups)[..n])
    && (forall y | y in round.completed :: Stripped(original, round.context, chunk, y))
    && ChunkCount(round.context, chunk) in {0, ChunkCount(original, chunk)}
    && (!chunk.analysisSource ==> ChunkCount(round.context, chunk) == ChunkCount(original, chunk))
  }

  lemma VisitStrips(original: Context, c: Context, n: nat, repair: Repair, chunk: Chunk, y: int)
    requires Distinct(Order(original.groups)) && n < |Order(original.groups)| && c.groups == original.groups
    requires repair.Produced? && y in Order(original.groups)[..n + 1]
    requires y in Order(original.groups)[..n] ==> Stripped(original, c, chunk, y)
    ensures var agent := Order(original.groups)[n];
            Stripped(original, Adopt(c, agent, repair, OutputFingerprint(original, agent)), chunk, y)
  {
    var order := Order(original.groups);
    var before := OutputFingerprint(original, order[n]);
    AdoptDropsChunks(c, order[n], repair, before, chunk);
    if y in order[..n] {
      EarlierOutputStays(c, n, repair, before, y);
    } else {
      assert order[..n + 1] == order[..n] + [order[n]];
      AdoptAt(c, order[n], repair, before, y);
    }
  }

  lemma StepSettlesChunk(original: Context, audit: Audit, repairs: int -> Repair, round: Round, n: nat, chunk: Chunk)
    requires Distinct(Order(original.groups)) && n < |Order(original.groups)|
    requires ChunkSettled(original, round, n, chunk)
    ensures ChunkSettled(original, Step(original, audit, repairs, round, Order(original.groups)[n]), n + 1, chunk)
  {
    var order, c := Order(original.groups), round.context;
    var agent := order[n];
    var after := Step(original, audit, repairs, round, agent);
    assert order[..n + 1] == order[..n] + [agent];
    if after.completed != round.completed || after.context != c {
      AdoptDropsChunks(c, agent, repairs(agent), OutputFingerprint(original, agent), chunk);
      AdoptAt(c, agent, repairs(agent), OutputFingerprint(original, agent), agent);
      forall y | y in after.completed ensures Stripped(original, after.context, chunk, y) {
        VisitStrips(original, c, n, repairs(agent), chunk, y);
      }
    }
  }

  /**
   What a round leaves of the retrieval index: raw evidence whatever happens, of every other
   chunk all copies or none, and none of an agent it repaired to a different output.
   */
  lemma RoundSettlesChunks(original: Context, audit: Audit, repairs: int -> Repair, chunk: Chunk, x: int)
    requires Distinct(Order(original.groups))
    ensures var final := FinalRound(original, audit, repairs);
            && (ChunkCount(final.context, chunk) == ChunkCount(original, chunk)
                || (chunk.analysisSource && ChunkCount(final.context, chunk) == 0))
            && (x in final.completed && OwnedByOne(chunk, x)
                && OutputFingerprint(final.context, x) != OutputFingerprint(original, x) ==>
                  ChunkCount(final.context, chunk) == 0)
  {
    var inv := (r: Round, k: nat) => ChunkSettled(original, r, k, chunk);
    InitializeKeepsStatus(original, Order(original.groups), 0);
    forall r, k: nat | k < |Order(original.groups)| && inv(r, k)
      ensures inv(Step(original, audit, repairs, r, Order(original.groups)[k]), k + 1)
    {
      StepSettlesChunk(original, audit, repairs, r, k, chunk);
    }
    SweepInduction(original, audit, repairs, inv, |Order(original.groups)|);
  }
}
