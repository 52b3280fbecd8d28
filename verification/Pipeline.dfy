/**
 The grouped agent pipeline: groups run in order, and the members of a group in parallel
 (backend/context_dependencies.py, backend/analysis_dependencies.py).
 */
module Pipeline {

  type Groups = seq<seq<int>>

  /** `pipeline_agent_order` */
  function Order(groups: Groups): seq<int> {
    if groups == [] then [] else groups[0] + Order(groups[1..])
  }

  /** The groups before the first one holding the agent, flattened; nothing for an unknown agent. */
  function Upstream(groups: Groups, agent: int): seq<int> {
    if agent !in Order(groups) then [] else Prior(groups, agent)
  }

  function Prior(groups: Groups, agent: int): seq<int>
    requires agent in Order(groups)
  {
    if agent in groups[0] then [] else groups[0] + Prior(groups[1..], agent)
  }

  function Downstream(groups: Groups, agent: int): seq<int> {
    Readers(groups, agent, Order(groups))
  }

  function Readers(groups: Groups, agent: int, targets: seq<int>): (r: seq<int>)
    ensures forall t :: t in r <==> t in targets && agent in Upstream(groups, t)
  {
    if targets == [] then [] else
      assert targets == [targets[0]] + targets[1..];
      var rest := Readers(groups, agent, targets[1..]);
      if agent in Upstream(groups, targets[0]) then [targets[0]] + rest else rest
  }

  /** `upstream_agent_numbers`, as the loop it is. */
  method UpstreamAgentNumbers(groups: Groups, agent: int) returns (upstream: seq<int>)
    ensures upstream == Upstream(groups, agent)
  {
    upstream := [];
    var g := 0;
    while g < |groups|
      invariant 0 <= g <= |groups|
      invariant agent in Order(groups) <==> agent in Order(groups[g..])
      invariant agent in Order(groups) ==> Upstream(groups, agent) == upstream + Prior(groups[g..], agent)
    {
      if agent in groups[g] {
        return upstream;
      }
      assert groups[g..][1..] == groups[g + 1..];
      upstream := upstream + groups[g];
      g := g + 1;
    }
    return [];
  }

  /** The first group holding the agent. */
  function GroupIndex(groups: Groups, agent: int): nat {
    if groups == [] || agent in groups[0] then 0 else 1 + GroupIndex(groups[1..], agent)
  }

  /** The order is that of the groups, one after the other, and of the members within each. */
  lemma {:induction false} OrderConcatenates(groups: Groups, last: seq<int>)
    ensures Order(groups + [last]) == Order(groups) + last
  {
    if groups == [] {
      assert groups + [last] == [last];
      assert Order([last]) == last + Order([]);
    } else {
      OrderConcatenates(groups[1..], last);
      assert (groups + [last])[1..] == groups[1..] + [last];
    }
  }

  /** The pipeline holds the members of its groups; upstream of one is all that comes before its first group. */
  lemma {:induction false} UpstreamIsPrior(groups: Groups, agent: int)
    ensures agent in Order(groups) <==> exists g :: 0 <= g < |groups| && agent in groups[g]
    ensures var g := GroupIndex(groups, agent);
            if agent !in Order(groups) then Upstream(groups, agent) == []
            else
              && g < |groups| && agent in groups[g] && (forall k | 0 <= k < g :: agent !in groups[k])
              && Upstream(groups, agent) == Order(groups[..g])
  {
    if groups != [] && agent !in groups[0] {
      UpstreamIsPrior(groups[1..], agent);
      var g := GroupIndex(groups[1..], agent);
      if agent in Order(groups) {
        assert groups[..g + 1][1..] == groups[1..][..g];
      }
      if k :| 0 <= k < |groups| && agent in groups[k] {
        assert groups[1..][k - 1] == groups[k];
      }
    }
  }

  ghost predicate Distinct(agents: seq<int>) {
    forall i, j | 0 <= i < j < |agents| :: agents[i] != agents[j]
  }

  /** Upstream means an earlier group: never the agent itself, a peer, or a later agent. */
  lemma {:induction false} UpstreamIsEarlierGroup(groups: Groups, agent: int, u: int)
    requires agent in Order(groups)
    ensures u in Upstream(groups, agent) <==> u in Order(groups) && GroupIndex(groups, u) < GroupIndex(groups, agent)
  {
    if agent !in groups[0] && u !in groups[0] {
      UpstreamIsEarlierGroup(groups[1..], agent, u);
    }
  }

  lemma UpstreamIsTransitive(groups: Groups, a: int, b: int, c: int)
    requires a in Upstream(groups, b) && b in Upstream(groups, c)
    ensures a in Upstream(groups, c)
  {
    UpstreamIsEarlierGroup(groups, b, a);
    UpstreamIsEarlierGroup(groups, c, b);
    UpstreamIsEarlierGroup(groups, c, a);
  }

  lemma UpstreamIsNotDownstream(groups: Groups, agent: int, u: int)
    requires agent in Order(groups) && u in Upstream(groups, agent)
    ensures u in Order(groups) && u != agent && u !in Downstream(groups, agent)
  {
    UpstreamIsEarlierGroup(groups, agent, u);
    if u in Downstream(groups, agent) {
      UpstreamIsEarlierGroup(groups, u, agent);
    }
  }

  /** The pipeline order visits upstream agents first. */
  lemma UpstreamComesFirst(groups: Groups, i: nat, j: nat)
    requires i < |Order(groups)| && j < |Order(groups)|
    requires Distinct(Order(groups))
    requires Order(groups)[i] in Upstream(groups, Order(groups)[j])
    ensures i < j
  {
    UpstreamIsEarlierGroup(groups, Order(groups)[j], Order(groups)[i]);
    if j <= i {
      OrderFollowsGroups(groups, j, i);
    }
  }

  lemma {:induction false} OrderFollowsGroups(groups: Groups, i: nat, j: nat)
    requires i <= j < |Order(groups)|
    requires Distinct(Order(groups))
    ensures GroupIndex(groups, Order(groups)[i]) <= GroupIndex(groups, Order(groups)[j])
  {
    var order, rest, size := Order(groups), Order(groups[1..]), |groups[0]|;
    assert order == groups[0] + rest;
    if i >= size {
      assert Distinct(rest) by {
        forall a, b | 0 <= a < b < |rest| ensures rest[a] != rest[b] {
          assert rest[a] == order[size + a] && rest[b] == order[size + b];
        }
      }
      OrderFollowsGroups(groups[1..], i - size, j - size);
      assert order[i] == rest[i - size] && order[j] == rest[j - size];
      assert forall m | 0 <= m < size :: order[m] == groups[0][m];
    }
  }
}
