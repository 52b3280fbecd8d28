/**
 Stable identities of a persisted parallel superstep (backend/analysis_retry_stages.py).

 SHA-256 enters as two functions on the values that are hashed: `stage` gives the
 32 hexadecimal digits kept in a stage key, `completion` the 64 digits of a parallel
 completion token. Nothing is assumed about collisions: where one would matter, a lemma
 names the two values that collide.
 */
module StageIdentity {
  import opened Wrappers
  import opened Names

  const MAX_MEMBERS := 128
  const PARALLEL := "parallel_"
  const BRANCH := "branch:to:"

  datatype Digests = Digests(stage: seq<string> -> string, completion: seq<(string, string)> -> string)

  predicate IsHex(s: string, n: nat) {
    |s| == n && forall c | c in s :: '0' <= c <= '9' || 'a' <= c <= 'f'
  }

  ghost predicate WellFormed(d: Digests) {
    && (forall members :: IsHex(d.stage(members), 32))
    && (forall pairs :: IsHex(d.completion(pairs), 64))
  }

  predicate IsLetter(c: char) {
    'a' <= c <= 'z' || 'A' <= c <= 'Z'
  }

  /** `[A-Za-z][A-Za-z0-9_]{0,95}` */
  predicate IsNode(s: string) {
    && 1 <= |s| <= 96
    && IsLetter(s[0])
    && forall c | c in s :: IsLetter(c) || '0' <= c <= '9' || c == '_'
  }

  function StageKey(d: Digests, members: seq<string>): string {
    if |members| == 1 then members[0] else PARALLEL + d.stage(members)
  }

  predicate ValidMembers(d: Digests, node: string, members: seq<string>) {
    && 0 < |members| <= MAX_MEMBERS
    && (forall n | n in members :: IsNode(n))
    && members == SortedSet(members)
    && StageKey(d, members) == node
  }

  predicate Distinct(names: seq<string>) {
    forall i, j | 0 <= i < j < |names| :: names[i] != names[j]
  }

  /** The names behind the `branch:to:` channels of a checkpoint. */
  function BranchNames(channels: seq<string>): (r: seq<string>)
    ensures forall n :: n in r <==> BRANCH + n in channels
  {
    if channels == [] then [] else
      assert channels == [channels[0]] + channels[1..];
      var rest := BranchNames(channels[1..]);
      if BRANCH <= channels[0] then
        assert channels[0] == BRANCH + channels[0][|BRANCH|..];
        [channels[0][|BRANCH|..]] + rest
      else rest
  }

  /** `channels` are the keys of the checkpoint's channel values, `pending` is `snapshot.next`. */
  function PendingMembers(channels: seq<string>, pending: seq<string>): Option<seq<string>> {
    if |pending| == 0 || |pending| > MAX_MEMBERS || (exists n | n in pending :: !IsNode(n)) || !Distinct(pending)
        then None
    else
      var branches := SortedSet(BranchNames(channels));
      if branches != [] then
        if |branches| > MAX_MEMBERS || (exists n | n in branches :: !IsNode(n))
           || (exists n | n in pending :: n !in branches)
        then None
        else Some(branches)
      else if |pending| == 1 then Some(pending) else None
  }

  /** `None` unless every member has completed; otherwise a token for the whole stage. */
  function CompletionToken(d: Digests, completed: map<string, string>, members: seq<string>): Option<string> {
    if members == [] || exists n | n in members :: n !in completed then None
    else if |members| == 1 then Some(completed[members[0]])
    else Some(d.completion(Pairs(completed, members)))
  }

  function Pairs(completed: map<string, string>, members: seq<string>): (r: seq<(string, string)>)
    requires forall n | n in members :: n in completed
    ensures |r| == |members|
    ensures forall i | 0 <= i < |r| :: r[i] == (members[i], completed[members[i]])
  {
    seq(|members|, i requires 0 <= i < |members| => (members[i], completed[members[i]]))
  }

  // ----- names

  lemma HexDigits(s: string, n: nat)
    ensures IsHex(s, n) <==> |s| == n && forall c | c in s :: c in "0123456789abcdef"
  {
    forall c: char ensures c in "0123456789abcdef" <==> '0' <= c <= '9' || 'a' <= c <= 'f' {
      var digits := "0123456789abcdef";
      if '0' <= c <= '9' {
        assert digits[c as int - '0' as int] == c;
      } else if 'a' <= c <= 'f' {
        assert digits[c as int - 'a' as int + 10] == c;
      }
    }
  }

  const LOWER := "abcdefghijklmnopqrstuvwxyz"
  const UPPER := "ABCDEFGHIJKLMNOPQRSTUVWXYZ"
  const DIGITS := "0123456789"

  lemma Listed(c: char, first: char, listed: string)
    requires forall i | 0 <= i < |listed| :: listed[i] as int == first as int + i
    ensures c in listed <==> 0 <= c as int - first as int < |listed|
  {
    if 0 <= c as int - first as int < |listed| {
      assert listed[c as int - first as int] as int == c as int;
    }
  }

  /** A node name has 1 to 96 characters, letters, digits and underscores, and starts with a letter. */
  lemma NodeNames(s: string)
    ensures IsNode(s) <==>
            && 1 <= |s| <= 96 && s[0] in LOWER + UPPER
            && forall c | c in s :: c in LOWER + UPPER || c in DIGITS || c == '_'
  {
    forall c ensures IsLetter(c) <==> c in LOWER + UPPER {
      Listed(c, 'a', LOWER);
      Listed(c, 'A', UPPER);
    }
    forall c: char ensures c in DIGITS <==> '0' <= c <= '9' {
      Listed(c, '0', DIGITS);
    }
  }

  /** A legal stage has 1 to 128 node names in strict order, under its only member's name or the key of its digest. */
  lemma ValidMembersIff(d: Digests, node: string, members: seq<string>)
    ensures ValidMembers(d, node, members) <==>
            && 1 <= |members| <= 128 && (forall n | n in members :: IsNode(n)) && StrictlySorted(members)
            && node == if |members| == 1 then members[0] else "parallel_" + d.stage(members)
  {
    SortedSetFixpoint(members);
  }

  // ----- what a pending superstep is called

  /** Whatever is pending, an identified superstep carries a legal member list under its own key. */
  lemma PendingMembersAreValid(d: Digests, channels: seq<string>, pending: seq<string>)
    requires PendingMembers(channels, pending).Some?
    ensures var members := PendingMembers(channels, pending).value;
            && ValidMembers(d, StageKey(d, members), members)
            && (forall n | n in pending :: n in members)
            && if exists n :: "branch:to:" + n in channels
               then forall n :: n in members <==> "branch:to:" + n in channels
               else members == pending
  {
    var branches := SortedSet(BranchNames(channels));
    if branches != [] {
      assert BRANCH + branches[0] in channels;
      SortedSetIsSorted(BranchNames(channels));
      SortedSetFixpoint(branches);
    } else {
      forall n ensures BRANCH + n !in channels {
        assert n !in branches;
      }
    }
  }

  /** At most 128 nodes are pending, all different, and either all of them are root branches or there is just one. */
  ghost predicate Identified(channels: seq<string>, pending: seq<string>) {
    && 0 < |pending| <= 128
    && (forall i, j | 0 <= i < j < |pending| :: pending[i] != pending[j])
    && (forall n | n in pending :: IsNode(n))
    && if exists n :: "branch:to:" + n in channels then
      && |SortedSet(BranchNames(channels))| <= 128
      && (forall n | "branch:to:" + n in channels :: IsNode(n))
      && (forall n | n in pending :: "branch:to:" + n in channels)
    else |pending| == 1
  }

  /** The exact conditions under which a superstep is identified. */
  lemma PendingMembersExist(channels: seq<string>, pending: seq<string>)
    ensures PendingMembers(channels, pending).Some? <==> Identified(channels, pending)
  {
    var names := BranchNames(channels);
    var branches := SortedSet(names);
    assert forall n :: n in branches <==> n in names;
    assert forall n :: n in names <==> BRANCH + n in channels;
    if branches != [] {
      assert BRANCH + branches[0] in channels;
      assert (exists n | n in branches :: !IsNode(n)) <==> !(forall n | BRANCH + n in channels :: IsNode(n)) by {
        forall n | BRANCH + n in channels && !IsNode(n) ensures n in branches { assert n in names; }
      }
      assert (exists n | n in pending :: n !in branches) <==> !(forall n | n in pending :: BRANCH + n in channels) by {
        forall n ensures n in branches <==> BRANCH + n in channels { assert n in names <==> BRANCH + n in channels; }
      }
    } else {
      forall n ensures BRANCH + n !in channels { assert n !in names; }
    }
  }

  /**
   A superstep keeps its identity while pending writes finish siblings: two snapshots of
   checkpoints with the same channels name the same members, whatever is still pending.
   */
  lemma PendingMembersAreStable(channels: seq<string>, channels': seq<string>, pending: seq<string>,
                                pending': seq<string>)
    requires forall c :: c in channels <==> c in channels'
    requires exists n :: BRANCH + n in channels
    requires PendingMembers(channels, pending).Some? && PendingMembers(channels', pending').Some?
    ensures PendingMembers(channels, pending) == PendingMembers(channels', pending')
  {
    var a, b := BranchNames(channels), BranchNames(channels');
    forall n ensures n in a <==> n in b {
      assert n in a <==> BRANCH + n in channels;
    }
    SortedSetIsCanonical(a, b);
    var n :| BRANCH + n in channels;
    assert n in a && n in SortedSet(a);
  }

  // ----- when a key identifies its members

  /** `a` is the single node whose name is the key of the parallel stage `b`. */
  ghost predicate Alias(d: Digests, a: seq<string>, b: seq<string>) {
    |a| == 1 && |b| != 1 && a[0] == PARALLEL + d.stage(b)
  }

  /** Two parallel stages whose digests are equal by accident. */
  ghost predicate Collide(d: Digests, a: seq<string>, b: seq<string>) {
    |a| != 1 && |b| != 1 && a != b && d.stage(a) == d.stage(b)
  }

  /** Equal keys mean equal members, except for a node named like a parallel stage and for a collision. */
  lemma KeyIdentifiesMembers(d: Digests, a: seq<string>, b: seq<string>)
    ensures StageKey(d, a) == StageKey(d, b) <==> a == b || Alias(d, a, b) || Alias(d, b, a) || Collide(d, a, b)
  {
    if |a| == 1 && |b| == 1 {
      assert a == [a[0]] && b == [b[0]];
    } else if |a| != 1 && |b| != 1 {
      assert (PARALLEL + d.stage(a))[|PARALLEL|..] == d.stage(a);
      assert (PARALLEL + d.stage(b))[|PARALLEL|..] == d.stage(b);
    }
  }

  /** The exception is real: every parallel stage shares its key with a legal single-node stage. */
  lemma KeyAliasExists(d: Digests, b: seq<string>)
    requires WellFormed(d) && |b| > 1
    ensures var name := StageKey(d, b);
            ValidMembers(d, name, [name]) && [name] != b && StageKey(d, [name]) == StageKey(d, b)
  {
    var name := StageKey(d, b);
    var hex := d.stage(b);
    assert IsHex(hex, 32);
    assert IsNode(name) by {
      forall c | c in name ensures IsLetter(c) || '0' <= c <= '9' || c == '_' {
        assert c in PARALLEL || c in hex;
      }
    }
    assert SortedSet([name]) == [name] by {
      SortedSetFixpoint([name]);
    }
  }

  /**
   Keys are faithful on the stages a graph can form exactly when no node of the graph
   bears the key of a parallel stage of the same graph, and no two of those collide.
   */
  lemma KeysFaithfulIff(d: Digests, nodes: set<string>)
    requires forall n | n in nodes :: IsNode(n)
    ensures (forall a, b | StageOf(d, nodes, a) && StageOf(d, nodes, b) && StageKey(d, a) == StageKey(d, b) :: a == b)
            <==> && (!exists b :: StageOf(d, nodes, b) && |b| > 1 && StageKey(d, b) in nodes)
                 && (!exists a, b :: StageOf(d, nodes, a) && StageOf(d, nodes, b) && Collide(d, a, b))
  {
    if b :| StageOf(d, nodes, b) && |b| > 1 && StageKey(d, b) in nodes {
      var a := [StageKey(d, b)];
      SortedSetFixpoint(a);
      assert StageOf(d, nodes, a);
      assert StageKey(d, a) == StageKey(d, b) && a != b;
    }
    forall a, b | StageOf(d, nodes, a) && StageOf(d, nodes, b) && StageKey(d, a) == StageKey(d, b) && a != b
      ensures || (exists b :: StageOf(d, nodes, b) && |b| > 1 && StageKey(d, b) in nodes)
              || (exists a, b :: StageOf(d, nodes, a) && StageOf(d, nodes, b) && Collide(d, a, b))
    {
      KeyIdentifiesMembers(d, a, b);
      if Alias(d, a, b) {
        assert a[0] in nodes;
      } else if Alias(d, b, a) {
        assert b[0] in nodes;
      }
    }
    if a, b :| StageOf(d, nodes, a) && StageOf(d, nodes, b) && Collide(d, a, b) {
      KeyIdentifiesMembers(d, a, b);
    }
  }

  ghost predicate StageOf(d: Digests, nodes: set<string>, members: seq<string>) {
    ValidMembers(d, StageKey(d, members), members) && forall n | n in members :: n in nodes
  }

  // ----- what a completion token proves

  ghost predicate Completed(completed: map<string, string>, members: seq<string>) {
    forall n | n in members :: n in completed
  }

  /** Two different completions of a parallel stage whose digests are equal by accident. */
  ghost predicate TokensCollide(d: Digests, c1: map<string, string>, c2: map<string, string>, members: seq<string>) {
    && |members| > 1 && Completed(c1, members) && Completed(c2, members)
    && Pairs(c1, members) != Pairs(c2, members)
    && d.completion(Pairs(c1, members)) == d.completion(Pairs(c2, members))
  }

  /**
   A token exists exactly for a fully completed stage, and two tokens agree exactly when every
   member's does, except for a collision.
   */
  lemma TokenMeaning(d: Digests, c1: map<string, string>, c2: map<string, string>, members: seq<string>)
    requires members != []
    ensures CompletionToken(d, c1, members).Some? <==> Completed(c1, members)
    ensures CompletionToken(d, c1, members).Some? && CompletionToken(d, c2, members).Some? ==>
              (CompletionToken(d, c1, members) == CompletionToken(d, c2, members)
               <==> (forall n | n in members :: c1[n] == c2[n]) || TokensCollide(d, c1, c2, members))
  {
    if CompletionToken(d, c1, members).Some? && CompletionToken(d, c2, members).Some? {
      var p1, p2 := Pairs(c1, members), Pairs(c2, members);
      if forall n | n in members :: c1[n] == c2[n] {
        assert p1 == p2;
      } else {
        var n :| n in members && c1[n] != c2[n];
        var i :| 0 <= i < |members| && members[i] == n;
        assert p1[i] != p2[i];
      }
    }
  }
}
