/**
 * The swarm as a whole: the members of a list of tribes, the ownership that
 * ties each particle to exactly one tribe, the counts the search space keeps
 * (swarm size and link count), and a sequential pass of particle moves.
 */
module Swarm {
  import opened SeqUtils
  import opened EuclidianVectors
  import opened Tribes

  /** The member list of each tribe, in tribe order. */
  function MemberLists(ts: seq<Tribe>): (r: seq<seq<Particle>>)
    reads ts
    ensures |r| == |ts| && forall i :: 0 <= i < |ts| ==> r[i] == ts[i].members
  {
    seq(|ts|, i requires 0 <= i < |ts| reads ts => ts[i].members)
  }

  /** tribeMembers(): every member of every tribe, tribe by tribe, each tribe in member order. */
  function Members(ts: seq<Tribe>): seq<Particle>
    reads ts
  {
    Concat(MemberLists(ts))
  }

  /** The particles of the tribes, as a set (a frame for the methods that move them). */
  ghost function ParticlesOf(ts: seq<Tribe>): (r: set<Particle>)
    reads ts`members
    ensures forall i, p | 0 <= i < |ts| && p in ts[i].members :: p in r
  {
    set t, p | t in ts && p in t.members :: p
  }

  lemma MembersAreParticles(ts: seq<Tribe>)
    ensures forall p :: p in Members(ts) <==> p in ParticlesOf(ts)
  {
    var lists := MemberLists(ts);
    forall p ensures p in Members(ts) <==> p in ParticlesOf(ts) {
      ConcatMembership(lists, p);
      if p in ParticlesOf(ts) {
        var t :| t in ts && p in t.members;
        var i :| 0 <= i < |ts| && ts[i] == t;
        assert p in lists[i];
      }
    }
  }

  /** A tribe owns its members: each listed once, pointing back at it, and fit to move. */
  ghost predicate Owns(t: Tribe, objective: ObjectiveFunction)
    reads t`members, t.members`parent, t.members`history, t.members`position
  {
    && NoDup(t.members)
    && forall p | p in t.members :: p.parent == t && p.objective == objective && p.Valid()
  }

  /** Distinct tribes, none empty, each owning its members. */
  ghost predicate Owned(ts: seq<Tribe>, objective: ObjectiveFunction)
    reads ts`members, ParticlesOf(ts)`parent, ParticlesOf(ts)`history, ParticlesOf(ts)`position
  {
    NoDup(ts) && forall i :: 0 <= i < |ts| ==> |ts[i].members| > 0 && Owns(ts[i], objective)
  }

  /** What Particle.Move demands of the particle it is called on, in a swarm over the objective. */
  ghost predicate Ready(p: Particle, objective: ObjectiveFunction)
    reads p, p.parent
  {
    p.objective == objective && p.Valid() && (p.parent != null ==> |p.parent.members| > 0)
  }

  /** What one call of Particle.Move guarantees, as far as the swarm depends on it. */
  twostate predicate MovedOnce(p: Particle)
    reads p`moveCount, p`parent, p`history, p`position, p`bestSolution
  {
    && p.moveCount == old(p.moveCount) + 1
    && p.parent == old(p.parent)
    && p.Valid()
    && p.bestSolution.error <= old(p.bestSolution.error)
  }

  /** Owned tribes are never empty, so the swarm has no particle exactly when it has no tribe. */
  lemma EmptySwarm(ts: seq<Tribe>, objective: ObjectiveFunction)
    requires Owned(ts, objective)
    ensures |Members(ts)| == 0 <==> ts == []
  {
    ConcatLength(MemberLists(ts));
    if ts != [] {
      assert MemberLists(ts)[0] == ts[0].members;
    }
  }

  /** Members of owned tribes occur once each, and every one of them can move. */
  lemma OwnedMembers(ts: seq<Tribe>, objective: ObjectiveFunction)
    requires Owned(ts, objective)
    ensures NoDup(Members(ts))
    ensures forall p | p in Members(ts) :: Ready(p, objective)
  {
    var lists := MemberLists(ts);
    forall i, j, x: Particle | 0 <= i < j < |lists| && x in lists[i] ensures x !in lists[j] {
      assert x.parent == ts[i] && ts[i] != ts[j];
    }
    ConcatNoDup(lists);
    forall p | p in Members(ts) ensures Ready(p, objective) {
      ConcatMembership(lists, p);
    }
  }

  /** Any order of owned tribes owns the same particles. */
  lemma PermutationOwned(ts: seq<Tribe>, order: seq<Tribe>, objective: ObjectiveFunction)
    requires Owned(ts, objective) && multiset(order) == multiset(ts)
    ensures Owned(order, objective) && ParticlesOf(order) == ParticlesOf(ts)
  {
    PermutationNoDup(ts, order);
    assert forall t :: t in order <==> t in ts by {
      forall t ensures t in order <==> t in ts {
        assert t in order <==> t in multiset(order);
        assert t in ts <==> t in multiset(ts);
      }
    }
    forall i | 0 <= i < |order|
      ensures |order[i].members| > 0 && Owns(order[i], objective)
    {
      assert order[i] in ts;
      var j :| 0 <= j < |ts| && ts[j] == order[i];
    }
  }

  /** Visiting owned tribes in another order visits the same particles, as many of them. */
  lemma PermutationMembers(ts: seq<Tribe>, order: seq<Tribe>, objective: ObjectiveFunction)
    requires Owned(ts, objective) && multiset(order) == multiset(ts)
    ensures multiset(Members(order)) == multiset(Members(ts)) && |Members(order)| == |Members(ts)|
  {
    PermutationOwned(ts, order, objective);
    OwnedMembers(ts, objective);
    OwnedMembers(order, objective);
    MembersAreParticles(ts);
    MembersAreParticles(order);
    SameElementsNoDup(Members(order), Members(ts));
  }

  /** A pass over owned tribes in any order moves each of their particles, each one once. */
  lemma ShuffledMembers(ts: seq<Tribe>, order: seq<Tribe>, objective: ObjectiveFunction)
    requires Owned(ts, objective) && multiset(order) == multiset(ts)
    ensures NoDup(Members(order)) && forall p | p in Members(order) :: Ready(p, objective)
    ensures forall p :: p in Members(order) <==> p in ParticlesOf(ts)
    ensures multiset(Members(order)) == multiset(Members(ts)) && |Members(order)| == |Members(ts)|
  {
    PermutationOwned(ts, order, objective);
    PermutationMembers(ts, order, objective);
    OwnedMembers(order, objective);
    MembersAreParticles(order);
  }

  /**
   * Collections.shuffle on a copy of the list: an arbitrary permutation, one
   * element drawn at a time.
   */
  method RandomOrder<T>(s: seq<T>) returns (r: seq<T>)
    ensures multiset(r) == multiset(s)
  {
    r := [];
    var rest := s;
    while rest != []
      invariant multiset(r) + multiset(rest) == multiset(s)
      decreases |rest|
    {
      var j :| 0 <= j < |rest|;
      assert rest == rest[..j] + [rest[j]] + rest[j + 1..];
      r := r + [rest[j]];
      rest := RemoveAt(rest, j);
    }
  }

  /**
   * The loop of makeMoveTask (and the inner loop of the single-threaded pass):
   * move each particle once, in order. calculate stands for the particle's
   * calculateNewPosition, left abstract: from the particle's own best solution
   * and its best informer's, any point of the objective's space.
   */
  method MoveInOrder(ps: seq<Particle>, objective: ObjectiveFunction, calculate: (Solution, Solution) -> Vector)
    returns (ghost visited: seq<Particle>)
    requires forall own, informer :: |calculate(own, informer)| == objective.dimensions
    requires NoDup(ps) && forall p | p in ps :: Ready(p, objective)
    modifies (set p | p in ps)`history, (set p | p in ps)`bestSolution, (set p | p in ps)`position, (set p | p in ps)`currentError, (set p | p in ps)`moveCount
    ensures visited == ps
    ensures forall p | p in ps :: MovedOnce(p)
  {
    visited := [];
    var i := 0;
    while i < |ps|
      invariant 0 <= i <= |ps| && visited == ps[..i]
      invariant forall j :: 0 <= j < i ==> MovedOnce(ps[j])
      invariant forall j :: i <= j < |ps| ==> unchanged(ps[j])
    {
      var p := ps[i];
      MoveOne(p, objective, calculate);
      visited := visited + [p];
      i := i + 1;
    }
    assert ps[..i] == ps;
  }

  /** One particle's move, as far as a pass over the swarm depends on it. */
  method MoveOne(p: Particle, objective: ObjectiveFunction, calculate: (Solution, Solution) -> Vector)
    requires forall own, informer :: |calculate(own, informer)| == objective.dimensions
    requires Ready(p, objective)
    modifies p`history, p`bestSolution, p`position, p`currentError, p`moveCount
    ensures MovedOnce(p)
  {
    var own := p.bestSolution;
    p.Move(informer => calculate(own, informer));
  }

  /** Run batches of moves one batch after another; the batches share no particle. */
  method MoveBatches(batches: seq<seq<Particle>>, objective: ObjectiveFunction, calculate: (Solution, Solution) -> Vector)
    returns (ghost visited: seq<Particle>)
    requires forall own, informer :: |calculate(own, informer)| == objective.dimensions
    requires NoDup(Concat(batches)) && forall p | p in Concat(batches) :: Ready(p, objective)
    modifies (set p | p in Concat(batches))`history, (set p | p in Concat(batches))`bestSolution, (set p | p in Concat(batches))`position, (set p | p in Concat(batches))`currentError, (set p | p in Concat(batches))`moveCount
    ensures visited == Concat(batches)
    ensures forall p | p in Concat(batches) :: MovedOnce(p)
  {
    visited := [];
    forall p | p in Concat(batches) ensures allocated(p) {
      ConcatMembership(batches, p);
    }
    var k := 0;
    while k < |batches|
      invariant 0 <= k <= |batches| && visited == Concat(batches[..k])
      invariant Concat(batches) == Concat(batches[..k]) + Concat(batches[k..])
      invariant forall p | p in Concat(batches) :: old(allocated(p))
      invariant forall p | p in Concat(batches) && p in Concat(batches[..k]) :: MovedOnce(p)
      invariant forall p | p in Concat(batches) && p !in Concat(batches[..k]) :: unchanged(p)
    {
      ghost var done := Concat(batches[..k]);
      ghost var later := Concat(batches[k + 1..]);
      assert batches[k..][0] == batches[k] && batches[k..][1..] == batches[k + 1..];
      assert Concat(batches[k..]) == batches[k] + later;
      AppendNoDupParts(done, batches[k] + later);
      AppendNoDupParts(batches[k], later);
      var moved := MoveInOrder(batches[k], objective, calculate);
      assert batches[..k + 1] == batches[..k] + [batches[k]];
      ConcatAppend(batches[..k], batches[k]);
      ConcatSplit(batches, k + 1);
      visited := visited + moved;
      k := k + 1;
    }
    assert batches[..k] == batches;
  }

  /** swarmSize(): the number of particles, counted tribe by tribe. */
  method SwarmSize(ts: seq<Tribe>) returns (n: nat)
    ensures n == |Members(ts)| && n == SumLengths(MemberLists(ts))
  {
    n := 0;
    var i := 0;
    while i < |ts|
      invariant 0 <= i <= |ts| && n == |Members(ts[..i])|
    {
      assert MemberLists(ts[..i + 1]) == MemberLists(ts[..i]) + [ts[i].members];
      ConcatAppend(MemberLists(ts[..i]), ts[i].members);
      n := n + |ts[i].members|;
      i := i + 1;
    }
    assert ts[..i] == ts;
    ConcatLength(MemberLists(ts));
  }

  /** The total number of links of the tribes: informers plus memberCount squared, tribe by tribe. */
  function LinkCount(ts: seq<Tribe>): nat
    reads ts`members, ts`informers
  {
    if ts == [] then 0
    else
      var t := ts[|ts| - 1];
      LinkCount(ts[..|ts| - 1]) + |t.informers| + |t.members| * |t.members|
  }

  /** Appending a tribe appends its members, in order, to the swarm's members. */
  lemma MembersAppend(ts: seq<Tribe>, t: Tribe)
    ensures Members(ts + [t]) == Members(ts) + t.members
  {
    assert MemberLists(ts + [t]) == MemberLists(ts) + [t.members];
    ConcatAppend(MemberLists(ts), t.members);
  }

  /** Every particle informs itself, so a swarm has at least as many links as particles. */
  lemma {:induction false} LinkCountAtLeastSize(ts: seq<Tribe>)
    ensures LinkCount(ts) >= |Members(ts)|
  {
    if ts != [] {
      var init, t := ts[..|ts| - 1], ts[|ts| - 1];
      assert ts == init + [t];
      LinkCountAtLeastSize(init);
      MembersAppend(init, t);
      var m := |t.members|;
      assert m * m >= m by {
        if m > 0 {
          assert m * m == m * (m - 1) + m;
        }
      }
    }
  }

  /** swarmLinkCount(): externalLinkCount plus internalLinkCount, summed over the tribes. */
  method SwarmLinkCount(ts: seq<Tribe>) returns (n: nat)
    ensures n == LinkCount(ts)
  {
    n := 0;
    var i := 0;
    while i < |ts|
      invariant 0 <= i <= |ts| && n == LinkCount(ts[..i])
    {
      assert ts[..i + 1][..i] == ts[..i];
      n := n + ts[i].ExternalLinkCount() + ts[i].InternalLinkCount();
      i := i + 1;
    }
    assert ts[..i] == ts;
  }
}
