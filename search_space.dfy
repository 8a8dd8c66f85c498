/**
 * SearchSpace: the list of tribes, the counter of moves since the last
 * adaptation, and the cycle moveThenAdapt drives: seed an empty swarm, or
 * move every particle, let the tribes update, and every so often adapt the
 * swarm's size (cull good tribes, drop empty ones, and give the bad tribes a
 * new tribe to inform them). The events one call posts on the bus are
 * returned as a ghost trace.
 */
module SearchSpaces {
  import opened Wrappers
  import opened Exceptions
  import opened SeqUtils
  import opened EuclidianVectors
  import opened EuclidianVectorBuilders
  import opened Ordering
  import opened Tribes
  import opened Swarm
  import InformerGraph
  import SingleThreadedSearchSpace
  import MultithreadedSearchSpace

  /** Which move() the search space was built with. */
  datatype Scheduling = SingleThreaded | Multithreaded(threadCount: int)

  /** The events moveThenAdapt posts on its event bus. */
  datatype SwarmEvent = SwarmMoving | SwarmMoved | SwarmAdapting | SwarmAdapted

  // ---------------------------------------------------------------------------
  // Random positions
  // ---------------------------------------------------------------------------

  /** nextDouble(min, max): a uniform draw u from [0, 1) scaled onto the interval. */
  function NextDouble(min: real, max: real, u: real): real {
    (max - min) * u + min
  }

  /** Where nextDouble(lo, hi) can land: [lo, hi) when lo < hi, (hi, lo] when hi < lo. */
  predicate Between(x: real, lo: real, hi: real) {
    if lo <= hi then lo <= x <= hi && (lo < hi ==> x < hi) else hi < x <= lo
  }

  lemma PositiveProduct(p: real, q: real)
    requires p > 0.0 && q > 0.0
    ensures p * q > 0.0
  {
  }

  lemma NextDoubleBetween(min: real, max: real, u: real)
    requires 0.0 <= u < 1.0
    ensures Between(NextDouble(min, max, u), min, max)
  {
    var w := max - min;
    var x := NextDouble(min, max, u);
    assert x - min == w * u;
    assert max - x == w * (1.0 - u);
    if w >= 0.0 {
      NonNegativeProduct(w, u);
      NonNegativeProduct(w, 1.0 - u);
      if w > 0.0 {
        PositiveProduct(w, 1.0 - u);
      }
    } else {
      NonNegativeProduct(-w, u);
      PositiveProduct(-w, 1.0 - u);
      assert x - max == (-w) * (1.0 - u);
      assert min - x == (-w) * u;
    }
  }

  /** What generatePosition can return: one coordinate per dimension, each drawn between its bounds. */
  ghost predicate Generated(objective: ObjectiveFunction, v: Vector) {
    && objective.Valid()
    && |v| == objective.dimensions
    && forall i :: 0 <= i < |v| ==> Between(v[i], objective.minBounds[i], objective.maxBounds[i])
  }

  // ---------------------------------------------------------------------------
  // Adaptation bookkeeping
  // ---------------------------------------------------------------------------

  /** needsToAdapt: at least a quarter of the swarm's link count (rounded down) of moves. */
  function NeedsToAdapt(moves: int, linkCount: nat): (r: bool)
    ensures r <==> 4 * moves + 3 >= linkCount
  {
    moves >= linkCount / 4
  }

  /** The tribes removeAllEmptyTribes keeps, in their order. */
  function NonEmptyTribes(ts: seq<Tribe>): seq<Tribe>
    reads ts`members
  {
    if ts == [] then []
    else
      var t := ts[|ts| - 1];
      var kept := NonEmptyTribes(ts[..|ts| - 1]);
      if |t.members| > 0 then kept + [t] else kept
  }

  /** The tribes collectBadTribes returns: those not good, in their order. */
  function BadTribes(ts: seq<Tribe>): seq<Tribe>
    reads ts`isGood
  {
    if ts == [] then []
    else
      var t := ts[|ts| - 1];
      var bad := BadTribes(ts[..|ts| - 1]);
      if !t.isGood then bad + [t] else bad
  }

  /** After removeAllEmptyTribes exactly the tribes with members remain, each still once. */
  lemma {:induction false} NonEmptyTribesKept(ts: seq<Tribe>)
    ensures forall t | t in NonEmptyTribes(ts) :: t in ts && |t.members| > 0
    ensures forall t | t in ts && |t.members| > 0 :: t in NonEmptyTribes(ts)
    ensures NoDup(ts) ==> NoDup(NonEmptyTribes(ts))
  {
    if ts != [] {
      var init := ts[..|ts| - 1];
      var t := ts[|ts| - 1];
      NonEmptyTribesKept(init);
      assert ts == init + [t];
      assert forall x :: x in ts <==> x in init || x == t;
      if NoDup(ts) {
        PrefixNoDup(ts, |ts| - 1);
        if |t.members| > 0 {
          assert t !in init;
          AppendNoDup(NonEmptyTribes(init), t);
        }
      }
    }
  }

  /** When no tribe is empty, removeAllEmptyTribes leaves the list as it was. */
  lemma {:induction false} NonEmptyTribesAll(ts: seq<Tribe>)
    requires forall t | t in ts :: |t.members| > 0
    ensures NonEmptyTribes(ts) == ts
  {
    if ts != [] {
      var init := ts[..|ts| - 1];
      assert forall x | x in init :: x in ts;
      NonEmptyTribesAll(init);
      assert ts == init + [ts[|ts| - 1]];
    }
  }

  /** The tribes collectBadTribes returns are exactly the tribes not good, each once. */
  lemma {:induction false} BadTribesCollected(ts: seq<Tribe>)
    ensures forall t :: t in BadTribes(ts) <==> t in ts && !t.isGood
    ensures NoDup(ts) ==> NoDup(BadTribes(ts))
  {
    if ts != [] {
      var init := ts[..|ts| - 1];
      var t := ts[|ts| - 1];
      BadTribesCollected(init);
      assert ts == init + [t];
      assert forall x :: x in ts <==> x in init || x == t;
      if NoDup(ts) {
        PrefixNoDup(ts, |ts| - 1);
        if !t.isGood {
          assert t !in init;
          AppendNoDup(BadTribes(init), t);
        }
      }
    }
  }

  /** The tribes of a list, as a set: the universe their informer links live in. */
  ghost function TribesOf(ts: seq<Tribe>): set<Tribe> {
    set t | t in ts
  }

  /** The kept tribes of a list of owning tribes own their members and are none of them empty. */
  lemma NonEmptyTribesOwned(ts: seq<Tribe>, objective: ObjectiveFunction)
    requires NoDup(ts) && forall t | t in ts :: Owns(t, objective)
    ensures Owned(NonEmptyTribes(ts), objective)
  {
    NonEmptyTribesKept(ts);
    var kept := NonEmptyTribes(ts);
    forall i | 0 <= i < |kept| ensures |kept[i].members| > 0 && Owns(kept[i], objective) {
      assert kept[i] in kept;
    }
  }

  /** Dropping empty tribes loses no particle. */
  lemma NonEmptyTribesParticles(ts: seq<Tribe>)
    ensures ParticlesOf(NonEmptyTribes(ts)) == ParticlesOf(ts)
  {
    NonEmptyTribesKept(ts);
    var kept := NonEmptyTribes(ts);
    forall p: Particle ensures p in ParticlesOf(kept) <==> p in ParticlesOf(ts) {
      if p in ParticlesOf(ts) {
        var t :| t in ts && p in t.members;
        assert t in kept;
      }
      if p in ParticlesOf(kept) {
        var t :| t in kept && p in t.members;
        assert t in ts;
      }
    }
    assert ParticlesOf(kept) == ParticlesOf(ts);
  }

  /** Since every empty tribe had lost all its links, no kept tribe points at a dropped one. */
  lemma NonEmptyTribesLinks(ts: seq<Tribe>)
    requires InformerGraph.WellFormed(Links(TribesOf(ts)))
    requires forall t | t in ts && |t.members| == 0 :: InformerGraph.Isolated(Links(TribesOf(ts)), t)
    ensures InformerGraph.WellFormed(Links(TribesOf(NonEmptyTribes(ts))))
  {
    NonEmptyTribesKept(ts);
    var g: map<Tribe, seq<Tribe>> := Links(TribesOf(ts));
    var keep: set<Tribe> := TribesOf(NonEmptyTribes(ts));
    InformerGraph.RestrictWellFormed<Tribe>(g, keep);
    assert Links(keep) == map t | t in g && t in keep :: g[t];
  }

  /**
   * The invariant moveThenAdapt keeps: the objective's bounds fit its
   * dimension, the tribes are distinct and non-empty and own their members,
   * and the informer links form a well-formed graph over them.
   */
  ghost predicate ValidSwarm(ts: seq<Tribe>, objective: ObjectiveFunction)
    reads ts`members, TribesOf(ts)`informers
    reads ParticlesOf(ts)`parent, ParticlesOf(ts)`history, ParticlesOf(ts)`position
  {
    && objective.Valid()
    && Owned(ts, objective)
    && InformerGraph.WellFormed(Links(TribesOf(ts)))
  }

  /** The links of one more tribe: its own informer list joins the map. */
  lemma LinksAppend(ts: seq<Tribe>, t: Tribe)
    ensures Links(TribesOf(ts + [t])) == Links(TribesOf(ts))[t := t.informers]
  {
    assert TribesOf(ts + [t]) == TribesOf(ts) + {t};
  }

  /** A tribe outside a well-formed swarm and without informers joins it isolated. */
  lemma JoinsIsolated(ts: seq<Tribe>, t: Tribe)
    requires InformerGraph.WellFormed(Links(TribesOf(ts))) && t !in ts && t.informers == []
    ensures InformerGraph.Isolated(Links(TribesOf(ts + [t])), t)
  {
    LinksAppend(ts, t);
    assert forall a | a in Links(TribesOf(ts)) :: t !in Links(TribesOf(ts))[a];
  }

  /** A new tribe, without links and owning its members, can join a valid swarm. */
  lemma AppendValid(ts: seq<Tribe>, t: Tribe, objective: ObjectiveFunction)
    requires Owned(ts, objective) && InformerGraph.WellFormed(Links(TribesOf(ts)))
    requires t !in ts && |t.members| > 0 && Owns(t, objective) && t.informers == []
    ensures Owned(ts + [t], objective) && InformerGraph.WellFormed(Links(TribesOf(ts + [t])))
  {
    var g: map<Tribe, seq<Tribe>> := Links(TribesOf(ts));
    InformerGraph.AddIsolatedWellFormed<Tribe>(g, t);
    AppendOwned(ts, t, objective);
    LinksAppend(ts, t);
  }

  /** A new non-empty tribe that owns its members can join owned tribes. */
  lemma AppendOwned(ts: seq<Tribe>, t: Tribe, objective: ObjectiveFunction)
    requires Owned(ts, objective) && t !in ts && |t.members| > 0 && Owns(t, objective)
    ensures Owned(ts + [t], objective)
  {
    AppendNoDup(ts, t);
    var us := ts + [t];
    forall i | 0 <= i < |us| ensures |us[i].members| > 0 && Owns(us[i], objective) {
      if i < |ts| {
        assert us[i] == ts[i];
      }
    }
  }

  /**
   * new Tribe(particles) on particles of no tribe: a tribe that owns them,
   * without links, which can join the swarm ts.
   */
  method NewTribe(ps: seq<Particle>, objective: ObjectiveFunction, ghost ts: seq<Tribe>) returns (t: Tribe)
    requires |ps| > 0 && NoDup(ps)
    requires forall p | p in ps :: p.parent == null && p.objective == objective && p.Valid()
    requires ValidSwarm(ts, objective)
    modifies (set p | p in ps)`parent
    ensures fresh(t)
    ensures t.members == ps && t.informers == [] && t.shaman == BestOf(ps) && !t.isGood
    ensures t.historicalBestError == t.shaman.bestSolution.error
    ensures forall p | p in ps :: p.parent == t
    ensures ValidSwarm(ts + [t], objective) && Founded(t, ps)
  {
    assert forall p | p in ps :: p !in ParticlesOf(ts);
    var created, _ := Tribe.Create(ps);
    if created.Failure? {
      assert false;
    }
    t := created.value;
    AppendValid(ts, t, objective);
  }

  /**
   * A particle as the Particle constructor made it, whatever tribe it has
   * joined since: not moved, a neutral history, and its position, with the
   * objective's error there, as its best and current solution.
   */
  ghost predicate Unmoved(p: Particle, objective: ObjectiveFunction)
    reads p`moveCount, p`history, p`bestSolution, p`position, p`currentError
  {
    && p.objective == objective && p.moveCount == 0 && p.history == ParticleHistory.Initial()
    && p.bestSolution == Solution(p.position, objective.evaluate(p.position))
    && p.currentError == p.bestSolution.error
  }

  /** Unmoved particles ps at generated positions. */
  ghost predicate AllUnmoved(ps: seq<Particle>, objective: ObjectiveFunction)
    reads (set p | p in ps)`moveCount, (set p | p in ps)`history, (set p | p in ps)`bestSolution
    reads (set p | p in ps)`position, (set p | p in ps)`currentError
  {
    forall p | p in ps :: Unmoved(p, objective) && Generated(objective, p.position)
  }

  /**
   * The state seedSearchSpace leaves its new tribe in: one new, unmoved
   * particle, at the guess when there is one, whose error is the tribe's
   * historical best.
   */
  ghost predicate IsSeed(t: Tribe, objective: ObjectiveFunction)
    reads t, t.members
  {
    && |t.members| == 1 && t.informers == [] && t.shaman == t.members[0] && !t.isGood
    && var p := t.members[0];
       && p.parent == t && Unmoved(p, objective) && SeedPosition(objective, p.position)
       && t.historicalBestError == p.bestSolution.error
  }

  /** Where the first particle goes: the initial guess when there is one, else a generated position. */
  ghost predicate SeedPosition(objective: ObjectiveFunction, v: Vector) {
    match objective.initialGuess
    case Some(guess) => v == guess
    case None => Generated(objective, v)
  }

  /** generatePosition(): one uniform draw per dimension between that dimension's bounds. */
  method GeneratePosition(objective: ObjectiveFunction) returns (v: Vector)
    requires objective.Valid()
    ensures Generated(objective, v)
  {
    var builder := new EuclidianVectorBuilder();
    var n := 0;
    while n < objective.dimensions
      invariant 0 <= n <= objective.dimensions
      invariant !builder.frozen && |builder.contents| == n
      invariant forall i :: 0 <= i < n ==> Between(builder.contents[i], objective.minBounds[i], objective.maxBounds[i])
    {
      var u: real :| 0.0 <= u < 1.0;
      var x := NextDouble(objective.minBounds[n], objective.maxBounds[n], u);
      NextDoubleBetween(objective.minBounds[n], objective.maxBounds[n], u);
      var _ := builder.Add(x);
      n := n + 1;
    }
    v := builder.Build();
  }

  /** generateNewParticle(): a new particle at a generated position. */
  method GenerateNewParticle(objective: ObjectiveFunction) returns (p: Particle)
    requires objective.Valid()
    ensures fresh(p) && p.IsNew(objective, p.position) && Generated(objective, p.position)
  {
    var position := GeneratePosition(objective);
    p := new Particle(objective, position);
  }

  /** generateNewParticle(n): n new particles, each at its own generated position. */
  method GenerateNewParticles(objective: ObjectiveFunction, count: nat) returns (ps: seq<Particle>)
    requires objective.Valid()
    ensures |ps| == count && NoDup(ps)
    ensures forall p | p in ps :: fresh(p) && p.IsNew(objective, p.position) && Generated(objective, p.position)
  {
    ps := [];
    var n := 0;
    while n < count
      invariant 0 <= n <= count && |ps| == n && NoDup(ps)
      invariant forall p | p in ps :: fresh(p) && p.IsNew(objective, p.position) && Generated(objective, p.position)
    {
      var p := GenerateNewParticle(objective);
      AppendNoDup(ps, p);
      ps := ps + [p];
      n := n + 1;
    }
  }

  /**
   * removeAllEmptyTribes(): one pass of a list iterator that drops every
   * tribe without members, keeping the order of the rest.
   */
  method RemoveAllEmptyTribes(ts: seq<Tribe>) returns (list: seq<Tribe>)
    ensures list == NonEmptyTribes(ts)
  {
    list := ts;
    var i := 0;
    ghost var k := 0;
    while i < |list|
      invariant 0 <= k <= |ts| && 0 <= i <= |list|
      invariant list[..i] == NonEmptyTribes(ts[..k])
      invariant list[i..] == ts[k..]
      decreases |list| - i
    {
      assert ts[..k + 1][..k] == ts[..k];
      assert ts[k] == list[i];
      if |list[i].members| == 0 {
        list := RemoveAt(list, i);
        assert list[i..] == ts[k + 1..];
      } else {
        assert list[..i + 1] == list[..i] + [ts[k]];
        i := i + 1;
      }
      k := k + 1;
    }
    assert ts[..k] == ts;
  }

  /** collectBadTribes(): the tribes that are not good, in list order. */
  method CollectBadTribes(ts: seq<Tribe>) returns (bad: seq<Tribe>)
    ensures bad == BadTribes(ts)
  {
    bad := [];
    var i := 0;
    while i < |ts|
      invariant 0 <= i <= |ts| && bad == BadTribes(ts[..i])
    {
      assert ts[..i + 1][..i] == ts[..i];
      if !ts[i].isGood {
        bad := bad + [ts[i]];
      }
      i := i + 1;
    }
    assert ts[..i] == ts;
  }

  /** The best-solution errors of each tribe's members, tribe by tribe. */
  ghost function ErrorLists(ts: seq<Tribe>): (r: seq<seq<real>>)
    reads ts, ParticlesOf(ts)
    ensures |r| == |ts| && forall i :: 0 <= i < |ts| ==> r[i] == ParticleErrors(ts[i].members)
  {
    seq(|ts|, i requires 0 <= i < |ts| reads ts, ParticlesOf(ts) => ParticleErrors(ts[i].members))
  }

  /**
   * Every tribe of ts culled, as adapt's first loop does, from its member
   * list in befores whose errors were those in errorss.
   */
  ghost predicate CulledAll(ts: seq<Tribe>, befores: seq<seq<Particle>>, errorss: seq<seq<real>>)
    reads ts`members, ts`isGood
  {
    && |befores| == |ts| && |errorss| == |ts|
    && forall i :: 0 <= i < |ts| ==> Culled(ts[i], befores[i], errorss[i])
  }

  /**
   * The end of adapt, from the surviving tribes to the tribes r: nothing
   * changes when no tribe is bad, and otherwise a new tribe of new
   * particles, one per bad tribe, is appended as the last informer of each.
   */
  twostate predicate Spawned(new survivors: seq<Tribe>, new bad: seq<Tribe>, new r: seq<Tribe>, objective: ObjectiveFunction)
    reads r, TribesOf(bad)`informers
    reads if |r| > 0 then {r[|r| - 1]} else {}
    reads if |r| > 0 then r[|r| - 1].members else []
  {
    && (bad == [] ==> r == survivors)
    && (bad != [] ==>
      && |r| == |survivors| + 1 && r[..|survivors|] == survivors
      && var newTribe := r[|survivors|];
      && fresh(newTribe) && (forall p | p in newTribe.members :: fresh(p))
      && NewlySpawned(newTribe, bad, objective)
      && forall b | b in bad :: |b.informers| > 0 && b.informers[|b.informers| - 1] == newTribe)
  }

  /**
   * adapt's new tribe t for the bad tribes: one new, unmoved particle per
   * bad tribe at a generated position, the bad tribes as its informers, not
   * good, and its shaman its first member of least error, whose error is its
   * historical best.
   */
  ghost predicate NewlySpawned(t: Tribe, bad: seq<Tribe>, objective: ObjectiveFunction)
    reads t, t.members
  {
    && |t.members| == |bad| > 0 && t.informers == bad && !t.isGood
    && t.shaman == BestOf(t.members) && t.historicalBestError == t.shaman.bestSolution.error
    && forall p | p in t.members :: p.parent == t && Unmoved(p, objective) && Generated(objective, p.position)
  }

  /**
   * The links adapt's new tribe leaves behind, from the survivors to the
   * tribes r: every bad tribe has the new tribe as one more informer, at the
   * end, and every other survivor keeps its informers as they were.
   */
  twostate predicate SpawnLinked(survivors: seq<Tribe>, bad: seq<Tribe>, new r: seq<Tribe>)
    reads TribesOf(survivors)`informers, TribesOf(bad)`informers
  {
    && (forall u | u in survivors && u !in bad :: u.informers == old(u.informers))
    && (|r| > |survivors| ==> forall b | b in bad :: b.informers == old(b.informers) + [r[|survivors|]])
  }

  /** A tribe whose members, links and judgement are as they were; only its shaman may have changed. */
  twostate predicate TribeKept(t: Tribe)
    reads t
  {
    && t.members == old(t.members) && t.informers == old(t.informers)
    && t.isGood == old(t.isGood) && t.historicalBestError == old(t.historicalBestError)
  }

  /** adapt's first loop and removeAllEmptyTribes, over a valid swarm. */
  method PruneSwarm(ts: seq<Tribe>, objective: ObjectiveFunction) returns (survivors: seq<Tribe>)
    requires ValidSwarm(ts, objective)
    modifies TribesOf(ts)`members, TribesOf(ts)`informers
    ensures ValidSwarm(survivors, objective) && survivors == NonEmptyTribes(ts)
    ensures forall t | t in survivors :: t in ts
    ensures CulledAll(ts, old(MemberLists(ts)), old(ErrorLists(ts)))
  {
    CullGoodTribes(ts, objective);
    survivors := RemoveAllEmptyTribes(ts);
    PruneValid(ts, objective);
  }

  /** The rest of adapt: collectBadTribes, then a new tribe linked with the bad ones, if there are any. */
  method RespawnSwarm(survivors: seq<Tribe>, objective: ObjectiveFunction, ghost ts: seq<Tribe>,
    ghost befores: seq<seq<Particle>>, ghost errorss: seq<seq<real>>) returns (r: seq<Tribe>)
    requires ValidSwarm(survivors, objective) && CulledAll(ts, befores, errorss)
    modifies TribesOf(survivors)`informers
    ensures ValidSwarm(r, objective) && Spawned(survivors, BadTribes(survivors), r, objective)
    ensures SpawnLinked(survivors, BadTribes(survivors), r)
    ensures forall t | t in r :: t in survivors || fresh(t)
    ensures CulledAll(ts, befores, errorss)
  {
    var bad := CollectBadTribes(survivors);
    BadTribesCollected(survivors);
    if bad == [] {
      r := survivors;
    } else {
      r := SpawnTribe(survivors, bad, objective);
      assert CulledAll(ts, befores, errorss);
    }
  }

  /** The new tribe of adapt, one generated particle per bad tribe, appended to the survivors. */
  method SpawnTribe(survivors: seq<Tribe>, bad: seq<Tribe>, objective: ObjectiveFunction) returns (r: seq<Tribe>)
    requires ValidSwarm(survivors, objective) && bad != []
    requires NoDup(bad) && forall b | b in bad :: b in survivors
    modifies TribesOf(survivors)`informers
    ensures ValidSwarm(r, objective) && Spawned(survivors, bad, r, objective)
    ensures SpawnLinked(survivors, bad, r)
    ensures forall t | t in r :: t in survivors || fresh(t)
  {
    var particles := GenerateNewParticles(objective, |bad|);
    assert AllUnmoved(particles, objective);
    var newTribe := Spawn(survivors, bad, particles, objective);
    assert AllUnmoved(particles, objective);
    assert NewlySpawned(newTribe, bad, objective);
    r := survivors + [newTribe];
    assert r[..|survivors|] == survivors;
  }

  /** adapt() over the tribes ts of a valid swarm; r: the new tribe list. */
  method AdaptSwarm(ts: seq<Tribe>, objective: ObjectiveFunction) returns (r: seq<Tribe>)
    requires ValidSwarm(ts, objective)
    modifies TribesOf(ts)`members, TribesOf(ts)`informers
    ensures ValidSwarm(r, objective) && forall t | t in r :: t in ts || fresh(t)
    ensures CulledAll(ts, old(MemberLists(ts)), old(ErrorLists(ts)))
    ensures Spawned(NonEmptyTribes(ts), BadTribes(NonEmptyTribes(ts)), r, objective)
  {
    ghost var befores := MemberLists(ts);
    ghost var errorss := ErrorLists(ts);
    var survivors := PruneSwarm(ts, objective);
    NonEmptyTribesKept(ts);
    r := RespawnSwarm(survivors, objective, ts, befores, errorss);
  }

  // ---------------------------------------------------------------------------
  // The search space
  // ---------------------------------------------------------------------------

  class SearchSpace {
    /** goodnessFunction */
    const objective: ObjectiveFunction
    const scheduling: Scheduling
    var tribeList: seq<Tribe>
    var movesSinceAdaptation: int

    ghost function TribeSet(): set<Tribe>
      reads this`tribeList
    {
      TribesOf(tribeList)
    }

    /** The swarm invariant, over this search space's tribes and objective. */
    ghost predicate Valid()
      reads this`tribeList, TribeSet()`members, TribeSet()`informers
      reads ParticlesOf(tribeList)`parent, ParticlesOf(tribeList)`history, ParticlesOf(tribeList)`position
    {
      ValidSwarm(tribeList, objective)
    }

    constructor (objective: ObjectiveFunction, scheduling: Scheduling)
      requires objective.Valid()
      ensures Valid()
      ensures this.objective == objective && this.scheduling == scheduling
      ensures tribeList == [] && movesSinceAdaptation == 0
    {
      this.objective := objective;
      this.scheduling := scheduling;
      tribeList := [];
      movesSinceAdaptation := 0;
      assert Links(TribesOf([])) == map[];
    }

    /** bestSolution(): nothing before the first tribe exists, else the best solution of a tribe with least error. */
    function BestSolution(): (r: Option<Solution>)
      reads this`tribeList, tribeList, Shamans(tribeList)
      ensures r.None? <==> tribeList == []
      ensures r.Some? ==> exists t :: t in tribeList && r.value == t.BestSolution()
      ensures r.Some? ==> forall t | t in tribeList :: r.value.error <= t.BestSolution().error
      ensures r.Some? ==>
        exists k :: 0 <= k < |tribeList| && r.value == tribeList[k].BestSolution() &&
          forall j :: 0 <= j < k ==> r.value.error < tribeList[j].BestSolution().error
    {
      if tribeList == [] then None
      else
        BestTribeOfIsFirst(tribeList);
        Some(BestTribeOf(tribeList).BestSolution())
    }

    /**
     * new Tribe(particles) followed by tribeList.add: the new tribe adopts
     * the particles, which belong to no tribe yet, and starts without links.
     */
    method AppendTribe(ps: seq<Particle>) returns (t: Tribe)
      requires Valid() && |ps| > 0 && NoDup(ps)
      requires forall p | p in ps :: p.parent == null && p.objective == objective && p.Valid()
      modifies this`tribeList, (set p | p in ps)`parent
      ensures Valid()
      ensures tribeList == old(tribeList) + [t] && fresh(t)
      ensures t.members == ps && t.informers == [] && t.shaman == BestOf(ps) && !t.isGood
      ensures t.historicalBestError == t.shaman.bestSolution.error
      ensures forall p | p in ps :: p.parent == t
    {
      t := NewTribe(ps, objective, tribeList);
      ReplaceTribes(tribeList + [t]);
    }

    /** The particle seedSearchSpace starts from: at the initial guess if there is one, else generated. */
    method SeedParticle() returns (r: Result<Particle, Exception>)
      requires objective.Valid()
      ensures r.Failure? <==> objective.initialGuess.Some? && |objective.initialGuess.value| != objective.dimensions
      ensures r.Failure? ==> r.error == DimensionMismatch
      ensures r.Success? ==> fresh(r.value) && r.value.IsNew(objective, r.value.position) && SeedPosition(objective, r.value.position)
    {
      match objective.initialGuess {
        case None =>
          var p := GenerateNewParticle(objective);
          r := Success(p);
        case Some(guess) =>
          r := Particle.Create(objective, guess);
      }
    }

    /**
     * seedSearchSpace(): appends a tribe of one new particle, placed at the
     * objective's initial guess when it has one (generateParticleAtPosition
     * refuses a guess of the wrong dimension) and at a generated position
     * otherwise.
     */
    method SeedSearchSpace() returns (o: Outcome<Exception>)
      requires Valid()
      modifies this`tribeList
      ensures Valid()
      ensures o.Fail? <==> objective.initialGuess.Some? && |objective.initialGuess.value| != objective.dimensions
      ensures o.Fail? ==> o.error == DimensionMismatch && tribeList == old(tribeList)
      ensures o.Pass? ==>
        && |tribeList| == |old(tribeList)| + 1 && tribeList[..|old(tribeList)|] == old(tribeList)
        && fresh(tribeList[|old(tribeList)|]) && fresh(tribeList[|old(tribeList)|].members[0])
        && IsSeed(tribeList[|old(tribeList)|], objective)
    {
      var r := SeedParticle();
      if r.Failure? {
        return Fail(r.error);
      }
      var initialTribe := AppendTribe([r.value]);
      assert tribeList[..|old(tribeList)|] == old(tribeList);
      o := Pass;
    }
  
    /**
     * move(): one pass over every particle, by the scheduling the search
     * space was built with. The multithreaded pass refuses a thread count
     * that is not positive before it moves anything. calculate stands for
     * the particles' calculateNewPosition.
     */
    method Move(calculate: (Solution, Solution) -> Vector) returns (o: Outcome<Exception>)
      requires Valid()
      requires forall own, informer :: |calculate(own, informer)| == objective.dimensions
      modifies ParticlesOf(tribeList)`history, ParticlesOf(tribeList)`bestSolution, ParticlesOf(tribeList)`position, ParticlesOf(tribeList)`currentError, ParticlesOf(tribeList)`moveCount
      ensures Valid()
      ensures o.Fail? <==> scheduling.Multithreaded? && scheduling.threadCount <= 0
      ensures o.Fail? ==> forall p | p in ParticlesOf(tribeList) :: unchanged(p)
      ensures o.Pass? ==> forall p | p in ParticlesOf(tribeList) :: MovedOnce(p)
    {
      o := MoveTribes(tribeList, objective, scheduling, calculate);
    }

    /** notifySwarmMoved on every tribe: each tribe's shaman becomes its first member of least error. */
    method NotifySwarmMoved()
      requires Valid()
      modifies TribeSet()`shaman
      ensures Valid() && LinkCount(tribeList) == old(LinkCount(tribeList))
      ensures forall t {:trigger t.ShamanElected()} | t in tribeList :: t.ShamanElected()
    {
      UpdateShamans(tribeList);
    }

    /**
     * notifySwarmAdapted on every tribe: a tribe whose best error beat its
     * historical best records it and is good on a fair coin (draws of the
     * random number generator); every other tribe is not good.
     */
    method NotifySwarmAdapted()
      requires Valid()
      modifies TribeSet()`isGood, TribeSet()`historicalBestError
      ensures Valid()
      ensures forall t | t in tribeList :: Adapted(t)
    {
      UpdateGoodness(tribeList);
    }

    /**
     * moveThenAdapt(): seeds an empty swarm and stops there. Otherwise it
     * moves every particle, counts the move, lets every tribe elect its
     * shaman, and when the moves since the last adaptation reach a quarter
     * of the links it adapts the swarm, restarts the count and lets every
     * tribe judge itself. posted: the events told to the event bus, in order.
     */
    method MoveThenAdapt(calculate: (Solution, Solution) -> Vector) returns (o: Outcome<Exception>, ghost posted: seq<SwarmEvent>)
      requires Valid()
      requires forall own, informer :: |calculate(own, informer)| == objective.dimensions
      modifies this`tribeList, this`movesSinceAdaptation
      modifies TribeSet()`shaman, TribeSet()`members, TribeSet()`informers, TribeSet()`isGood, TribeSet()`historicalBestError
      modifies ParticlesOf(tribeList)`history, ParticlesOf(tribeList)`bestSolution, ParticlesOf(tribeList)`position, ParticlesOf(tribeList)`currentError, ParticlesOf(tribeList)`moveCount
      ensures Valid()
      ensures old(tribeList) == [] ==>
        && posted == [] && movesSinceAdaptation == old(movesSinceAdaptation)
        && (o.Fail? <==> objective.initialGuess.Some? && |objective.initialGuess.value| != objective.dimensions)
        && (o.Fail? ==> tribeList == [])
        && (o.Pass? ==> |tribeList| == 1 && IsSeed(tribeList[0], objective))
      ensures old(tribeList) != [] ==> Stepped(old(tribeList), old(movesSinceAdaptation), old(LinkCount(tribeList)), scheduling, o, tribeList, movesSinceAdaptation, posted)
      ensures old(tribeList) != [] && o.Pass? ==> forall p | p in old(ParticlesOf(tribeList)) :: MovedOnce(p)
      ensures old(tribeList) != [] && o.Pass? && !NeedsToAdapt(old(movesSinceAdaptation) + 1, old(LinkCount(tribeList))) ==>
        forall t {:trigger t.ShamanElected()} | t in tribeList :: t.ShamanElected()
      ensures old(tribeList) != [] && o.Pass? && !NeedsToAdapt(old(movesSinceAdaptation) + 1, old(LinkCount(tribeList))) ==>
        forall t {:trigger TribeKept(t)} | t in old(tribeList) :: TribeKept(t)
    {
      EmptySwarm(tribeList, objective);
      if |Members(tribeList)| == 0 {
        o := SeedSearchSpace();
        return o, [];
      }
      o, posted := MoveAndAdapt(calculate);
    }

    /** The part of moveThenAdapt that runs once the swarm has tribes. */
    method MoveAndAdapt(calculate: (Solution, Solution) -> Vector) returns (o: Outcome<Exception>, ghost posted: seq<SwarmEvent>)
      requires Valid()
      requires forall own, informer :: |calculate(own, informer)| == objective.dimensions
      modifies this`tribeList, this`movesSinceAdaptation
      modifies TribeSet()`shaman, TribeSet()`members, TribeSet()`informers, TribeSet()`isGood, TribeSet()`historicalBestError
      modifies ParticlesOf(tribeList)`history, ParticlesOf(tribeList)`bestSolution, ParticlesOf(tribeList)`position, ParticlesOf(tribeList)`currentError, ParticlesOf(tribeList)`moveCount
      ensures Valid()
      ensures Stepped(old(tribeList), old(movesSinceAdaptation), old(LinkCount(tribeList)), scheduling, o, tribeList, movesSinceAdaptation, posted)
      ensures o.Pass? ==> forall p | p in old(ParticlesOf(tribeList)) :: MovedOnce(p)
      ensures o.Pass? && !NeedsToAdapt(old(movesSinceAdaptation) + 1, old(LinkCount(tribeList))) ==>
        forall t {:trigger t.ShamanElected()} | t in tribeList :: t.ShamanElected()
      ensures o.Pass? && !NeedsToAdapt(old(movesSinceAdaptation) + 1, old(LinkCount(tribeList))) ==>
        forall t {:trigger TribeKept(t)} | t in old(tribeList) :: TribeKept(t)
    {
      posted := [SwarmMoving];
      o := MoveAndCount(calculate);
      if o.Fail? {
        return;
      }
      posted := posted + [SwarmMoved];
      label moved:
      var adapted := NotifyThenAdaptIfDue();
      if adapted {
        posted := posted + [SwarmAdapting, SwarmAdapted];
      } else {
        forall t | t in old(tribeList)
          ensures TribeKept(t)
        {
          assert TribeKept@moved(t);
        }
      }
    }

    /** if (needsToAdapt(movesSinceAdaptation)): adapt, restart the count and let every tribe judge itself. */
    method AdaptIfDue() returns (adapted: bool)
      requires Valid()
      modifies this`tribeList, this`movesSinceAdaptation
      modifies TribeSet()`members, TribeSet()`informers, TribeSet()`isGood, TribeSet()`historicalBestError
      ensures Valid()
      ensures adapted == NeedsToAdapt(old(movesSinceAdaptation), old(LinkCount(tribeList)))
      ensures adapted ==> movesSinceAdaptation == 0
      ensures !adapted ==> tribeList == old(tribeList) && movesSinceAdaptation == old(movesSinceAdaptation) && unchanged(TribeSet())
    {
      var links := LinkCount(tribeList);
      adapted := NeedsToAdapt(movesSinceAdaptation, links);
      if adapted {
        AdaptAndRestart();
      }
    }

    /** move(), and when it succeeds movesSinceAdaptation++. */
    method MoveAndCount(calculate: (Solution, Solution) -> Vector) returns (o: Outcome<Exception>)
      requires Valid()
      requires forall own, informer :: |calculate(own, informer)| == objective.dimensions
      modifies this`movesSinceAdaptation
      modifies ParticlesOf(tribeList)`history, ParticlesOf(tribeList)`bestSolution, ParticlesOf(tribeList)`position, ParticlesOf(tribeList)`currentError, ParticlesOf(tribeList)`moveCount
      ensures Valid() && tribeList == old(tribeList) && LinkCount(tribeList) == old(LinkCount(tribeList))
      ensures o.Fail? <==> scheduling.Multithreaded? && scheduling.threadCount <= 0
      ensures o.Fail? ==> movesSinceAdaptation == old(movesSinceAdaptation)
      ensures o.Pass? ==> movesSinceAdaptation == old(movesSinceAdaptation) + 1
      ensures o.Pass? ==> forall p | p in old(ParticlesOf(tribeList)) :: MovedOnce(p)
    {
      o := MoveTribes(tribeList, objective, scheduling, calculate);
      if o.Pass? {
        CountMove();
      }
    }

    /**
     * The rest of moveThenAdapt after a successful move: notifySwarmMoved on
     * every tribe, then the adaptation when it is due. When it is not, the
     * tribes stay as they are with their shamans elected.
     */
    method NotifyThenAdaptIfDue() returns (adapted: bool)
      requires Valid()
      modifies this`tribeList, this`movesSinceAdaptation
      modifies TribeSet()`shaman, TribeSet()`members, TribeSet()`informers, TribeSet()`isGood, TribeSet()`historicalBestError
      ensures Valid()
      ensures adapted == NeedsToAdapt(old(movesSinceAdaptation), old(LinkCount(tribeList)))
      ensures adapted ==> movesSinceAdaptation == 0
      ensures !adapted ==> tribeList == old(tribeList) && movesSinceAdaptation == old(movesSinceAdaptation)
      ensures !adapted ==> forall t {:trigger t.ShamanElected()} | t in tribeList :: t.ShamanElected()
      ensures !adapted ==> forall t {:trigger TribeKept(t)} | t in old(tribeList) :: TribeKept(t)
    {
      NotifySwarmMoved();
      adapted := AdaptIfDue();
    }

    /** movesSinceAdaptation++ */
    method CountMove()
      requires Valid()
      modifies this`movesSinceAdaptation
      ensures Valid() && movesSinceAdaptation == old(movesSinceAdaptation) + 1
    {
      movesSinceAdaptation := movesSinceAdaptation + 1;
    }

    /** The adapting part of moveThenAdapt: adapt, restart the count, let every tribe judge itself. */
    method AdaptAndRestart()
      requires Valid()
      modifies this`tribeList, this`movesSinceAdaptation
      modifies TribeSet()`members, TribeSet()`informers, TribeSet()`isGood, TribeSet()`historicalBestError
      ensures Valid() && movesSinceAdaptation == 0
    {
      var r := AdaptAndJudge(tribeList, objective);
      ReplaceTribes(r);
      movesSinceAdaptation := 0;
    }

    /** The tribe list becomes the valid swarm r. */
    method ReplaceTribes(r: seq<Tribe>)
      requires ValidSwarm(r, objective)
      modifies this`tribeList
      ensures Valid() && tribeList == r
    {
      tribeList := r;
    }

    /**
     * adapt(): every good tribe tries to lose its worst particle, the tribes
     * left empty leave the list, and when some tribes are bad a new tribe,
     * one new particle per bad tribe, joins the swarm as the last informer
     * of each of them.
     */
    method Adapt()
      requires Valid()
      modifies this`tribeList, TribeSet()`members, TribeSet()`informers
      ensures Valid() && forall t | t in tribeList :: t in old(tribeList) || fresh(t)
      ensures CulledAll(old(tribeList), old(MemberLists(tribeList)), old(ErrorLists(tribeList)))
    {
      var r := AdaptSwarm(tribeList, objective);
      ReplaceTribes(r);
    }
  }

  /** After culling, dropping the empty tribes leaves a valid swarm of the others. */
  lemma PruneValid(ts: seq<Tribe>, objective: ObjectiveFunction)
    requires objective.Valid() && NoDup(ts) && forall t | t in ts :: Owns(t, objective)
    requires InformerGraph.WellFormed(Links(TribesOf(ts)))
    requires forall t | t in ts && |t.members| == 0 :: InformerGraph.Isolated(Links(TribesOf(ts)), t)
    ensures ValidSwarm(NonEmptyTribes(ts), objective)
    ensures forall t :: t in NonEmptyTribes(ts) <==> t in ts && |t.members| > 0
  {
    NonEmptyTribesOwned(ts, objective);
    NonEmptyTribesLinks(ts);
    NonEmptyTribesKept(ts);
  }

  /**
   * The new tribe of adapt over the particles ps, which belong to no tribe
   * yet, linked with each bad tribe of the swarm ts. Java links the bad
   * tribes before it appends the new tribe to the list; nothing observes
   * the order.
   */
  method Spawn(ts: seq<Tribe>, bad: seq<Tribe>, ps: seq<Particle>, objective: ObjectiveFunction) returns (t: Tribe)
    requires ValidSwarm(ts, objective) && NoDup(bad) && forall b | b in bad :: b in ts
    requires |ps| > 0 && NoDup(ps)
    requires forall p | p in ps :: p.parent == null && p.objective == objective && p.Valid()
    modifies (set p | p in ps)`parent, TribesOf(ts)`informers
    ensures fresh(t) && ValidSwarm(ts + [t], objective)
    ensures Founded(t, ps) && t.informers == bad
    ensures forall b | b in bad :: b.informers == old(b.informers) + [t]
    ensures forall u | u in ts && u !in bad :: u.informers == old(u.informers)
  {
    t := NewTribe(ps, objective, ts);
    LinkSpawned(ts, t, bad, objective, ps);
  }

  /** The links of a new tribe t, without informers, that has just joined the valid swarm ts. */
  method LinkSpawned(ts: seq<Tribe>, t: Tribe, bad: seq<Tribe>, objective: ObjectiveFunction, ghost ps: seq<Particle>)
    requires ValidSwarm(ts, objective) && ValidSwarm(ts + [t], objective) && t !in ts && t.informers == []
    requires NoDup(bad) && forall b | b in bad :: b in ts
    requires Founded(t, ps)
    modifies TribesOf(ts + [t])`informers
    ensures ValidSwarm(ts + [t], objective) && t.informers == bad && Founded(t, ps)
    ensures forall b | b in bad :: b.informers == old(b.informers) + [t]
    ensures forall u | u in ts && u !in bad :: u.informers == old(u.informers)
  {
    JoinsIsolated(ts, t);
    LinkNewTribe(ts + [t], t, bad, objective);
  }

  /**
   * What new Tribe(ps) sets up of t, apart from its links: the members ps,
   * each of which has t as its tribe, not good, and its shaman its first
   * member of least error, whose error is its historical best.
   */
  ghost predicate Founded(t: Tribe, ps: seq<Particle>)
    reads t`members, t`isGood, t`shaman, t`historicalBestError, ps
  {
    && t.members == ps && |ps| > 0 && !t.isGood
    && t.shaman == BestOf(ps) && t.historicalBestError == t.shaman.bestSolution.error
    && forall p | p in ps :: p.parent == t
  }

  /** adapt's loop over the bad tribes, on a valid swarm that newTribe has just joined. */
  method LinkNewTribe(ts: seq<Tribe>, newTribe: Tribe, bad: seq<Tribe>, objective: ObjectiveFunction)
    requires ValidSwarm(ts, objective) && newTribe in ts && InformerGraph.Isolated(Links(TribesOf(ts)), newTribe)
    requires NoDup(bad) && forall b | b in bad :: b in ts && b != newTribe
    modifies TribesOf(ts)`informers
    ensures ValidSwarm(ts, objective)
    ensures newTribe.informers == bad
    ensures forall b | b in bad :: b.informers == old(b.informers) + [newTribe]
    ensures forall t | t in ts && t != newTribe && t !in bad :: t.informers == old(t.informers)
  {
    LinkToNewTribe(newTribe, bad, TribesOf(ts));
    assert Owned(ts, objective) by {
      forall i | 0 <= i < |ts|
        ensures |ts[i].members| > 0 && Owns(ts[i], objective)
      {
        forall p | p in ts[i].members
          ensures p.parent == ts[i] && p.objective == objective && p.Valid()
        {
          assert p in ParticlesOf(ts);
        }
      }
    }
  }

  /**
   * The loop of adapt over the bad tribes: each adds the new tribe as an
   * informer, which links the two both ways.
   */
  method LinkToNewTribe(newTribe: Tribe, bad: seq<Tribe>, ghost universe: set<Tribe>)
    requires newTribe in universe && NoDup(bad) && forall b | b in bad :: b in universe && b != newTribe
    requires InformerGraph.WellFormed(Links(universe)) && InformerGraph.Isolated(Links(universe), newTribe)
    modifies (set t | t in universe)`informers
    ensures InformerGraph.WellFormed(Links(universe))
    ensures newTribe.informers == bad
    ensures forall b | b in bad :: b.informers == old(b.informers) + [newTribe]
    ensures forall t | t in universe && t != newTribe && t !in bad :: t.informers == old(t.informers)
  {
    ghost var before: map<Tribe, seq<Tribe>> := Links(universe);
    var k := 0;
    while k < |bad|
      invariant 0 <= k <= |bad| && LinkProgress(newTribe, bad, k, universe, before)
    {
      LinkAt(newTribe, bad, k, universe, before);
      k := k + 1;
    }
    assert bad[..k] == bad;
  }

  /** The links after the first k steps of adapt's loop over the bad tribes; before: the links at the start. */
  ghost predicate LinkProgress(newTribe: Tribe, bad: seq<Tribe>, k: nat, universe: set<Tribe>, before: map<Tribe, seq<Tribe>>)
    reads (set t | t in universe)`informers
  {
    && k <= |bad| && NoDup(bad) && newTribe in universe && before.Keys == universe
    && (forall b | b in bad :: b in universe && b != newTribe)
    && (forall a | a in before :: newTribe !in before[a])
    && InformerGraph.WellFormed(Links(universe))
    && newTribe.informers == bad[..k]
    && (forall j :: 0 <= j < k ==> bad[j].informers == before[bad[j]] + [newTribe])
    && (forall t | t in universe && t != newTribe && t !in bad[..k] :: t.informers == before[t])
  }

  /** Step k of adapt's loop over the bad tribes. */
  method LinkAt(newTribe: Tribe, bad: seq<Tribe>, k: nat, ghost universe: set<Tribe>, ghost before: map<Tribe, seq<Tribe>>)
    requires k < |bad| && LinkProgress(newTribe, bad, k, universe, before)
    modifies (set t | t in universe)`informers
    ensures LinkProgress(newTribe, bad, k + 1, universe, before)
  {
    var b := bad[k];
    assert b !in bad[..k];
    assert b.informers == before[b];
    LinkOne(b, newTribe, universe);
    assert bad[..k + 1] == bad[..k] + [b];
  }

  /** badTribe.addInformer(newTribe) for a tribe not yet linked to newTribe: each joins the other's list. */
  method LinkOne(b: Tribe, newTribe: Tribe, ghost universe: set<Tribe>)
    requires b in universe && newTribe in universe && b != newTribe
    requires InformerGraph.WellFormed(Links(universe)) && newTribe !in b.informers
    modifies b`informers, newTribe`informers
    ensures InformerGraph.WellFormed(Links(universe))
    ensures b.informers == old(b.informers) + [newTribe]
    ensures newTribe.informers == old(newTribe.informers) + [b]
  {
    ghost var g: map<Tribe, seq<Tribe>> := Links(universe);
    assert b !in g[newTribe];
    b.AddInformer(newTribe, universe);
    InformerGraph.AddInformerWellFormed<Tribe>(g, b, newTribe);
    assert Links(universe) == g[b := g[b] + [newTribe]][newTribe := g[newTribe] + [b]];
  }

  /**
   * What a call of moveThenAdapt on a swarm that already has tribes ts does,
   * in values: links is the swarm's link count before the call, o the
   * outcome, r the new tribes, newMoves the new count of moves since the
   * last adaptation and posted the events told to the event bus.
   */
  ghost predicate Stepped(ts: seq<Tribe>, moves: int, links: nat, scheduling: Scheduling,
                          o: Outcome<Exception>, r: seq<Tribe>, newMoves: int, posted: seq<SwarmEvent>)
  {
    && (o.Fail? <==> scheduling.Multithreaded? && scheduling.threadCount <= 0)
    && (o.Fail? ==> posted == [SwarmMoving] && newMoves == moves && r == ts)
    && (o.Pass? && NeedsToAdapt(moves + 1, links) ==>
          posted == [SwarmMoving, SwarmMoved, SwarmAdapting, SwarmAdapted] && newMoves == 0)
    && (o.Pass? && !NeedsToAdapt(moves + 1, links) ==>
          posted == [SwarmMoving, SwarmMoved] && newMoves == moves + 1 && r == ts)
  }

  /** The adapting part of moveThenAdapt: adapt, then notifySwarmAdapted on every tribe left. */
  method AdaptAndJudge(ts: seq<Tribe>, objective: ObjectiveFunction) returns (r: seq<Tribe>)
    requires ValidSwarm(ts, objective)
    modifies TribesOf(ts)`members, TribesOf(ts)`informers, TribesOf(ts)`isGood, TribesOf(ts)`historicalBestError
    ensures ValidSwarm(r, objective)
  {
    r := AdaptValid(ts, objective);
    UpdateGoodness(r);
  }

  /** adapt() as far as moveThenAdapt depends on it: a valid swarm of old and fresh tribes. */
  method AdaptValid(ts: seq<Tribe>, objective: ObjectiveFunction) returns (r: seq<Tribe>)
    requires ValidSwarm(ts, objective)
    modifies TribesOf(ts)`members, TribesOf(ts)`informers
    ensures ValidSwarm(r, objective) && forall t | t in r :: t in ts || fresh(t)
  {
    r := AdaptSwarm(ts, objective);
  }

  /** move() over the tribes ts of a valid swarm, which it leaves valid and with the same links. */
  method MoveTribes(ts: seq<Tribe>, objective: ObjectiveFunction, scheduling: Scheduling, calculate: (Solution, Solution) -> Vector)
    returns (o: Outcome<Exception>)
    requires ValidSwarm(ts, objective)
    requires forall own, informer :: |calculate(own, informer)| == objective.dimensions
    modifies ParticlesOf(ts)`history, ParticlesOf(ts)`bestSolution, ParticlesOf(ts)`position, ParticlesOf(ts)`currentError, ParticlesOf(ts)`moveCount
    ensures ValidSwarm(ts, objective) && LinkCount(ts) == old(LinkCount(ts)) && ParticlesOf(ts) == old(ParticlesOf(ts))
    ensures o.Fail? <==> scheduling.Multithreaded? && scheduling.threadCount <= 0
    ensures o.Fail? ==> forall p | p in ParticlesOf(ts) :: unchanged(p)
    ensures o.Pass? ==> forall p | p in ParticlesOf(ts) :: MovedOnce(p)
  {
    ghost var links: map<Tribe, seq<Tribe>> := Links(TribesOf(ts));
    o := MoveSwarm(ts, objective, scheduling, calculate);
    assert Links(TribesOf(ts)) == links;
    assert Owned(ts, objective) by {
      forall i | 0 <= i < |ts|
        ensures Owns(ts[i], objective)
      {
        forall p | p in ts[i].members
          ensures p.parent == ts[i] && p.objective == objective && p.Valid()
        {
          assert p in ParticlesOf(ts);
        }
      }
    }
  }

  /** The move() of either scheduling, over the tribes ts. */
  method MoveSwarm(ts: seq<Tribe>, objective: ObjectiveFunction, scheduling: Scheduling, calculate: (Solution, Solution) -> Vector)
    returns (o: Outcome<Exception>)
    requires Owned(ts, objective)
    requires forall own, informer :: |calculate(own, informer)| == objective.dimensions
    modifies ParticlesOf(ts)`history, ParticlesOf(ts)`bestSolution, ParticlesOf(ts)`position, ParticlesOf(ts)`currentError, ParticlesOf(ts)`moveCount
    ensures o.Fail? <==> scheduling.Multithreaded? && scheduling.threadCount <= 0
    ensures o.Fail? ==> forall p | p in ParticlesOf(ts) :: unchanged(p)
    ensures o.Pass? ==> forall p | p in ParticlesOf(ts) :: MovedOnce(p)
  {
    match scheduling {
      case SingleThreaded =>
        ghost var order, visited := SingleThreadedSearchSpace.Move(ts, objective, calculate);
        o := Pass;
      case Multithreaded(threadCount) =>
        ghost var order;
        var tasks;
        o, order, tasks := MultithreadedSearchSpace.Move(ts, objective, calculate, threadCount);
    }
  }

  /** What the first loop of adapt leaves of one tribe's member list, before: the list it had. */
  ghost predicate Culled(t: Tribe, before: seq<Particle>, errors: seq<real>)
    reads t`members, t`isGood
  {
    && |errors| == |before|
    && (!t.isGood || |before| == 0 ==> t.members == before)
    && (t.isGood && |before| > 1 ==> t.members == RemoveFirst(before, before[ArgMax(errors)]))
    && (t.isGood && |before| == 1 ==> t.members == before || t.members == [])
  }

  /**
   * tryRemoveWorstParticle on one good tribe of a swarm: the tribe still
   * owns what is left of its members, and a tribe that dies takes all its
   * links with it.
   */
  method CullTribe(t: Tribe, objective: ObjectiveFunction, ghost universe: set<Tribe>)
    requires t in universe && InformerGraph.WellFormed(Links(universe))
    requires t.isGood && |t.members| > 0 && Owns(t, objective)
    modifies t`members, (set u | u in universe)`informers
    ensures Owns(t, objective) && Culled(t, old(t.members), old(ParticleErrors(t.members)))
    ensures InformerGraph.WellFormed(Links(universe))
    ensures t.members == [] ==> InformerGraph.Isolated(Links(universe), t)
    ensures forall x | x in universe && x != t && InformerGraph.Isolated(old(Links(universe)), x) ::
      InformerGraph.Isolated(Links(universe), x)
    ensures |old(t.members)| == 1 ==> (t.members == [] <==> old(t.HasBetterInformer()))
    ensures t.members != [] ==> Links(universe) == old(Links(universe))
    ensures t.members == [] ==>
      Links(universe) == InformerGraph.Redistribute(old(Links(universe)), t, old(BestTribeOf(t.informers)))
  {
    ghost var before := t.members;
    ghost var errors := ParticleErrors(before);
    var _ := t.TryRemoveWorstParticle(universe);
    assert ParticleErrors(before) == errors;
    if |before| > 1 {
      RemoveFirstNoDup(before, WorstOf(before));
    }
  }

  /**
   * The first loop of adapt: every good tribe tries to remove its worst
   * particle. befores holds the member lists as they were before the loop.
   */
  method CullGoodTribes(ts: seq<Tribe>, objective: ObjectiveFunction)
    requires ValidSwarm(ts, objective)
    modifies TribesOf(ts)`members, TribesOf(ts)`informers
    ensures NoDup(ts) && forall t | t in ts :: Owns(t, objective)
    ensures InformerGraph.WellFormed(Links(TribesOf(ts)))
    ensures forall t | t in ts && |t.members| == 0 :: InformerGraph.Isolated(Links(TribesOf(ts)), t)
    ensures CulledAll(ts, old(MemberLists(ts)), old(ErrorLists(ts)))
  {
    ghost var befores := MemberLists(ts);
    ghost var errorss := ErrorLists(ts);
    var i := 0;
    while i < |ts|
      invariant 0 <= i <= |ts|
      invariant CullProgress(ts, befores, errorss, i, objective)
    {
      CullAt(ts, befores, errorss, i, objective);
      i := i + 1;
    }
  }

  /** The particles of some member lists, as a set. */
  ghost function Flatten(lists: seq<seq<Particle>>): (r: set<Particle>)
    ensures forall j, p | 0 <= j < |lists| && p in lists[j] :: p in r
  {
    set j, p | 0 <= j < |lists| && p in lists[j] :: p
  }

  /** The state after the first i steps of adapt's first loop. */
  ghost predicate CullProgress(ts: seq<Tribe>, befores: seq<seq<Particle>>, errorss: seq<seq<real>>, i: nat, objective: ObjectiveFunction)
    reads ts`members, ts`isGood, TribesOf(ts)`informers, Flatten(befores)
    reads ParticlesOf(ts)`parent, ParticlesOf(ts)`history, ParticlesOf(ts)`position
  {
    && i <= |ts| && |befores| == |ts| && |errorss| == |ts| && NoDup(ts)
    && (forall t | t in ts :: Owns(t, objective))
    && InformerGraph.WellFormed(Links(TribesOf(ts)))
    && (forall t | t in ts && |t.members| == 0 :: InformerGraph.Isolated(Links(TribesOf(ts)), t))
    && (forall j :: 0 <= j < i ==> Culled(ts[j], befores[j], errorss[j]))
    && (forall j :: i <= j < |ts| ==> ts[j].members == befores[j] && |befores[j]| > 0)
    && (forall j :: i <= j < |ts| ==> errorss[j] == ParticleErrors(befores[j]))
  }

  /** The body of adapt's first loop, for one tribe t: a good tribe tries to remove its worst particle. */
  method CullIfGood(t: Tribe, objective: ObjectiveFunction, ghost universe: set<Tribe>)
    requires t in universe && InformerGraph.WellFormed(Links(universe))
    requires |t.members| > 0 && Owns(t, objective)
    modifies t`members, (set u | u in universe)`informers
    ensures Owns(t, objective) && Culled(t, old(t.members), old(ParticleErrors(t.members)))
    ensures InformerGraph.WellFormed(Links(universe))
    ensures t.members == [] ==> InformerGraph.Isolated(Links(universe), t)
    ensures forall x | x in universe && x != t && InformerGraph.Isolated(old(Links(universe)), x) ::
      InformerGraph.Isolated(Links(universe), x)
  {
    if t.isGood {
      CullTribe(t, objective, universe);
    }
  }

  /** Step i of adapt's first loop. */
  method CullAt(ts: seq<Tribe>, ghost befores: seq<seq<Particle>>, ghost errorss: seq<seq<real>>, i: nat, objective: ObjectiveFunction)
    requires i < |ts| && CullProgress(ts, befores, errorss, i, objective)
    modifies TribesOf(ts[i..i + 1])`members, TribesOf(ts)`informers
    ensures CullProgress(ts, befores, errorss, i + 1, objective)
  {
    var t := ts[i];
    ghost var universe := TribesOf(ts);
    label Before:
    CullIfGood(t, objective, universe);
    assert Culled(t, befores[i], errorss[i]);
    forall j | 0 <= j < |ts| && j != i
      ensures ts[j].members == old@Before(ts[j].members)
    {
      assert ts[j] != t;
    }
  }

  /** The loop of notifySwarmMoved. */
  method UpdateShamans(ts: seq<Tribe>)
    requires forall t | t in ts :: |t.members| > 0
    modifies TribesOf(ts)`shaman
    ensures forall t | t in ts :: t.shaman == BestOf(t.members)
  {
    var i := 0;
    while i < |ts|
      invariant 0 <= i <= |ts|
      invariant forall j :: 0 <= j < i ==> ts[j].shaman == BestOf(ts[j].members)
    {
      ts[i].UpdateShaman();
      i := i + 1;
    }
  }

  /** The loop of notifySwarmAdapted; each draw stands for one rng.nextDouble(). */
  method UpdateGoodness(ts: seq<Tribe>)
    requires NoDup(ts)
    modifies TribesOf(ts)`isGood, TribesOf(ts)`historicalBestError
    ensures forall t | t in ts :: Adapted(t)
  {
    var i := 0;
    while i < |ts|
      invariant 0 <= i <= |ts|
      invariant forall j :: 0 <= j < i ==> Adapted(ts[j])
      invariant forall j :: i <= j < |ts| ==> unchanged(ts[j])
    {
      var draw: real :| 0.0 <= draw < 1.0;
      ts[i].UpdateIsGood(draw);
      i := i + 1;
    }
  }

  /** What notifySwarmAdapted does to one tribe. */
  twostate predicate Adapted(t: Tribe)
    reads t, t.shaman
  {
    && t.historicalBestError <= old(t.historicalBestError)
    && (old(t.BestSolution().error) < old(t.historicalBestError) ==> t.historicalBestError == t.BestSolution().error)
    && (!(old(t.BestSolution().error) < old(t.historicalBestError)) ==>
          !t.isGood && t.historicalBestError == old(t.historicalBestError))
  }
}
