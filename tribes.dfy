/**
 * Particles and tribes. A particle remembers its best solution and a short
 * improvement history, and belongs to at most one tribe, set once. A tribe
 * owns its member particles, elects the best of them as its shaman, and keeps
 * a list of informer tribes; the informer relation between tribes is
 * symmetric, and InformerGraph states each link operation on it as a value.
 *
 * Particle and Tribe point at each other, so both classes live in one module.
 */
module Tribes {
  import opened Wrappers
  import opened Exceptions
  import opened EuclidianVectors
  import opened EuclidianVectorBuilders
  import opened Ordering
  import opened SeqUtils
  import ParticleHistory
  import InformerGraph

  /** A point of the search space and the objective's error there. */
  datatype Solution = Solution(position: Vector, error: real)

  /** IObjectiveFunction: the function to minimise, its bounds and an optional initial guess. */
  class ObjectiveFunction {
    const dimensions: nat
    const minBounds: Vector
    const maxBounds: Vector
    const initialGuess: Option<Vector>
    const evaluate: Vector -> real

    constructor (dimensions: nat, minBounds: Vector, maxBounds: Vector,
                 initialGuess: Option<Vector>, evaluate: Vector -> real)
      ensures this.dimensions == dimensions && this.minBounds == minBounds && this.maxBounds == maxBounds
      ensures this.initialGuess == initialGuess && this.evaluate == evaluate
    {
      this.dimensions := dimensions;
      this.minBounds := minBounds;
      this.maxBounds := maxBounds;
      this.initialGuess := initialGuess;
      this.evaluate := evaluate;
    }

    /** Both bounds have one entry per dimension. */
    predicate Valid() {
      |minBounds| == dimensions && |maxBounds| == dimensions
    }
  }

  // ---------------------------------------------------------------------------
  // Bounds
  // ---------------------------------------------------------------------------

  /** Every coordinate of v lies in [mins[i], maxs[i]]. */
  predicate InBounds(v: Vector, mins: Vector, maxs: Vector)
    requires |mins| == |v| && |maxs| == |v|
  {
    forall i :: 0 <= i < |v| ==> mins[i] <= v[i] <= maxs[i]
  }

  /** Math.max(Math.min(x, hi), lo) */
  function ClampEntry(x: real, lo: real, hi: real): real {
    var y := if x <= hi then x else hi;
    if y >= lo then y else lo
  }

  /** The coordinatewise correction correctBounds applies. */
  function Clamp(v: Vector, mins: Vector, maxs: Vector): (r: Vector)
    requires |mins| == |v| && |maxs| == |v|
    ensures |r| == |v|
  {
    seq(|v|, i requires 0 <= i < |v| => ClampEntry(v[i], mins[i], maxs[i]))
  }

  /** With consistent bounds, a corrected vector is in bounds. */
  lemma ClampInBounds(v: Vector, mins: Vector, maxs: Vector)
    requires |mins| == |v| && |maxs| == |v|
    requires forall i :: 0 <= i < |v| ==> mins[i] <= maxs[i]
    ensures InBounds(Clamp(v, mins, maxs), mins, maxs)
  {
  }

  /** An in-bounds vector is left as it is. */
  lemma ClampKeepsInBounds(v: Vector, mins: Vector, maxs: Vector)
    requires |mins| == |v| && |maxs| == |v| && InBounds(v, mins, maxs)
    ensures Clamp(v, mins, maxs) == v
  {
  }

  /** Correcting twice is correcting once, even when some min exceeds its max. */
  lemma ClampIdempotent(v: Vector, mins: Vector, maxs: Vector)
    requires |mins| == |v| && |maxs| == |v|
    ensures Clamp(Clamp(v, mins, maxs), mins, maxs) == Clamp(v, mins, maxs)
  {
    var c := Clamp(v, mins, maxs);
    forall i | 0 <= i < |v| ensures Clamp(c, mins, maxs)[i] == c[i] {
    }
  }

  // ---------------------------------------------------------------------------
  // OrderBySolutionErrorAsc
  // ---------------------------------------------------------------------------

  /** The best-solution errors of ps, in order. */
  function ParticleErrors(ps: seq<Particle>): (r: seq<real>)
    reads ps
    ensures |r| == |ps| && forall i :: 0 <= i < |ps| ==> r[i] == ps[i].bestSolution.error
  {
    seq(|ps|, i requires 0 <= i < |ps| reads ps => ps[i].bestSolution.error)
  }

  /** The errors of the tribes' best solutions (their shamans' best solutions), in order. */
  function TribeErrors(ts: seq<Tribe>): (r: seq<real>)
    reads ts, Shamans(ts)
    ensures |r| == |ts| && forall i :: 0 <= i < |ts| ==> r[i] == ts[i].shaman.bestSolution.error
  {
    seq(|ts|, i requires 0 <= i < |ts| reads ts, Shamans(ts) => ts[i].shaman.bestSolution.error)
  }

  /** OrderBySolutionErrorAsc.min over particles: the first one of least error. */
  function BestOf(ps: seq<Particle>): (b: Particle)
    requires |ps| > 0
    reads ps
    ensures b in ps && forall p | p in ps :: b.bestSolution.error <= p.bestSolution.error
  {
    ps[ArgMin(ParticleErrors(ps))]
  }

  /** OrderBySolutionErrorAsc.max over particles: the first one of greatest error. */
  function WorstOf(ps: seq<Particle>): (w: Particle)
    requires |ps| > 0
    reads ps
    ensures w in ps && forall p | p in ps :: p.bestSolution.error <= w.bestSolution.error
  {
    ps[ArgMax(ParticleErrors(ps))]
  }

  /** OrderBySolutionErrorAsc.min over tribes: the first one whose best solution has least error. */
  function BestTribeOf(ts: seq<Tribe>): (b: Tribe)
    requires |ts| > 0
    reads ts, Shamans(ts)
    ensures b in ts && forall t | t in ts :: b.shaman.bestSolution.error <= t.shaman.bestSolution.error
  {
    ts[ArgMin(TribeErrors(ts))]
  }

  /** Of several particles of least error, BestOf picks the first. */
  lemma BestOfIsFirst(ps: seq<Particle>)
    requires |ps| > 0
    ensures
      exists k :: 0 <= k < |ps| && ps[k] == BestOf(ps) &&
        forall j :: 0 <= j < k ==> BestOf(ps).bestSolution.error < ps[j].bestSolution.error
  {
    var k := ArgMin(ParticleErrors(ps));
    assert ps[k] == BestOf(ps);
  }

  /** Of several particles of greatest error, WorstOf picks the first. */
  lemma WorstOfIsFirst(ps: seq<Particle>)
    requires |ps| > 0
    ensures
      exists k :: 0 <= k < |ps| && ps[k] == WorstOf(ps) &&
        forall j :: 0 <= j < k ==> ps[j].bestSolution.error < WorstOf(ps).bestSolution.error
  {
    var k := ArgMax(ParticleErrors(ps));
    assert ps[k] == WorstOf(ps);
  }

  /** Of several tribes whose best solutions have least error, BestTribeOf picks the first. */
  lemma BestTribeOfIsFirst(ts: seq<Tribe>)
    requires |ts| > 0
    ensures
      exists k :: 0 <= k < |ts| && ts[k] == BestTribeOf(ts) &&
        forall j :: 0 <= j < k ==> BestTribeOf(ts).shaman.bestSolution.error < ts[j].shaman.bestSolution.error
  {
    var k := ArgMin(TribeErrors(ts));
    assert ts[k] == BestTribeOf(ts);
  }

  /** The shamans of the tribes ts, in order. */
  function Shamans(ts: seq<Tribe>): (r: seq<Particle>)
    reads ts
    ensures |r| == |ts| && forall i :: 0 <= i < |ts| ==> r[i] == ts[i].shaman
  {
    seq(|ts|, i requires 0 <= i < |ts| reads ts => ts[i].shaman)
  }

  /** The internal informer counts of the particles ps, summed. */
  ghost function InformerCounts(ps: seq<Particle>): nat
    reads ps, set p | p in ps && p.parent != null :: p.parent
  {
    if ps == [] then 0 else InformerCounts(ps[..|ps| - 1]) + |ps[|ps| - 1].InternalInformers()|
  }

  /** The informer relation among the tribes ts, as a value. */
  ghost function Links(ts: set<Tribe>): map<Tribe, seq<Tribe>>
    reads ts`informers
  {
    map t | t in ts :: t.informers
  }

  // ---------------------------------------------------------------------------
  // Particle
  // ---------------------------------------------------------------------------

  class Particle {
    const objective: ObjectiveFunction
    /** solutionHistory, newest first */
    var history: seq<bool>
    var parent: Tribe?
    var bestSolution: Solution
    var position: Vector
    var currentError: real
    /** How often move() has been called on this particle; bookkeeping of the model only. */
    ghost var moveCount: nat

    /** The state of a freshly constructed particle at initialPosition. */
    ghost predicate IsNew(objective: ObjectiveFunction, initialPosition: Vector)
      reads this
    {
      && this.objective == objective
      && history == ParticleHistory.Initial()
      && parent == null
      && position == initialPosition
      && bestSolution == Solution(initialPosition, objective.evaluate(initialPosition))
      && currentError == bestSolution.error
      && moveCount == 0
    }

    constructor (objective: ObjectiveFunction, initialPosition: Vector)
      requires |initialPosition| == objective.dimensions
      ensures IsNew(objective, initialPosition)
    {
      this.objective := objective;
      position := initialPosition;
      bestSolution := Solution(initialPosition, objective.evaluate(initialPosition));
      currentError := objective.evaluate(initialPosition);
      history := ParticleHistory.Initial();
      parent := null;
      moveCount := 0;
    }

    /** The constructor, which rejects a position whose dimension differs from the objective's. */
    static method Create(objective: ObjectiveFunction, initialPosition: Vector) returns (r: Result<Particle, Exception>)
      ensures r.Failure? <==> |initialPosition| != objective.dimensions
      ensures r.Failure? ==> r.error == DimensionMismatch
      ensures r.Success? ==> fresh(r.value) && r.value.IsNew(objective, initialPosition)
    {
      if objective.dimensions != Dimensions(initialPosition) {
        return Failure(DimensionMismatch);
      }
      var p := new Particle(objective, initialPosition);
      return Success(p);
    }

    /** The history has its fixed length and the position matches the objective. */
    predicate Valid()
      reads this`history, this`position
    {
      |history| == ParticleHistory.HistoryLength && |position| == objective.dimensions && objective.Valid()
    }

    /** isGood: the last move improved the best solution. */
    predicate IsGood()
      reads this
    {
      ParticleHistory.IsGood(history)
    }

    /** isExcellent: the last two moves both improved the best solution. */
    predicate IsExcellent()
      reads this
    {
      ParticleHistory.IsExcellent(history)
    }

    /** setParent: the parent tribe can be set once only, and only to a tribe that lists this particle. */
    method SetParent(value: Tribe) returns (o: Outcome<Exception>)
      modifies this`parent
      ensures old(parent) == null && this in value.members ==> o.Pass? && parent == value
      ensures old(parent) == null && this !in value.members ==> o.Fail? && o.error.IllegalState? && parent == null
      ensures old(parent) == value ==> o.Pass? && parent == value
      ensures old(parent) != null && old(parent) != value ==> o.Fail? && o.error.IllegalState? && parent == old(parent)
    {
      if parent == null {
        if this !in value.members {
          return Fail(IllegalState("The particle is not actually a member of this tribe"));
        }
        parent := value;
      } else if parent != value {
        return Fail(IllegalState("The parent tribe of a particle cannot be changed once it has been assigned"));
      }
      return Pass;
    }

    /** internalInformers: the parent's members, or the particle alone when it has no tribe. */
    function InternalInformers(): (r: seq<Particle>)
      reads this, parent
      ensures parent == null ==> r == [this]
      ensures parent != null ==> r == parent.members
    {
      if parent == null then [this] else parent.members
    }

    /** The tribes the parent is informed by. */
    function InformerTribes(): seq<Tribe>
      reads this, parent
    {
      if parent == null then [] else parent.informers
    }

    /** externalInformers: the shamans of the parent's informers, but only for the parent's shaman. */
    function ExternalInformers(): (r: seq<Particle>)
      reads this, parent, InformerTribes()
      ensures parent == null || parent.shaman != this ==> r == []
      ensures parent != null && parent.shaman == this ==> r == parent.ExternalLinks()
    {
      if parent == null || parent.shaman != this then [] else parent.ExternalLinks()
    }

    /**
     * The best informer move() follows: the first internal informer of least
     * error, replaced by the first external informer of least error only when
     * that one is strictly better.
     */
    function BestInformer(): (b: Particle)
      requires parent != null ==> |parent.members| > 0
      reads this, parent, InformerTribes(), InternalInformers(), ExternalInformers()
      ensures b in InternalInformers() || b in ExternalInformers()
      ensures forall p | p in InternalInformers() :: b.bestSolution.error <= p.bestSolution.error
      ensures forall p | p in ExternalInformers() :: b.bestSolution.error <= p.bestSolution.error
    {
      var internal := BestOf(InternalInformers());
      var external := ExternalInformers();
      if external == [] then internal
      else
        var bestExternal := BestOf(external);
        if bestExternal.bestSolution.error < internal.bestSolution.error then bestExternal else internal
    }

    /** A particle of its own tribe stays put exactly when it is the first best member and no external informer is strictly better. */
    lemma StaysPutIff()
      requires parent != null ==> |parent.members| > 0
      requires this in InternalInformers()
      ensures BestInformer() == this <==>
        BestOf(InternalInformers()) == this &&
        forall p | p in ExternalInformers() :: bestSolution.error <= p.bestSolution.error
    {
      var internal := BestOf(InternalInformers());
      assert internal.bestSolution.error <= bestSolution.error;
    }

    /** isOutOfBounds: some coordinate lies below its minimum or above its maximum. */
    method IsOutOfBounds(v: Vector) returns (out: bool)
      requires objective.Valid() && |v| == objective.dimensions
      ensures out <==> !InBounds(v, objective.minBounds, objective.maxBounds)
    {
      var maxs := objective.maxBounds;
      var mins := objective.minBounds;
      var i := 0;
      while i < objective.dimensions
        invariant 0 <= i <= objective.dimensions
        invariant forall j :: 0 <= j < i ==> mins[j] <= v[j] <= maxs[j]
      {
        if v[i] < mins[i] {
          return true;
        }
        if v[i] > maxs[i] {
          return true;
        }
        i := i + 1;
      }
      return false;
    }

    /** correctBounds: an in-bounds vector is returned as is, any other is clamped coordinate by coordinate. */
    method CorrectBounds(v: Vector) returns (r: Vector)
      requires objective.Valid() && |v| == objective.dimensions
      ensures r == Clamp(v, objective.minBounds, objective.maxBounds)
    {
      var out := IsOutOfBounds(v);
      if !out {
        ClampKeepsInBounds(v, objective.minBounds, objective.maxBounds);
        return v;
      }
      var maxs := objective.maxBounds;
      var mins := objective.minBounds;
      ghost var target := Clamp(v, mins, maxs);
      var builder := new EuclidianVectorBuilder();
      var i := 0;
      while i < objective.dimensions
        invariant 0 <= i <= objective.dimensions
        invariant fresh(builder) && !builder.frozen
        invariant builder.contents == target[..i]
      {
        var x := v[i];
        x := if x <= maxs[i] then x else maxs[i];
        x := if x >= mins[i] then x else mins[i];
        var _ := builder.Add(x);
        assert target[..i + 1] == target[..i] + [x];
        i := i + 1;
      }
      assert target[..i] == target;
      r := builder.Build();
    }

    /** memorizePerformance: push the flag at the front, then drop entries past HistoryLength. */
    method MemorizePerformance(improved: bool)
      modifies this`history
      ensures history == ParticleHistory.Memorize(old(history), improved)
    {
      ghost var pushed := [improved] + history;
      history := [improved] + history;
      while |history| > ParticleHistory.HistoryLength
        invariant |pushed| > ParticleHistory.HistoryLength ==>
          |history| >= ParticleHistory.HistoryLength && history[..ParticleHistory.HistoryLength] == pushed[..ParticleHistory.HistoryLength]
        invariant |pushed| <= ParticleHistory.HistoryLength ==> history == pushed
        decreases |history|
      {
        history := RemoveAt(history, ParticleHistory.HistoryLength);
      }
    }

    /**
     * move: stay put when this particle is its own best informer; otherwise go
     * to the corrected position the strategy computes from the best informer's
     * best solution, keep it as the best solution only on a strict improvement,
     * and memorize whether it was one. The strategy stands for
     * calculateNewPosition, of which only the dimension is known.
     */
    method Move(strategy: Solution -> Vector)
      requires parent != null ==> |parent.members| > 0
      requires Valid()
      requires forall s :: |strategy(s)| == objective.dimensions
      modifies this`history, this`bestSolution, this`position, this`currentError, this`moveCount
      ensures Valid() && parent == old(parent) && moveCount == old(moveCount) + 1
      ensures old(BestInformer()) == this ==>
        history == old(history) && bestSolution == old(bestSolution) &&
        position == old(position) && currentError == old(currentError)
      ensures old(BestInformer()) != this ==>
        var np := Clamp(strategy(old(BestInformer().bestSolution)), objective.minBounds, objective.maxBounds);
        var e := objective.evaluate(np);
        && position == np && currentError == e
        && bestSolution == (if e < old(bestSolution.error) then Solution(np, e) else old(bestSolution))
        && history == ParticleHistory.Memorize(old(history), e < old(bestSolution.error))
      ensures bestSolution.error <= old(bestSolution.error)
    {
      var best := BestInformer();
      moveCount := moveCount + 1;
      if best == this {
        return;
      }
      var informerSolution := best.bestSolution;
      var candidate := strategy(informerSolution);
      var newPosition := CorrectBounds(candidate);
      var newError := objective.evaluate(newPosition);
      Relocate(newPosition, newError);
    }

    /**
     * The end of move: memorize whether the new error improves on the best
     * solution, keep the new position as the best solution if it does, and
     * go there.
     */
    method Relocate(newPosition: Vector, newError: real)
      requires Valid() && |newPosition| == objective.dimensions
      modifies this`history, this`bestSolution, this`position, this`currentError
      ensures Valid() && position == newPosition && currentError == newError
      ensures bestSolution == (if newError < old(bestSolution.error) then Solution(newPosition, newError) else old(bestSolution))
      ensures history == ParticleHistory.Memorize(old(history), newError < old(bestSolution.error))
      ensures IsGood() <==> newError < old(bestSolution.error)
      ensures IsExcellent() <==> newError < old(bestSolution.error) && old(IsGood())
    {
      var improved := newError < bestSolution.error;
      ParticleHistory.MemorizeDecidesGood(history, improved);
      ParticleHistory.MemorizeDecidesExcellent(history, improved);
      MemorizePerformance(improved);
      if improved {
        bestSolution := Solution(newPosition, newError);
      }
      position := newPosition;
      currentError := newError;
    }
  }

  // ---------------------------------------------------------------------------
  // Tribe
  // ---------------------------------------------------------------------------

  class Tribe {
    var members: seq<Particle>
    var informers: seq<Tribe>
    var shaman: Particle
    var isGood: bool
    var historicalBestError: real

    /** The fields the constructor sets up, before its members are told their parent. */
    constructor (ms: seq<Particle>)
      requires |ms| > 0
      ensures members == ms && informers == [] && shaman == BestOf(ms)
      ensures historicalBestError == shaman.bestSolution.error && !isGood
    {
      members := ms;
      informers := [];
      shaman := BestOf(ms);
      historicalBestError := BestOf(ms).bestSolution.error;
      isGood := false;
    }

    /**
     * The constructor: rejects an empty member collection, then sets itself as
     * every member's parent (failing on a member that already has another
     * tribe), elects the shaman and records its error. The first updateIsGood
     * always finds no improvement, so a new tribe is not good.
     */
    static method Create(ms: seq<Particle>) returns (r: Result<Tribe, Exception>, ghost failedAt: nat)
      modifies ms`parent
      ensures |ms| == 0 ==> r == Failure(IllegalArgument("must have a member"))
      ensures |ms| > 0 ==> (r.Success? <==> forall p | p in ms :: old(p.parent) == null)
      ensures r.Failure? ==> r.error.IllegalArgument? || r.error.IllegalState?
      ensures r.Success? ==>
        && fresh(r.value)
        && r.value.members == ms && r.value.informers == []
        && r.value.shaman == BestOf(ms)
        && r.value.historicalBestError == r.value.shaman.bestSolution.error
        && !r.value.isGood
      ensures r.Success? ==> forall p | p in ms :: p.parent == r.value
      ensures forall p | p in ms && old(p.parent) != null :: p.parent == old(p.parent)
      ensures |ms| > 0 && r.Failure? ==>
        && failedAt < |ms| && old(ms[failedAt].parent) != null
        && (forall j :: 0 <= j < failedAt ==> old(ms[j].parent) == null && ms[j].parent != null && fresh(ms[j].parent) && ms[j].parent == ms[0].parent)
        && (forall p | p in ms && p !in ms[..failedAt] :: p.parent == old(p.parent))
    {
      if |ms| == 0 {
        return Failure(IllegalArgument("must have a member")), 0;
      }
      var t, o;
      t, o, failedAt := Found(ms);
      if o.Fail? {
        assert forall j :: 0 <= j < failedAt ==> ms[j].parent == t;
        return Failure(o.error), failedAt;
      }
      assert forall p | p in ms :: p.parent == t;
      r := Success(t);
      failedAt := 0;
    }

    /** The constructor's work on a non-empty collection: set up the fields, then adopt the members. */
    static method Found(ms: seq<Particle>) returns (t: Tribe, o: Outcome<Exception>, ghost failedAt: nat)
      requires |ms| > 0
      modifies ms`parent
      ensures fresh(t) && t.members == ms && t.informers == [] && t.shaman == BestOf(ms)
      ensures t.historicalBestError == t.shaman.bestSolution.error && !t.isGood
      ensures o.Pass? <==> forall p | p in ms :: old(p.parent) == null
      ensures o.Fail? ==> o.error.IllegalState?
      ensures o.Pass? ==> forall p | p in ms :: p.parent == t
      ensures forall p | p in ms && old(p.parent) != null :: p.parent == old(p.parent)
      ensures o.Fail? ==>
        && failedAt < |ms| && old(ms[failedAt].parent) != null
        && (forall j :: 0 <= j < failedAt ==> old(ms[j].parent) == null && ms[j].parent == t)
        && (forall p | p in ms && p !in ms[..failedAt] :: p.parent == old(p.parent))
    {
      t := new Tribe(ms);
      ghost var errors := ParticleErrors(ms);
      o, failedAt := Adopt(t, ms);
      assert ParticleErrors(ms) == errors;
    }

    /** The constructor's loop: every member in turn is told that t is its parent. */
    static method Adopt(t: Tribe, ms: seq<Particle>) returns (o: Outcome<Exception>, ghost failedAt: nat)
      requires t.members == ms && forall p | p in ms :: p.parent != t
      modifies ms`parent
      ensures o.Pass? <==> forall p | p in ms :: old(p.parent) == null
      ensures o.Fail? ==> o.error.IllegalState?
      ensures o.Pass? ==> forall p | p in ms :: p.parent == t
      ensures forall p | p in ms && old(p.parent) != null :: p.parent == old(p.parent)
      ensures o.Fail? ==>
        && failedAt < |ms| && old(ms[failedAt].parent) != null
        && (forall j :: 0 <= j < failedAt ==> old(ms[j].parent) == null && ms[j].parent == t)
        && (forall p | p in ms && p !in ms[..failedAt] :: p.parent == old(p.parent))
    {
      var i := 0;
      while i < |ms|
        invariant 0 <= i <= |ms|
        invariant forall p | p in ms :: if p in ms[..i] then p.parent == t && old(p.parent) == null else p.parent == old(p.parent)
      {
        var r := ms[i].SetParent(t);
        if r.Fail? {
          assert ms[i] !in ms[..i];
          assert forall j :: 0 <= j < i ==> ms[j] in ms[..i];
          return r, i;
        }
        assert ms[..i + 1] == ms[..i] + [ms[i]];
        i := i + 1;
      }
      assert ms[..i] == ms;
      return Pass, 0;
    }

    /** bestSolution: the shaman's best solution. */
    function BestSolution(): Solution
      reads this, shaman
    {
      shaman.bestSolution
    }

    /** notifySwarmMoved has run since the members last moved: the shaman is the first member of least error. */
    ghost predicate ShamanElected()
      reads this, members
    {
      |members| > 0 && shaman == BestOf(members)
    }

    /** Once the shaman is elected, the tribe's best solution is a member's, of least error, and the first such. */
    lemma BestSolutionIsBest()
      requires |members| > 0 && shaman == BestOf(members)
      ensures shaman in members && BestSolution() == shaman.bestSolution
      ensures forall p | p in members :: BestSolution().error <= p.bestSolution.error
      ensures
        exists k :: 0 <= k < |members| && members[k] == shaman &&
          forall j :: 0 <= j < k ==> BestSolution().error < members[j].bestSolution.error
    {
      BestOfIsFirst(members);
    }

    /** internalLinkCount: every member informs every member, itself included. */
    function InternalLinkCount(): (n: nat)
      reads this
      ensures n == |members| * |members|
    {
      |members| * |members|
    }

    /** externalLinkCount: the outgoing links to informer tribes. */
    function ExternalLinkCount(): (n: nat)
      reads this
      ensures n == |informers|
    {
      |informers|
    }

    /** externalLinks: the shamans of the informer tribes, in informer order. */
    function ExternalLinks(): (r: seq<Particle>)
      reads this, informers
      ensures |r| == |informers| && forall i :: 0 <= i < |informers| ==> r[i] == informers[i].shaman
    {
      Shamans(informers)
    }

    /** A member's internal informers are all the members, so each member has |members| internal links. */
    lemma InternalLinksOfMembers(p: Particle)
      requires p in members && p.parent == this
      ensures p.InternalInformers() == members
      ensures InternalLinkCount() == |members| * |p.InternalInformers()|
    {
    }

    /**
     * internalLinkCount is the internal links of the members, summed: each
     * member is informed by every member, itself included.
     */
    lemma InternalLinksSummed()
      requires forall p | p in members :: p.parent == this
      ensures InternalLinkCount() == InformerCounts(members)
    {
      InformerCountsOfMembers(members);
    }

    /** Particles of this tribe each have |members| internal informers. */
    lemma {:induction false} InformerCountsOfMembers(ps: seq<Particle>)
      requires forall p | p in ps :: p.parent == this
      ensures InformerCounts(ps) == |ps| * |members|
    {
      if ps != [] {
        var init := ps[..|ps| - 1];
        InformerCountsOfMembers(init);
        assert |ps| * |members| == |init| * |members| + |members|;
      }
    }

    /**
     * In a well-formed informer relation the external links go to distinct
     * tribes other than this one, each of which has this tribe among its informers.
     */
    lemma ExternalLinkCountDistinct(universe: set<Tribe>)
      requires this in universe && InformerGraph.WellFormed(Links(universe))
      ensures ExternalLinkCount() == |set x | x in informers|
      ensures this !in informers
      ensures forall x | x in informers :: x in universe && this in x.informers
    {
      assert Links(universe)[this] == informers;
      NoDupCardinality(informers);
    }

    /** When every informer tribe owns its shaman, the i-th external link belongs to the i-th informer tribe, and distinct tribes give distinct links. */
    lemma ExternalLinksFromInformers()
      requires forall t | t in informers :: t.shaman.parent == t
      ensures forall i :: 0 <= i < |informers| ==> ExternalLinks()[i].parent == informers[i]
      ensures NoDup(informers) ==> NoDup(ExternalLinks())
    {
      var r := ExternalLinks();
      if NoDup(informers) {
        forall i, j | 0 <= i < j < |r| ensures r[i] != r[j] {
          assert r[i].parent == informers[i] && r[j].parent == informers[j];
        }
      }
    }

    /** Some informer tribe's best solution is strictly better than this tribe's. */
    ghost predicate HasBetterInformer()
      reads this, shaman, informers, Shamans(informers)
    {
      exists i :: 0 <= i < |informers| && informers[i].shaman.bestSolution.error < shaman.bestSolution.error
    }

    /** anyBetterInformer */
    method AnyBetterInformer() returns (b: bool)
      ensures b <==> HasBetterInformer()
    {
      var i := 0;
      while i < |informers|
        invariant 0 <= i <= |informers|
        invariant forall j :: 0 <= j < i ==> informers[j].shaman.bestSolution.error >= shaman.bestSolution.error
      {
        if informers[i].BestSolution().error < BestSolution().error {
          return true;
        }
        i := i + 1;
      }
      return false;
    }

    /** addInformer: link both ways unless the tribe is this one or already an informer. */
    method AddInformer(informer: Tribe, ghost universe: set<Tribe>)
      requires this in universe && informer in universe
      modifies this`informers, informer`informers
      ensures Links(universe) == InformerGraph.AddInformer(old(Links(universe)), this, informer)
      decreases (if informer == this || informer in informers then 0 else 2) + (if this in informer.informers then 0 else 1)
    {
      if informer in informers || informer == this {
        return;
      }
      informers := informers + [informer];
      assert Links(universe) == old(Links(universe))[this := old(informers) + [informer]];
      informer.AddInformer(this, universe);
    }

    /** removeInformer: drop the first occurrence of source from this tribe's informers. */
    method RemoveInformer(source: Tribe, ghost universe: set<Tribe>)
      requires this in universe
      modifies this`informers
      ensures Links(universe) == InformerGraph.RemoveInformer(old(Links(universe)), this, source)
    {
      informers := RemoveFirst(informers, source);
    }

    /** The body of redistributeLinks' loop for one former informer of source. */
    static method Relink(source: Tribe, destination: Tribe, informer: Tribe, ghost universe: set<Tribe>)
      requires informer in universe && destination in universe
      modifies (set t | t in universe)`informers
      ensures Links(universe) == InformerGraph.RelinkStep(old(Links(universe)), source, destination, informer)
      ensures informer != source && destination != source ==> source.informers == old(source.informers)
    {
      informer.RemoveInformer(source, universe);
      informer.AddInformer(destination, universe);
      destination.AddInformer(informer, universe);
    }

    /** The loop of redistributeLinks: relink each former informer of source, in list order. */
    static method RelinkEach(source: Tribe, destination: Tribe, ghost universe: set<Tribe>)
      requires source in universe && destination in universe && destination != source
      requires forall f | f in source.informers :: f in universe && f != source
      modifies (set t | t in universe)`informers
      ensures source.informers == old(source.informers)
      ensures Links(universe) == InformerGraph.RelinkAll(old(Links(universe)), source, destination, source.informers)
    {
      ghost var g: map<Tribe, seq<Tribe>> := Links(universe);
      var fs := source.informers;
      ghost var relinked: map<Tribe, seq<Tribe>> := g;
      var k := 0;
      assert fs[..k] == [];
      while k < |fs|
        invariant 0 <= k <= |fs|
        invariant Links(universe) == relinked
        invariant relinked == InformerGraph.RelinkAll(g, source, destination, fs[..k])
        invariant source.informers == fs
      {
        var informer := fs[k];
        Relink(source, destination, informer, universe);
        ghost var next: map<Tribe, seq<Tribe>> := InformerGraph.RelinkStep(relinked, source, destination, informer);
        InformerGraph.RelinkAllExtend(g, source, destination, fs, k, relinked, next);
        relinked := next;
        k := k + 1;
      }
      assert fs[..k] == fs;
    }

    /** redistributeLinks: hand every informer of source over to destination, then clear source's list. */
    static method RedistributeLinks(source: Tribe, destination: Tribe, ghost universe: set<Tribe>)
      requires source in universe && destination in universe && destination != source
      requires forall f | f in source.informers :: f in universe && f != source
      modifies (set t | t in universe)`informers
      ensures Links(universe) == InformerGraph.Redistribute(old(Links(universe)), source, destination)
    {
      RelinkEach(source, destination, universe);
      ghost var relinked: map<Tribe, seq<Tribe>> := Links(universe);
      source.informers := [];
      assert Links(universe) == relinked[source := []];
    }

    /**
     * The extinction branch of tryRemoveWorstParticle: hand the links over to
     * the best informer tribe and clear the member list.
     */
    method GoExtinct(ghost universe: set<Tribe>)
      requires this in universe && InformerGraph.WellFormed(Links(universe)) && |informers| > 0
      modifies this`members, (set t | t in universe)`informers
      ensures members == []
      ensures Links(universe) == InformerGraph.Redistribute(old(Links(universe)), this, old(BestTribeOf(informers)))
      ensures InformerGraph.WellFormed(Links(universe)) && InformerGraph.Isolated(Links(universe), this)
      ensures forall x | x in universe && x != this && InformerGraph.Isolated(old(Links(universe)), x) ::
        InformerGraph.Isolated(Links(universe), x)
    {
      var bestInformerTribe := BestTribeOf(informers);
      ghost var g: map<Tribe, seq<Tribe>> := Links(universe);
      // Cleared first; redistributeLinks neither reads nor writes the member list.
      members := [];
      assert Links(universe) == g;
      assert bestInformerTribe in g[this];
      RedistributeLinks(this, bestInformerTribe, universe);
      InformerGraph.RedistributeWellFormed<Tribe>(g, this, bestInformerTribe);
      InformerGraph.RedistributeIsolatesSource<Tribe>(g, this, bestInformerTribe);
      InformerGraph.RedistributeKeepsAllIsolated<Tribe>(g, this, bestInformerTribe);
    }

    /**
     * tryRemoveWorstParticle: a tribe of several members loses its worst one;
     * a tribe of one member goes extinct only if some informer is strictly
     * better, and then hands its links to the best informer tribe.
     */
    method TryRemoveWorstParticle(ghost universe: set<Tribe>) returns (removed: bool)
      requires this in universe && InformerGraph.WellFormed(Links(universe))
      modifies this`members, (set t | t in universe)`informers
      ensures old(|members|) > 1 ==>
        removed && members == RemoveFirst(old(members), old(WorstOf(members))) &&
        Links(universe) == old(Links(universe))
      ensures old(|members|) == 0 || (old(|members|) == 1 && !old(HasBetterInformer())) ==>
        !removed && members == old(members) && Links(universe) == old(Links(universe))
      ensures old(|members|) == 1 && old(HasBetterInformer()) ==>
        removed && members == [] &&
        Links(universe) == InformerGraph.Redistribute(old(Links(universe)), this, old(BestTribeOf(informers)))
      ensures InformerGraph.WellFormed(Links(universe))
      ensures old(|members|) > 0 && members == [] ==> InformerGraph.Isolated(Links(universe), this)
      ensures forall x | x in universe && x != this && InformerGraph.Isolated(old(Links(universe)), x) ::
        InformerGraph.Isolated(Links(universe), x)
    {
      if |members| > 1 {
        var worst := WorstOf(members);
        members := RemoveFirst(members, worst);
        return true;
      }
      if |members| == 1 {
        var better := AnyBetterInformer();
        if better {
          assert Shamans(informers) == old(Shamans(informers));
          assert TribeErrors(informers) == old(TribeErrors(informers));
          GoExtinct(universe);
          return true;
        }
      }
      return false;
    }

    /**
     * updateIsGood: a tribe whose best error improved on its historical best
     * is good with probability one half (the draw stands for rng.nextDouble())
     * and records the new best; any other tribe is not good.
     */
    method UpdateIsGood(draw: real)
      modifies this`isGood, this`historicalBestError
      ensures old(BestSolution().error) < old(historicalBestError) ==>
        isGood == (draw >= 0.5) && historicalBestError == BestSolution().error
      ensures !(old(BestSolution().error) < old(historicalBestError)) ==>
        !isGood && historicalBestError == old(historicalBestError)
      ensures historicalBestError <= old(historicalBestError)
    {
      var currentBestError := BestSolution().error;
      if currentBestError < historicalBestError {
        isGood := draw >= 0.5;
        historicalBestError := currentBestError;
      } else {
        isGood := false;
      }
    }

    /** updateShaman: the first member of least error becomes the shaman. */
    method UpdateShaman()
      requires |members| > 0
      modifies this`shaman
      ensures shaman == BestOf(members)
    {
      shaman := BestOf(members);
    }
  }
}
