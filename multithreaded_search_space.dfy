/**
 * MultithreadedSearchSpace.move: the flattened members of the shuffled tribes
 * are cut into chunks of swarmSize / threadCount + 1 particles, one task per
 * chunk; each task moves its particles in chunk order.
 */
module MultithreadedSearchSpace {
  import opened Wrappers
  import opened Exceptions
  import opened SeqUtils
  import opened EuclidianVectors
  import opened Tribes
  import opened Swarm

  /**
   * The chunk size. Lists.newArrayListWithCapacity(threadCount) rejects a
   * negative count, and Java's integer division rejects zero.
   */
  function PerThread(swarmSize: nat, threadCount: int): (r: Result<nat, Exception>)
    ensures threadCount < 0 ==> r.Failure? && r.error.IllegalArgument?
    ensures threadCount == 0 ==> r.Failure? && r.error.Arithmetic?
    ensures threadCount > 0 ==> r.Success? && r.value >= 1 && swarmSize < threadCount * r.value
  {
    if threadCount < 0 then Failure(IllegalArgument("initialArraySize cannot be negative"))
    else if threadCount == 0 then Failure(Arithmetic("/ by zero"))
    else
      ChunksCoverSwarm(swarmSize, threadCount);
      Success(swarmSize / threadCount + 1)
  }

  /** threadCount chunks of swarmSize / threadCount + 1 particles hold more than the swarm. */
  lemma ChunksCoverSwarm(n: nat, t: nat)
    requires t > 0
    ensures n < t * (n / t + 1)
  {
    assert n == t * (n / t) + n % t;
    assert t * (n / t + 1) == t * (n / t) + t;
  }

  /** Iterables.partition: consecutive chunks of n elements, the last one possibly shorter. */
  function Partition<T>(xs: seq<T>, n: nat): seq<seq<T>>
    requires n > 0
    decreases |xs|
  {
    if xs == [] then []
    else if |xs| <= n then [xs]
    else [xs[..n]] + Partition(xs[n..], n)
  }

  /** The chunks, put back together, are the original sequence. */
  lemma {:induction false} PartitionConcat<T>(xs: seq<T>, n: nat)
    requires n > 0
    ensures Concat(Partition(xs, n)) == xs
  {
    if |xs| > n {
      var rest := Partition(xs[n..], n);
      PartitionConcat(xs[n..], n);
      assert ([xs[..n]] + rest)[1..] == rest;
      assert xs == xs[..n] + xs[n..];
    } else if xs != [] {
      assert [xs][1..] == [];
    }
  }

  /** Every chunk is non-empty and at most n long, and all but the last are exactly n long. */
  lemma {:induction false} PartitionChunks<T>(xs: seq<T>, n: nat)
    requires n > 0
    ensures forall i :: 0 <= i < |Partition(xs, n)| ==> 0 < |Partition(xs, n)[i]| <= n
    ensures forall i :: 0 <= i < |Partition(xs, n)| - 1 ==> |Partition(xs, n)[i]| == n
  {
    if |xs| > n {
      var rest := Partition(xs[n..], n);
      PartitionChunks(xs[n..], n);
      assert forall i :: 1 <= i < |[xs[..n]] + rest| ==> ([xs[..n]] + rest)[i] == rest[i - 1];
    }
  }

  /** A sequence of at most t * n elements makes at most t chunks of n. */
  lemma {:induction false} PartitionCount<T>(xs: seq<T>, n: nat, t: nat)
    requires n > 0 && |xs| <= t * n
    ensures |Partition(xs, n)| <= t
  {
    if |xs| > n {
      assert t * n - n == (t - 1) * n;
      PartitionCount(xs[n..], n, t - 1);
    } else if xs != [] {
      assert t != 0;
    }
  }

  /**
   * One movement pass: compute the chunk size, then move the particles in
   * tasks of that size.
   */
  method Move(tribes: seq<Tribe>, objective: ObjectiveFunction, calculate: (Solution, Solution) -> Vector, threadCount: int)
    returns (o: Outcome<Exception>, ghost order: seq<Tribe>, tasks: seq<seq<Particle>>)
    requires forall own, informer :: |calculate(own, informer)| == objective.dimensions
    requires Owned(tribes, objective)
    modifies ParticlesOf(tribes)`history, ParticlesOf(tribes)`bestSolution, ParticlesOf(tribes)`position, ParticlesOf(tribes)`currentError, ParticlesOf(tribes)`moveCount
    ensures o.Fail? <==> threadCount <= 0
    ensures threadCount < 0 ==> o.Fail? && o.error.IllegalArgument?
    ensures threadCount == 0 ==> o.Fail? && o.error.Arithmetic?
    ensures o.Fail? ==> tasks == [] && forall p | p in ParticlesOf(tribes) :: unchanged(p)
    ensures o.Pass? ==>
      && multiset(order) == multiset(tribes)
      && tasks == Partition(Members(order), PerThread(old(|Members(tribes)|), threadCount).value)
      && |tasks| <= threadCount
      && Concat(tasks) == Members(order) && NoDup(Concat(tasks))
      && forall p | p in ParticlesOf(tribes) :: MovedOnce(p)
  {
    var perThread := PerThread(|Members(tribes)|, threadCount);
    if perThread.Failure? {
      return Fail(perThread.error), tribes, [];
    }
    order, tasks := MoveInTasks(tribes, objective, calculate, perThread.value, threadCount);
    o := Pass;
  }

  /**
   * Shuffle a copy of the tribe list, flatten its members and cut them into
   * tasks of perThread particles. The tasks run one after another here; the
   * thread pool that runs them side by side is not modelled.
   */
  method MoveInTasks(tribes: seq<Tribe>, objective: ObjectiveFunction, calculate: (Solution, Solution) -> Vector,
                     perThread: nat, ghost threadCount: nat)
    returns (ghost order: seq<Tribe>, tasks: seq<seq<Particle>>)
    requires forall own, informer :: |calculate(own, informer)| == objective.dimensions
    requires Owned(tribes, objective) && perThread > 0 && |Members(tribes)| <= threadCount * perThread
    modifies ParticlesOf(tribes)`history, ParticlesOf(tribes)`bestSolution, ParticlesOf(tribes)`position, ParticlesOf(tribes)`currentError, ParticlesOf(tribes)`moveCount
    ensures multiset(order) == multiset(tribes) && |Members(order)| == |Members(tribes)|
    ensures tasks == Partition(Members(order), perThread) && |tasks| <= threadCount
    ensures Concat(tasks) == Members(order) && NoDup(Concat(tasks))
    ensures forall p | p in ParticlesOf(tribes) :: MovedOnce(p)
  {
    var randomOrder := RandomOrder(tribes);
    order := randomOrder;
    var particlesToMove := Members(randomOrder);
    tasks := Partition(particlesToMove, perThread);
    ShuffledTasks(tribes, randomOrder, objective, perThread);
    PartitionCount(particlesToMove, perThread, threadCount);
    var _ := MoveBatches(tasks, objective, calculate);
  }

  /** The tasks of a pass over owned tribes in any order hold each of their particles once. */
  lemma ShuffledTasks(ts: seq<Tribe>, order: seq<Tribe>, objective: ObjectiveFunction, perThread: nat)
    requires Owned(ts, objective) && multiset(order) == multiset(ts) && perThread > 0
    ensures |Members(order)| == |Members(ts)|
    ensures Concat(Partition(Members(order), perThread)) == Members(order)
    ensures NoDup(Concat(Partition(Members(order), perThread)))
    ensures forall p | p in Concat(Partition(Members(order), perThread)) :: Ready(p, objective)
    ensures forall p :: p in Concat(Partition(Members(order), perThread)) <==> p in ParticlesOf(ts)
  {
    ShuffledMembers(ts, order, objective);
    PartitionConcat(Members(order), perThread);
  }
}
