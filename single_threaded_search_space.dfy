/**
 * SingleThreadedSearchSpace.move: the tribes are copied and shuffled, and
 * then, tribe after tribe, each member is moved in member order.
 */
module SingleThreadedSearchSpace {
  import opened EuclidianVectors
  import opened Tribes
  import opened Swarm

  /**
   * One movement pass. The outer loop runs over the tribes in random order,
   * the inner one over each tribe's member list (MoveBatches over the member
   * lists). The tribes themselves, and so the swarm's tribe list, are not
   * touched.
   */
  method Move(tribes: seq<Tribe>, objective: ObjectiveFunction, calculate: (Solution, Solution) -> Vector)
    returns (ghost order: seq<Tribe>, ghost visited: seq<Particle>)
    requires forall own, informer :: |calculate(own, informer)| == objective.dimensions
    requires Owned(tribes, objective)
    modifies ParticlesOf(tribes)`history, ParticlesOf(tribes)`bestSolution, ParticlesOf(tribes)`position, ParticlesOf(tribes)`currentError, ParticlesOf(tribes)`moveCount
    ensures multiset(order) == multiset(tribes)
    ensures visited == Members(order) && multiset(visited) == multiset(old(Members(tribes)))
    ensures forall p | p in ParticlesOf(tribes) :: MovedOnce(p)
  {
    var randomOrder := RandomOrder(tribes);
    order := randomOrder;
    ShuffledMembers(tribes, randomOrder, objective);
    var batches := MemberLists(randomOrder);
    visited := MoveBatches(batches, objective, calculate);
  }
}
