# jTribesPSO: the tribal swarm's bookkeeping, in Dafny

jTribesPSO is a Java implementation of TRIBES, a particle swarm optimiser that
adapts its own swarm. Particles search the space of an objective function.
They are grouped into tribes, and tribes are linked to one another by an
informer relation. After every movement pass the swarm may adapt: good tribes
lose their worst particle, tribes left empty die and hand their links to their
best informer, and the bad tribes gain one new tribe, which links to all of
them.

This project models that core and proves what it promises:

- the history a particle keeps of its last two moves (`ParticleHistory`);
- the vector arithmetic and the builder that collects vector entries
  (`EuclidianVectors`, `EuclidianVectorBuilders`);
- particles, tribes and the objective function as classes whose fields change
  in place (`Tribes`);
- the informer relation as a value, a map from each tribe to its informer list
  (`InformerGraph`). Tribe's link operations are specified against it, and its
  lemmas prove that links stay symmetric, free of self-links and free of
  duplicates;
- one movement pass over the swarm, single-threaded or cut into per-thread
  tasks (`Swarm`, `SingleThreadedSearchSpace`, `MultithreadedSearchSpace`);
- the search space: seeding, moveThenAdapt, adapt, and the swarm invariant that
  moveThenAdapt keeps (`SearchSpaces`).

The data of the model:

- Vectors are `seq<real>`.
- Guava's `Ordering.min` and `Ordering.max` pick the first element of least
  or greatest error (`Ordering`).
- Random draws are parameters, or arbitrary values chosen with `:|`.
- The event bus is a ghost trace of the events posted.
- `calculateNewPosition`, which the concrete particle types implement, is a
  function passed in: one pure function of the particle's own best solution
  and its best informer's best solution, shared by every particle of a pass,
  of which only the dimension is known.

Modules and files:

| module | file |
|---|---|
| `Wrappers` | `wrappers.dfy` (Option, Result, Outcome) |
| `Exceptions` | `exceptions.dfy` (the exceptions the core throws) |
| `SeqUtils` | `seq_utils.dfy` (list operations and their lemmas) |
| `Ordering` | `ordering.dfy` |
| `ParticleHistory` | `particle_history.dfy` |
| `EuclidianVectors` | `euclidian_vector.dfy` |
| `EuclidianVectorBuilders` | `euclidian_vector_builder.dfy` |
| `InformerGraph` | `informer_graph.dfy` |
| `Tribes` | `tribes.dfy` (ObjectiveFunction, Particle, Tribe) |
| `Swarm` | `swarm.dfy` |
| `SingleThreadedSearchSpace` | `single_threaded_search_space.dfy` |
| `MultithreadedSearchSpace` | `multithreaded_search_space.dfy` |
| `SearchSpaces` | `search_space.dfy` (SearchSpace and adapt) |

## Model

| member | source | states |
|---|---|---|
| Ordering.ArgMin | src/main/java/com/github/steveash/jtribespso/SolutionHolder.java:11-18 | the index of an element no larger than any other, and strictly smaller than every element before it (Guava's min keeps the first of equal least elements) |
| Ordering.ArgMax | src/main/java/com/github/steveash/jtribespso/SolutionHolder.java:11-18 | the index of an element no smaller than any other, and strictly larger than every element before it |
| ParticleHistory.Initial | src/main/java/com/github/steveash/jtribespso/Particle.java:172-174 | a new particle's history is HistoryLength (2) flags, all false |
| ParticleHistory.Memorize | src/main/java/com/github/steveash/jtribespso/Particle.java:267-272 | the new flag comes first, the older flags follow in order, and the history is cut to HistoryLength flags |
| ParticleHistory.MemorizeShiftsHistory | src/main/java/com/github/steveash/jtribespso/Particle.java:267-272 | memorizing b in a full history [h0, h1] gives [b, h0] |
| ParticleHistory.MemorizeKeepsLength | src/main/java/com/github/steveash/jtribespso/Particle.java:267-272 | memorizing keeps a non-empty history at exactly HistoryLength flags |
| ParticleHistory.MemorizeDecidesGood | src/main/java/com/github/steveash/jtribespso/Particle.java:62-65 | after memorizing b the particle is good if and only if b holds |
| ParticleHistory.MemorizeDecidesExcellent | src/main/java/com/github/steveash/jtribespso/Particle.java:74-77 | after memorizing b the particle is excellent if and only if b holds and it was good before |
| ParticleHistory.ExcellentIsGood | src/main/java/com/github/steveash/jtribespso/Particle.java:62-77 | an excellent particle is good |
| ParticleHistory.InitialIsNeutral | src/main/java/com/github/steveash/jtribespso/Particle.java:172-174 | a new particle is neither good nor excellent |
| EuclidianVectors.CheckDimensions | src/main/java/com/github/steveash/jtribespso/EuclidianVector.java:87-90 | fails, with DimensionMismatch, exactly when the dimensions differ |
| EuclidianVectors.Add | src/main/java/com/github/steveash/jtribespso/EuclidianVector.java:77-85 | DimensionMismatch exactly when the dimensions differ; otherwise the entrywise sum, of the same dimension |
| EuclidianVectors.Subtract | src/main/java/com/github/steveash/jtribespso/EuclidianVector.java:61-69 | DimensionMismatch exactly when the dimensions differ; otherwise a[i] - b[i] in every entry |
| EuclidianVectors.Multiply | src/main/java/com/github/steveash/jtribespso/EuclidianVector.java:112-118 | never fails; same dimension, every entry times the scalar |
| EuclidianVectors.Divide | src/main/java/com/github/steveash/jtribespso/EuclidianVector.java:98-104 | never fails; same dimension, every entry over the divisor |
| EuclidianVectors.Origin | src/main/java/com/github/steveash/jtribespso/EuclidianVector.java:125-131 | n entries, all zero |
| EuclidianVectors.CenterOfGravity | src/main/java/com/github/steveash/jtribespso/EuclidianVector.java:153-163 | DimensionMismatch exactly when the dimensions differ; otherwise every entry is the mass-weighted mean of the two entries |
| EuclidianVectors.Midpoint | src/main/java/com/github/steveash/jtribespso/EuclidianVector.java:140-142 | fails exactly when the dimensions differ; otherwise (a + b) / 2 |
| EuclidianVectors.Equals | src/main/java/com/github/steveash/jtribespso/EuclidianVector.java:166-178 | true if and only if the dimensions agree and so does every entry |
| EuclidianVectors.AddCommutative | src/main/java/com/github/steveash/jtribespso/EuclidianVector.java:77-85 | add(a, b) and add(b, a) agree, failures included |
| EuclidianVectors.SubtractAntisymmetric | src/main/java/com/github/steveash/jtribespso/EuclidianVector.java:61-69 | subtract(a, b) is the negation of subtract(b, a), entry by entry |
| EuclidianVectors.AddSubtractRoundTrip | src/main/java/com/github/steveash/jtribespso/EuclidianVector.java:61-85 | subtracting b from add(a, b) gives a back |
| EuclidianVectors.AddOrigin | src/main/java/com/github/steveash/jtribespso/EuclidianVector.java:77-131 | adding the origin of the same dimension changes nothing |
| EuclidianVectors.MultiplyDivideRoundTrip | src/main/java/com/github/steveash/jtribespso/EuclidianVector.java:98-118 | dividing by a non-zero factor just multiplied in gives the vector back |
| EuclidianVectors.EqualMassesGiveMidpoint | src/main/java/com/github/steveash/jtribespso/EuclidianVector.java:140-163 | with equal masses the centre of gravity is (a + b) / 2, which centerOfGravity(a, b) relies on |
| EuclidianVectors.WeightedMeanBetween | src/main/java/com/github/steveash/jtribespso/EuclidianVector.java:159-161 | with positive masses the weighted mean lies between the two values |
| EuclidianVectors.CenterOfGravityBetween | src/main/java/com/github/steveash/jtribespso/EuclidianVector.java:153-163 | with positive masses every entry lies between the operands' entries |
| EuclidianVectors.CenterOfGravitySymmetric | src/main/java/com/github/steveash/jtribespso/EuclidianVector.java:153-163 | swapping the (point, mass) pairs gives the same result |
| EuclidianVectors.UnequalDimensionsNeverEqual | src/main/java/com/github/steveash/jtribespso/EuclidianVector.java:166-178 | vectors of different dimensions are never equal, either way round |
| EuclidianVectors.EqualsReflexiveSymmetric | src/main/java/com/github/steveash/jtribespso/EuclidianVector.java:166-178 | equals is reflexive and symmetric |
| EuclidianVectorBuilders.EuclidianVectorBuilder.constructor | src/main/java/com/github/steveash/jtribespso/EuclidianVectorBuilder.java:26-28 | a new builder is empty and not frozen |
| EuclidianVectorBuilders.EuclidianVectorBuilder.Get | src/main/java/com/github/steveash/jtribespso/EuclidianVectorBuilder.java:22-24 | returns a value that was added |
| EuclidianVectorBuilders.EuclidianVectorBuilder.Add | src/main/java/com/github/steveash/jtribespso/EuclidianVectorBuilder.java:30-33 | appends the value; once frozen, fails with IllegalState and changes nothing (throwIfFrozen, lines 40-43) |
| EuclidianVectorBuilders.EuclidianVectorBuilder.Build | src/main/java/com/github/steveash/jtribespso/EuclidianVectorBuilder.java:35-38 | freezes the builder and returns exactly the values added, in order |
| EuclidianVectorBuilders.BuildAfterAdds | src/main/java/com/github/steveash/jtribespso/EuclidianVectorBuilder.java:22-38 | values added one by one come back from build and from get(i) in order, and the builder ends frozen |
| Tribes.Clamp | src/main/java/com/github/steveash/jtribespso/Particle.java:229-244 | the corrected vector keeps its dimension |
| Tribes.ClampInBounds | src/main/java/com/github/steveash/jtribespso/Particle.java:229-256 | with consistent bounds a corrected vector is in bounds |
| Tribes.ClampKeepsInBounds | src/main/java/com/github/steveash/jtribespso/Particle.java:229-256 | an in-bounds vector is returned unchanged |
| Tribes.ClampIdempotent | src/main/java/com/github/steveash/jtribespso/Particle.java:229-244 | correcting twice is correcting once, even with inconsistent bounds |
| Tribes.ObjectiveFunction.constructor | src/main/java/com/github/steveash/jtribespso/IObjectiveFunction.java:6-34 | an objective holds the dimension, the bounds, the optional initial guess and the evaluation it was given |
| Tribes.BestOf | src/main/java/com/github/steveash/jtribespso/SolutionHolder.java:11-18 | a member of the list whose best error is no larger than any other's |
| Tribes.BestOfIsFirst | src/main/java/com/github/steveash/jtribespso/SolutionHolder.java:11-18 | of several members of least best error, BestOf picks the first: every member before it has a strictly larger error |
| Tribes.WorstOf | src/main/java/com/github/steveash/jtribespso/SolutionHolder.java:11-18 | a member of the list whose best error is no smaller than any other's |
| Tribes.WorstOfIsFirst | src/main/java/com/github/steveash/jtribespso/SolutionHolder.java:11-18 | of several members of greatest best error, WorstOf picks the first: every member before it has a strictly smaller error |
| Tribes.BestTribeOf | src/main/java/com/github/steveash/jtribespso/Tribe.java:176-185 | a tribe of the list whose best error is no larger than any other's |
| Tribes.BestTribeOfIsFirst | src/main/java/com/github/steveash/jtribespso/Tribe.java:176-185 | of several tribes of least best error, BestTribeOf picks the first: every tribe before it has a strictly larger error |
| Tribes.Particle.constructor | src/main/java/com/github/steveash/jtribespso/Particle.java:151-175 | a new particle: its position is the initial one, its best solution is that position with its error, its history is all false, and it has no tribe |
| Tribes.Particle.Create | src/main/java/com/github/steveash/jtribespso/Particle.java:158-160 | DimensionMismatch exactly when the position's dimension differs from the objective's; otherwise a new particle as above |
| Tribes.Particle.SetParent | src/main/java/com/github/steveash/jtribespso/Particle.java:104-119 | a particle without a tribe accepts a tribe that lists it; setting the same tribe again is accepted; any other case fails with IllegalState and keeps the parent |
| Tribes.Particle.InternalInformers | src/main/java/com/github/steveash/jtribespso/Particle.java:127-133 | the parent's members, or the particle alone when it has no tribe |
| Tribes.Particle.ExternalInformers | src/main/java/com/github/steveash/jtribespso/Particle.java:85-93 | the shamans of the parent's informer tribes, and nothing for a particle that is not its tribe's shaman |
| Tribes.Particle.BestInformer | src/main/java/com/github/steveash/jtribespso/Particle.java:195-206 | an informer, internal or external, whose best error is no larger than that of any informer |
| Tribes.Particle.StaysPutIff | src/main/java/com/github/steveash/jtribespso/Particle.java:195-206 | a particle is its own best informer if and only if it is the first member of least error and no external informer is strictly better |
| Tribes.Particle.IsOutOfBounds | src/main/java/com/github/steveash/jtribespso/Particle.java:246-256 | true if and only if some coordinate lies outside its bounds |
| Tribes.Particle.CorrectBounds | src/main/java/com/github/steveash/jtribespso/Particle.java:229-244 | the coordinatewise clamp of the vector (so, by ClampKeepsInBounds, an in-bounds vector is returned as it is) |
| Tribes.Particle.MemorizePerformance | src/main/java/com/github/steveash/jtribespso/Particle.java:267-272 | the history becomes the memorized one: the flag in front, at most HistoryLength entries |
| Tribes.Particle.Relocate | src/main/java/com/github/steveash/jtribespso/Particle.java:208-224 | the particle goes to the new position and error; its best solution becomes the new one only on a strict improvement, and it memorizes whether there was one; it is then good exactly on an improvement, and excellent exactly on an improvement after a good move |
| Tribes.Particle.Move | src/main/java/com/github/steveash/jtribespso/Particle.java:188-227 | a particle that is its own best informer changes nothing; any other goes to the corrected position computed from its best informer's best solution, with relocation's rules; the best error never grows and the parent is kept |
| Tribes.Tribe.constructor | src/main/java/com/github/steveash/jtribespso/Tribe.java:61-77 | a new tribe lists the given members, has no informers, its shaman is the first member of least error, its historical best is the shaman's error, and it is not good |
| Tribes.Tribe.Create | src/main/java/com/github/steveash/jtribespso/Tribe.java:61-77 | fails with IllegalArgument on no members; succeeds exactly when no member had a tribe, and then every member's parent is the new tribe, set up as above; on failure failedAt is the first member that had a tribe, every member before it had none and now has the same fresh tribe, and every other member keeps its parent |
| Tribes.Tribe.Found | src/main/java/com/github/steveash/jtribespso/Tribe.java:61-77 | the constructor's work on a non-empty collection: a fresh tribe set up as above, whose adoption of the members passes or fails as Adopt says |
| Tribes.Tribe.Adopt | src/main/java/com/github/steveash/jtribespso/Tribe.java:69-72 | passes exactly when no member had a tribe, and then every member's parent is the tribe; the failure is IllegalState, failedAt is the first member that had a tribe, every member before it had none and now has this tribe, and every other member keeps its parent |
| Tribes.Tribe.InternalLinksOfMembers | src/main/java/com/github/steveash/jtribespso/Tribe.java:115-117 | each member's internal informers are exactly the tribe's members, so the internal link count is the members times each member's internal informers |
| Tribes.Tribe.InternalLinksSummed | src/main/java/com/github/steveash/jtribespso/Tribe.java:109-117 | when every member belongs to the tribe, the internal link count is the members' internal informer counts summed: self links and both directions of every pair |
| Tribes.Tribe.ExternalLinkCountDistinct | src/main/java/com/github/steveash/jtribespso/Tribe.java:122-124 | in a well-formed informer relation the external link count is the number of distinct informer tribes; none is the tribe itself, and each has the tribe among its own informers |
| Tribes.Tribe.ExternalLinksFromInformers | src/main/java/com/github/steveash/jtribespso/Tribe.java:101-107 | when every informer tribe owns its shaman, the i-th external link is a particle of the i-th informer tribe, and distinct informer tribes give distinct links |
| Tribes.Tribe.AnyBetterInformer | src/main/java/com/github/steveash/jtribespso/Tribe.java:152-158 | true if and only if some informer tribe's best error is strictly below this tribe's |
| Tribes.Tribe.AddInformer | src/main/java/com/github/steveash/jtribespso/Tribe.java:208-217 | the informer relation becomes InformerGraph.AddInformer of the old one |
| Tribes.Tribe.RemoveInformer | src/main/java/com/github/steveash/jtribespso/Tribe.java:219-221 | the informer relation becomes InformerGraph.RemoveInformer of the old one |
| Tribes.Tribe.Relink | src/main/java/com/github/steveash/jtribespso/Tribe.java:196-200 | one turn of the loop: the relation becomes InformerGraph.RelinkStep of the old one |
| Tribes.Tribe.RelinkEach | src/main/java/com/github/steveash/jtribespso/Tribe.java:196-200 | the whole loop: the relation becomes InformerGraph.RelinkAll over the source's informers, in order |
| Tribes.Tribe.RedistributeLinks | src/main/java/com/github/steveash/jtribespso/Tribe.java:195-202 | the relation becomes InformerGraph.Redistribute of the old one |
| Tribes.Tribe.GoExtinct | src/main/java/com/github/steveash/jtribespso/Tribe.java:176-185 | the members are cleared, the links are handed to the best informer tribe, the relation stays well formed, this tribe ends isolated, and every other isolated tribe stays isolated |
| Tribes.Tribe.TryRemoveWorstParticle | src/main/java/com/github/steveash/jtribespso/Tribe.java:164-188 | a tribe of several members drops the first worst one and keeps its links; a tribe of one member goes extinct exactly when some informer is strictly better; an empty tribe, or one with none better, changes nothing; the relation stays well formed either way |
| Tribes.Tribe.UpdateIsGood | src/main/java/com/github/steveash/jtribespso/Tribe.java:231-240 | a tribe whose best error beat its historical best records the new best and is good on a draw of at least one half; any other tribe is not good and keeps its record; the record never grows |
| Tribes.Tribe.UpdateShaman | src/main/java/com/github/steveash/jtribespso/Tribe.java:249-251 | the shaman becomes the first member of least error |
| Tribes.Tribe.BestSolutionIsBest | src/main/java/com/github/steveash/jtribespso/Tribe.java:79-82 | once the shaman is elected, the tribe's best solution is that of a member, no worse than any member's, and of the first member of least error |
| InformerGraph.AddInformer | src/main/java/com/github/steveash/jtribespso/Tribe.java:208-217 | the relation still covers the same tribes |
| InformerGraph.RemoveInformer | src/main/java/com/github/steveash/jtribespso/Tribe.java:219-221 | the relation still covers the same tribes |
| InformerGraph.Redistribute | src/main/java/com/github/steveash/jtribespso/Tribe.java:195-202 | the relation still covers the same tribes |
| InformerGraph.RedistributeClosedForm | src/main/java/com/github/steveash/jtribespso/Tribe.java:195-202 | afterwards the source has no informers; the destination has traded the source for the former informers it lacked, in order; each former informer has traded the source for the destination; every other list is unchanged |
| InformerGraph.RedistributeWellFormed | src/main/java/com/github/steveash/jtribespso/Tribe.java:195-202 | redistribution keeps the relation symmetric, free of self-links and free of duplicates |
| InformerGraph.RedistributeIsolatesSource | src/main/java/com/github/steveash/jtribespso/Tribe.java:195-202 | afterwards the source has no informers and is nobody's informer |
| InformerGraph.RedistributeRelinksToDestination | src/main/java/com/github/steveash/jtribespso/Tribe.java:195-202 | every former informer of the source, other than the destination, is linked both ways with the destination; no tribe outside the source's neighbourhood is touched |
| InformerGraph.RedistributeKeepsIsolated | src/main/java/com/github/steveash/jtribespso/Tribe.java:195-202 | a tribe that was isolated stays isolated |
| InformerGraph.RedistributeKeepsAllIsolated | src/main/java/com/github/steveash/jtribespso/Tribe.java:195-202 | every isolated tribe other than the source stays isolated |
| InformerGraph.AddInformerKeepsLinks | src/main/java/com/github/steveash/jtribespso/Tribe.java:208-217 | adding a link never drops one |
| InformerGraph.AddInformerWellFormed | src/main/java/com/github/steveash/jtribespso/Tribe.java:208-217 | adding a link keeps the relation well formed, links the two tribes both ways, and touches no third tribe |
| InformerGraph.AddInformerKeepsIsolated | src/main/java/com/github/steveash/jtribespso/Tribe.java:208-217 | a link between two other tribes leaves an isolated tribe isolated |
| InformerGraph.RestrictWellFormed | src/main/java/com/github/steveash/jtribespso/SearchSpace.java:239-247 | dropping only isolated tribes from the relation keeps it well formed |
| InformerGraph.AddIsolatedWellFormed | src/main/java/com/github/steveash/jtribespso/SearchSpace.java:217-226 | a new tribe without links joins a well-formed relation, isolated |
| Swarm.EmptySwarm | src/main/java/com/github/steveash/jtribespso/SearchSpace.java:152-160 | a swarm of non-empty tribes has no particle exactly when it has no tribe |
| Swarm.OwnedMembers | src/main/java/com/github/steveash/jtribespso/SearchSpace.java:62-66 | the members of the swarm's tribes occur once each, and each is ready to move |
| Swarm.PermutationOwned | src/main/java/com/github/steveash/jtribespso/impl/MultithreadedSearchSpace.java:86-90 | any order of the tribes owns the same particles |
| Swarm.PermutationMembers | src/main/java/com/github/steveash/jtribespso/impl/SingleThreadedSearchSpace.java:47-54 | visiting the tribes in another order visits the same particles, as many of them |
| Swarm.ShuffledMembers | src/main/java/com/github/steveash/jtribespso/impl/SingleThreadedSearchSpace.java:46-55 | a pass over the tribes in any order meets every particle of the swarm and no other, each once |
| Swarm.RandomOrder | src/main/java/com/github/steveash/jtribespso/impl/MultithreadedSearchSpace.java:86-90 | Collections.shuffle: a permutation of the list |
| Swarm.MoveInOrder | src/main/java/com/github/steveash/jtribespso/impl/MultithreadedSearchSpace.java:92-102 | visits the particles in list order and moves each of them exactly once |
| Swarm.MoveOne | src/main/java/com/github/steveash/jtribespso/Particle.java:188-227 | a particle's move, as far as the swarm depends on it: one more move, the same tribe, still valid, a best error that never grows |
| Swarm.MoveBatches | src/main/java/com/github/steveash/jtribespso/impl/SingleThreadedSearchSpace.java:50-54 | visits the batches one after another, in order, and moves every particle in them exactly once |
| Swarm.SwarmSize | src/main/java/com/github/steveash/jtribespso/SearchSpace.java:110-116 | the number of particles of all the tribes |
| Swarm.SwarmLinkCount | src/main/java/com/github/steveash/jtribespso/SearchSpace.java:118-124 | the sum over tribes of external plus internal link counts |
| Swarm.MembersAppend | src/main/java/com/github/steveash/jtribespso/SearchSpace.java:62-66 | tribeMembers of the tribes and one more tribe is tribeMembers of the tribes followed by that tribe's members |
| Swarm.LinkCountAtLeastSize | src/main/java/com/github/steveash/jtribespso/SearchSpace.java:118-124 | every particle informs itself, so the swarm link count is at least the number of particles |
| SingleThreadedSearchSpace.Move | src/main/java/com/github/steveash/jtribespso/impl/SingleThreadedSearchSpace.java:46-55 | the tribes are visited in a permutation of their order, each particle of the swarm is moved exactly once, and the visit order holds the swarm's particles, as many of them |
| MultithreadedSearchSpace.PerThread | src/main/java/com/github/steveash/jtribespso/impl/MultithreadedSearchSpace.java:67-68 | IllegalArgument on a negative thread count, Arithmetic on zero; otherwise a positive chunk size such that threadCount chunks hold more than the swarm |
| MultithreadedSearchSpace.ChunksCoverSwarm | src/main/java/com/github/steveash/jtribespso/impl/MultithreadedSearchSpace.java:67-68 | t chunks of n / t + 1 hold more than n |
| MultithreadedSearchSpace.PartitionConcat | src/main/java/com/github/steveash/jtribespso/impl/MultithreadedSearchSpace.java:70-77 | Iterables.partition loses and reorders nothing: the chunks concatenate to the list |
| MultithreadedSearchSpace.PartitionChunks | src/main/java/com/github/steveash/jtribespso/impl/MultithreadedSearchSpace.java:70-77 | each chunk is non-empty and at most n long; all but the last are exactly n long |
| MultithreadedSearchSpace.PartitionCount | src/main/java/com/github/steveash/jtribespso/impl/MultithreadedSearchSpace.java:67-77 | at most t * n elements make at most t chunks, so no more tasks than threads |
| MultithreadedSearchSpace.Move | src/main/java/com/github/steveash/jtribespso/impl/MultithreadedSearchSpace.java:66-84 | fails before moving anything exactly when the thread count is not positive; otherwise at most threadCount tasks that together hold each particle of the shuffled tribes once and move each particle exactly once |
| MultithreadedSearchSpace.MoveInTasks | src/main/java/com/github/steveash/jtribespso/impl/MultithreadedSearchSpace.java:70-83 | the tasks are the partition of the shuffled members, at most threadCount of them, and every particle moves exactly once |
| MultithreadedSearchSpace.ShuffledTasks | src/main/java/com/github/steveash/jtribespso/impl/MultithreadedSearchSpace.java:70-77 | the tasks of any order of the tribes hold every particle of the swarm and no other, each once |
| SearchSpaces.NextDoubleBetween | src/main/java/com/github/steveash/jtribespso/rand/JdkRandom.java:38-41 | a draw scaled onto [min, max) lands within it (or within (max, min] when the bounds are reversed) |
| SearchSpaces.NeedsToAdapt | src/main/java/com/github/steveash/jtribespso/SearchSpace.java:196-199 | true if and only if the moves since the last adaptation reach the link count divided by 4, rounded down |
| SearchSpaces.NonEmptyTribesKept | src/main/java/com/github/steveash/jtribespso/SearchSpace.java:239-247 | exactly the tribes with members remain, each still once |
| SearchSpaces.NonEmptyTribesAll | src/main/java/com/github/steveash/jtribespso/SearchSpace.java:239-247 | when no tribe is empty the list is left as it was |
| SearchSpaces.BadTribesCollected | src/main/java/com/github/steveash/jtribespso/SearchSpace.java:229-237 | exactly the tribes that are not good are collected, each once |
| SearchSpaces.NonEmptyTribesOwned | src/main/java/com/github/steveash/jtribespso/SearchSpace.java:239-247 | the kept tribes are distinct, non-empty and own their members |
| SearchSpaces.NonEmptyTribesParticles | src/main/java/com/github/steveash/jtribespso/SearchSpace.java:239-247 | dropping the empty tribes loses no particle |
| SearchSpaces.NonEmptyTribesLinks | src/main/java/com/github/steveash/jtribespso/SearchSpace.java:239-247 | when every empty tribe is isolated, the links among the kept tribes stay well formed |
| SearchSpaces.LinksAppend | src/main/java/com/github/steveash/jtribespso/SearchSpace.java:217-226 | appending a tribe adds its own informer list to the relation |
| SearchSpaces.JoinsIsolated | src/main/java/com/github/steveash/jtribespso/SearchSpace.java:217-226 | a new tribe without informers joins a well-formed swarm isolated |
| SearchSpaces.AppendValid | src/main/java/com/github/steveash/jtribespso/SearchSpace.java:217-226 | a new tribe without links that owns its members keeps the swarm valid |
| SearchSpaces.AppendOwned | src/main/java/com/github/steveash/jtribespso/SearchSpace.java:217-226 | a new non-empty tribe that owns its members can join owned tribes |
| SearchSpaces.NewTribe | src/main/java/com/github/steveash/jtribespso/Tribe.java:61-77 | new Tribe(particles) on particles of no tribe: a fresh tribe of exactly those members, without links, with the first best member as shaman, not good, whose members point back at it, and which the swarm can take in |
| SearchSpaces.GeneratePosition | src/main/java/com/github/steveash/jtribespso/SearchSpace.java:256-265 | one coordinate per dimension, each a draw between that dimension's bounds |
| SearchSpaces.GenerateNewParticle | src/main/java/com/github/steveash/jtribespso/SearchSpace.java:303-306 | a fresh new particle at a generated position |
| SearchSpaces.GenerateNewParticles | src/main/java/com/github/steveash/jtribespso/SearchSpace.java:285-291 | n distinct fresh new particles, each at its own generated position |
| SearchSpaces.RemoveAllEmptyTribes | src/main/java/com/github/steveash/jtribespso/SearchSpace.java:239-247 | the list with its empty tribes dropped, order kept (its properties: NonEmptyTribesKept) |
| SearchSpaces.CollectBadTribes | src/main/java/com/github/steveash/jtribespso/SearchSpace.java:229-237 | the tribes that are not good, in list order (its properties: BadTribesCollected) |
| SearchSpaces.PruneSwarm | src/main/java/com/github/steveash/jtribespso/SearchSpace.java:208-216 | the culling loop and removeAllEmptyTribes: a good tribe of several members loses its worst, a good tribe of one member is kept or left empty, the empty tribes are dropped and the swarm stays valid |
| SearchSpaces.RespawnSwarm | src/main/java/com/github/steveash/jtribespso/SearchSpace.java:217-226 | with no bad tribe the tribes and every survivor's informers stay as they were; otherwise a fresh tribe of one new particle per bad tribe is appended, its shaman its first member of least error and that error its historical best, its particles unmoved at generated positions with a neutral history and their position as best solution; each bad tribe keeps its informers and gains the new tribe as its last, and every other survivor keeps its informers; the swarm stays valid |
| SearchSpaces.SpawnTribe | src/main/java/com/github/steveash/jtribespso/SearchSpace.java:217-226 | the new tribe of adapt, as in RespawnSwarm, for a non-empty list of bad tribes, with the same shaman, historical best and particle state: each bad tribe's informers gain the new tribe at the end, and every other survivor's informers stay as they were |
| SearchSpaces.AdaptSwarm | src/main/java/com/github/steveash/jtribespso/SearchSpace.java:208-227 | adapt over a valid swarm: every tribe culled, the empty ones dropped, the new tribe spawned for the bad ones, with its shaman, historical best and unmoved particles as in RespawnSwarm, and the swarm still valid |
| SearchSpaces.SearchSpace.constructor | src/main/java/com/github/steveash/jtribespso/SearchSpace.java:51-56 | a new search space has no tribes, no moves counted, and is valid |
| SearchSpaces.SearchSpace.BestSolution | src/main/java/com/github/steveash/jtribespso/SearchSpace.java:80-86 | nothing when there are no tribes; otherwise the best solution of a tribe, with an error no larger than any tribe's, taken from the first tribe of least error |
| SearchSpaces.SearchSpace.AppendTribe | src/main/java/com/github/steveash/jtribespso/SearchSpace.java:278-282 | appends a fresh tribe that adopts the given particles, without links, and keeps the search space valid |
| SearchSpaces.SearchSpace.SeedParticle | src/main/java/com/github/steveash/jtribespso/SearchSpace.java:271-283 | DimensionMismatch exactly when the initial guess has the wrong dimension; otherwise a fresh new particle at the guess, or at a generated position when there is no guess |
| SearchSpaces.SearchSpace.SeedSearchSpace | src/main/java/com/github/steveash/jtribespso/SearchSpace.java:271-283 | fails, changing nothing, exactly when the initial guess has the wrong dimension; otherwise appends one fresh tribe of one fresh unmoved particle at the seed position, with a neutral history, its position and the error there as best and current solution, and that error as the tribe's historical best |
| SearchSpaces.SearchSpace.Move | src/main/java/com/github/steveash/jtribespso/SearchSpace.java:130 | fails, moving nothing, exactly under a multithreaded scheduling with a thread count that is not positive; otherwise every particle moves exactly once; the search space stays valid |
| SearchSpaces.SearchSpace.NotifySwarmMoved | src/main/java/com/github/steveash/jtribespso/SearchSpace.java:168-170 | every tribe's shaman becomes its first member of least error |
| SearchSpaces.SearchSpace.NotifySwarmAdapted | src/main/java/com/github/steveash/jtribespso/SearchSpace.java:181-183 | every tribe judges itself as updateIsGood says |
| SearchSpaces.SearchSpace.MoveThenAdapt | src/main/java/com/github/steveash/jtribespso/SearchSpace.java:152-186 | an empty swarm (which, by EmptySwarm, is one without tribes) is seeded as SeedSearchSpace says, with no event; otherwise the move posts SwarmMoving and, on success, SwarmMoved and one more move counted, and the swarm adapts, posting SwarmAdapting and SwarmAdapted and restarting the count, exactly when needsToAdapt holds; the search space stays valid; when it moves without adapting, every shaman is its tribe's first member of least error, and every tribe keeps its members, informers, isGood and historical best |
| SearchSpaces.SearchSpace.MoveAndAdapt | src/main/java/com/github/steveash/jtribespso/SearchSpace.java:163-185 | the part of moveThenAdapt for a swarm with tribes, with the same events, counts and outcome; when it moves without adapting, every shaman is its tribe's first member of least error, and every tribe keeps its members, informers, isGood and historical best |
| SearchSpaces.SearchSpace.MoveAndCount | src/main/java/com/github/steveash/jtribespso/SearchSpace.java:163-165 | move, and on success one more move counted; the tribes and the link count do not change |
| SearchSpaces.SearchSpace.NotifyThenAdaptIfDue | src/main/java/com/github/steveash/jtribespso/SearchSpace.java:167-185 | notifySwarmMoved on every tribe, then the adaptation exactly when needsToAdapt holds, which restarts the count; otherwise the tribe list and the count stay, every tribe keeps its members, informers, isGood and historical best, and every shaman is its tribe's first member of least error |
| SearchSpaces.SearchSpace.AdaptIfDue | src/main/java/com/github/steveash/jtribespso/SearchSpace.java:174-185 | adapts exactly when needsToAdapt holds for the current count and link count, and then restarts the count; otherwise the tribes, their fields and the count do not change |
| SearchSpaces.SearchSpace.CountMove | src/main/java/com/github/steveash/jtribespso/SearchSpace.java:165 | one more move counted |
| SearchSpaces.SearchSpace.AdaptAndRestart | src/main/java/com/github/steveash/jtribespso/SearchSpace.java:174-185 | adapts, restarts the count and keeps the search space valid |
| SearchSpaces.SearchSpace.ReplaceTribes | src/main/java/com/github/steveash/jtribespso/SearchSpace.java:208-227 | the tribe list becomes the new valid swarm |
| SearchSpaces.SearchSpace.Adapt | src/main/java/com/github/steveash/jtribespso/SearchSpace.java:208-227 | the tribes are culled as the first loop says, only old or fresh tribes remain, and the search space stays valid |
| SearchSpaces.PruneValid | src/main/java/com/github/steveash/jtribespso/SearchSpace.java:239-247 | after culling, dropping the empty tribes leaves a valid swarm of exactly the non-empty tribes |
| SearchSpaces.Spawn | src/main/java/com/github/steveash/jtribespso/SearchSpace.java:217-226 | the new tribe has the given particles as members, each with the new tribe as its tribe, and the bad tribes as informers, is not good, has its first member of least error as shaman and that error as historical best, is the last informer of each bad tribe, leaves every other tribe's links alone, and keeps the swarm valid |
| SearchSpaces.LinkNewTribe | src/main/java/com/github/steveash/jtribespso/SearchSpace.java:221-223 | the new tribe's informers become the bad tribes, in order; each bad tribe gains it as last informer; the swarm stays valid |
| SearchSpaces.LinkToNewTribe | src/main/java/com/github/steveash/jtribespso/SearchSpace.java:221-223 | the same loop over the informer relation: it stays well formed and the lists change as above |
| SearchSpaces.LinkOne | src/main/java/com/github/steveash/jtribespso/Tribe.java:208-217 | addInformer between a bad tribe and the new tribe not yet linked: each joins the other's list at the end, and the relation stays well formed |
| SearchSpaces.AdaptAndJudge | src/main/java/com/github/steveash/jtribespso/SearchSpace.java:174-185 | adapt and then notifySwarmAdapted keep the swarm valid |
| SearchSpaces.AdaptValid | src/main/java/com/github/steveash/jtribespso/SearchSpace.java:208-227 | adapt leaves a valid swarm of old and fresh tribes |
| SearchSpaces.MoveTribes | src/main/java/com/github/steveash/jtribespso/SearchSpace.java:163-165 | move over a valid swarm keeps it valid, with the same links and particles; it fails exactly on a thread count that is not positive, and otherwise moves each particle once |
| SearchSpaces.MoveSwarm | src/main/java/com/github/steveash/jtribespso/SearchSpace.java:130 | the move of whichever scheduling was chosen: a failure moves nothing, a success moves each particle once |
| SearchSpaces.CullTribe | src/main/java/com/github/steveash/jtribespso/SearchSpace.java:210-214 | a good tribe of several members loses its worst; a good tribe of one member goes extinct exactly when some informer tribe is strictly better, and then its links go, as Redistribute says, to its best informer; a tribe that is not extinct keeps its links; it still owns what is left, and the relation stays well formed |
| SearchSpaces.CullGoodTribes | src/main/java/com/github/steveash/jtribespso/SearchSpace.java:210-214 | every good tribe is culled in turn; the relation stays well formed and every tribe left empty is isolated |
| SearchSpaces.UpdateShamans | src/main/java/com/github/steveash/jtribespso/SearchSpace.java:168-170 | every tribe's shaman becomes its first member of least error |
| SearchSpaces.UpdateGoodness | src/main/java/com/github/steveash/jtribespso/SearchSpace.java:181-183 | every tribe is judged as updateIsGood says |

## Left out

- Floating point: vectors and errors are real numbers. IEEE rounding, NaN, the
  infinities and `Double.compare` in `equals` are not modelled.
- EuclidianVectors.Divide: requires a non-zero divisor. Java divides by zero into
  infinities or NaN, which real numbers cannot express.
- EuclidianVectors.CenterOfGravity: requires the masses not to sum to zero when
  the dimensions agree, for the same reason.
- EuclidianVectorBuilders.EuclidianVectorBuilder.Get: requires an index in range.
  Java throws IndexOutOfBoundsException outside it, which the model does not
  state. Its own contract says only that the value was added; `BuildAfterAdds`
  states which value get returns.
- Tribes.Tribe.UpdateShaman: requires a non-empty tribe. Ordering.min throws on
  an empty list, and no caller reaches that case: tribes are never empty when
  notifySwarmMoved runs.
- Tribes.Particle.Move: requires a parent with members. A particle's tribe is
  never empty while it moves.
- SearchSpaces.SearchSpace.constructor: requires an objective whose bounds have
  one entry per dimension. The Java constructor takes any objective.
- SearchSpaces.SearchSpace.MoveThenAdapt: in the adapting case it states
  validity, the events and the count reset only, not the shamans after adapt.
  What adapt does to the tribes is stated by `SearchSpaces.AdaptSwarm`.
- SearchSpaces.SearchSpace.MoveAndAdapt: the same as MoveThenAdapt, of which it
  is the part for a swarm with tribes.
- SearchSpaces.CullGoodTribes: for a good tribe of one member it states only
  that the tribe is kept or left empty, not when it goes extinct nor who
  receives its links. That depends on the links as they are at that tribe's
  turn in the loop, which earlier extinctions change. `SearchSpaces.CullTribe`
  states both, step by step.
- SearchSpaces.PruneSwarm: the same as CullGoodTribes, whose loop it runs.
- SearchSpaces.AdaptSwarm: the same as CullGoodTribes, whose loop it runs. It
  also does not state the informers the spawn step leaves, because they are
  relative to the swarm after the culling; `SearchSpaces.RespawnSwarm` states
  them relative to the survivors.
- SearchSpaces.AdaptValid: states only that the swarm stays valid and that its
  tribes are old or fresh; it is the contract of `SearchSpaces.AdaptSwarm`
  narrowed for the callers that need no more.
- SearchSpaces.SearchSpace.Adapt: states the culling and validity, but not the
  spawned tribe. `SearchSpaces.AdaptSwarm` states that part too.
- SearchSpaces.SearchSpace.AdaptAndRestart and SearchSpaces.AdaptAndJudge: state
  validity and the count reset only, as the thin layers above `AdaptSwarm`
  they are.
- SearchSpaces.SearchSpace.NotifyThenAdaptIfDue and
  SearchSpaces.SearchSpace.AdaptIfDue: in the adapting case they state validity
  and the count reset only, as AdaptAndRestart, which they call.
- Swarm.MoveInOrder, Swarm.MoveBatches, Swarm.MoveOne and the passes built on
  them (SingleThreadedSearchSpace.Move, MultithreadedSearchSpace.Move,
  MultithreadedSearchSpace.MoveInTasks, SearchSpaces.SearchSpace.Move,
  SearchSpaces.SearchSpace.MoveAndCount, SearchSpaces.MoveTribes and
  SearchSpaces.MoveSwarm): they state that every particle moves exactly once
  and stays ready, not where it goes. `Tribes.Particle.Move` states the move rule of one particle.
- calculateNewPosition, and so the hypersphere and Gaussian particle types with
  their factories: the new position is a function passed in, known only to have
  the objective's dimension. It is one pure function of (own best solution,
  best informer's best solution), the same for every particle of a pass. The
  Java strategies also read the particle's current position, whether it is
  excellent, and fresh random draws, so two particles with equal best solutions
  may go to different places there but not in the model.
- Threads: the multithreaded pass cuts the swarm into the same tasks as Java,
  but runs them one after another. The thread pool, the futures and the join
  are not modelled.
- Randomness: draws are parameters or arbitrary values. Collections.shuffle is
  an arbitrary permutation.
- The event bus: posted events are a ghost trace of SwarmEvent values.
  ParticleMovedEvent and the listeners are not modelled.
- Integer overflow: movesSinceAdaptation and the link counts are unbounded; Java
  ints would wrap past 2^31 - 1.
- The ghost `moveCount` of a particle is bookkeeping of the model that counts
  moves; Java has no such field.
- Order of unobservable steps: Spawn appends the new tribe before linking it
  (Java links first); Relocate memorizes before updating the best solution;
  GoExtinct clears the members before redistributing. No state between the two
  steps is observable in either order.
- magnitude, hashCode, toString, countGoodParticles (used only by toString),
  tribeCount, particlePositions and the accessors: not part of this model.
  `Swarm.Members` models tribeMembers.
- checkNotNull checks: Dafny references here are non-null by type.
