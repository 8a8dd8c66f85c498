/**
 * The informer relation between tribes, as a value: each tribe's informer list in
 * insertion order. Tribe's link operations are specified by the functions here,
 * and the lemmas prove that they keep the relation symmetric and free of
 * self-links and duplicates.
 */
module InformerGraph {
  import opened SeqUtils

  /** Every list is duplicate-free, names no self-link and only known tribes, and links are symmetric. */
  predicate WellFormed<T(==)>(g: map<T, seq<T>>) {
    forall a | a in g ::
      NoDup(g[a]) && a !in g[a] && forall b | b in g[a] :: b in g && a in g[b]
  }

  /** x has no informers and is nobody's informer. */
  predicate Isolated<T(==)>(g: map<T, seq<T>>, x: T)
    requires x in g
  {
    g[x] == [] && forall a | a in g :: x !in g[a]
  }

  /** a.addInformer(b): append b to a's list, then a to b's list (the mutual recursion unrolled). */
  function AddInformer<T(==)>(g: map<T, seq<T>>, a: T, b: T): (r: map<T, seq<T>>)
    requires a in g && b in g
    ensures r.Keys == g.Keys
  {
    if b == a || b in g[a] then g
    else
      var g1 := g[a := g[a] + [b]];
      if a in g1[b] then g1 else g1[b := g1[b] + [a]]
  }

  /** a.removeInformer(b): drop the first occurrence of b from a's list only. */
  function RemoveInformer<T(==)>(g: map<T, seq<T>>, a: T, b: T): (r: map<T, seq<T>>)
    requires a in g
    ensures r.Keys == g.Keys
  {
    g[a := RemoveFirst(g[a], b)]
  }

  /** One turn of redistributeLinks' loop for the former informer f of s. */
  function RelinkStep<T(==)>(g: map<T, seq<T>>, s: T, d: T, f: T): (r: map<T, seq<T>>)
    requires f in g && d in g
    ensures r.Keys == g.Keys
  {
    var g1 := RemoveInformer(g, f, s);
    var g2 := AddInformer(g1, f, d);
    AddInformer(g2, d, f)
  }

  /** The loop of redistributeLinks run over the informers fs, in order. */
  function RelinkAll<T(==)>(g: map<T, seq<T>>, s: T, d: T, fs: seq<T>): (r: map<T, seq<T>>)
    requires d in g && forall f | f in fs :: f in g
    ensures r.Keys == g.Keys
    decreases |fs|
  {
    if fs == [] then g
    else RelinkStep(RelinkAll(g, s, d, fs[..|fs| - 1]), s, d, fs[|fs| - 1])
  }

  /** One more turn of the loop extends the relinked prefix by one informer. */
  lemma RelinkAllExtend<T>(g: map<T, seq<T>>, s: T, d: T, fs: seq<T>, k: nat, before: map<T, seq<T>>, after: map<T, seq<T>>)
    requires d in g && k < |fs| && forall f | f in fs :: f in g
    requires before == RelinkAll(g, s, d, fs[..k])
    requires after == RelinkStep(before, s, d, fs[k])
    ensures after == RelinkAll(g, s, d, fs[..k + 1])
  {
    assert fs[..k + 1][..k] == fs[..k];
  }

  /** redistributeLinks(s, d): move every link of s over to d, then clear s's list. */
  function Redistribute<T(==)>(g: map<T, seq<T>>, s: T, d: T): (r: map<T, seq<T>>)
    requires s in g && d in g && forall f | f in g[s] :: f in g
    ensures r.Keys == g.Keys
  {
    RelinkAll(g, s, d, g[s])[s := []]
  }

  /** The former informers in fs that d gains as new informers, in loop order. */
  function Newcomers<T(==)>(g: map<T, seq<T>>, d: T, fs: seq<T>): (r: seq<T>)
    requires d in g
    ensures forall f | f in r :: f in fs && f != d && f !in g[d]
    decreases |fs|
  {
    if fs == [] then []
    else
      var f := fs[|fs| - 1];
      Newcomers(g, d, fs[..|fs| - 1]) + (if f != d && f !in g[d] then [f] else [])
  }

  /** Every former informer that d did not already have, other than d itself, is a newcomer. */
  lemma {:induction false} NewcomersComplete<T>(g: map<T, seq<T>>, d: T, fs: seq<T>, f: T)
    requires d in g && f in fs && f != d && f !in g[d]
    ensures f in Newcomers(g, d, fs)
    decreases |fs|
  {
    var init := fs[..|fs| - 1];
    if f != fs[|fs| - 1] {
      assert f in init by {
        var i :| 0 <= i < |fs| && fs[i] == f;
        assert init[i] == f;
      }
      NewcomersComplete(g, d, init, f);
    }
  }

  lemma {:induction false} NewcomersNoDup<T>(g: map<T, seq<T>>, d: T, fs: seq<T>)
    requires d in g && NoDup(fs)
    ensures NoDup(Newcomers(g, d, fs))
    decreases |fs|
  {
    if fs != [] {
      var init := fs[..|fs| - 1];
      PrefixNoDup(fs, |fs| - 1);
      NewcomersNoDup(g, d, init);
      var f := fs[|fs| - 1];
      if f != d && f !in g[d] {
        assert f !in init by {
          forall i | 0 <= i < |init| ensures init[i] != f {
            assert init[i] == fs[i];
          }
        }
        AppendNoDup(Newcomers(g, d, init), f);
      } else {
        assert Newcomers(g, d, fs) == Newcomers(g, d, init);
      }
    }
  }

  /** What d's list becomes once the prefix P of s's informers is relinked. */
  function DestinationList<T(==)>(g: map<T, seq<T>>, s: T, d: T, P: seq<T>): seq<T>
    requires d in g
  {
    (if d in P then RemoveFirst(g[d], s) else g[d]) + Newcomers(g, d, P)
  }

  /** What the list of t, neither s nor d, becomes once the prefix P of s's informers is relinked. */
  function RelinkedList<T(==)>(g: map<T, seq<T>>, s: T, d: T, P: seq<T>, t: T): seq<T>
    requires t in g
  {
    if t in P then RemoveFirst(g[t], s) + (if d in g[t] then [] else [d]) else g[t]
  }

  ghost predicate OthersRelinked<T>(g: map<T, seq<T>>, s: T, d: T, P: seq<T>, r: map<T, seq<T>>) {
    forall t | t in g && t != s && t != d :: t in r && r[t] == RelinkedList(g, s, d, P, t)
  }

  /**
   * The state after relinking the prefix P of s's informers: s is untouched,
   * a processed informer lost s and gained d, d lost s once it was processed
   * itself and gained the newcomers, every other list is unchanged.
   */
  ghost predicate RelinkedPrefix<T>(g: map<T, seq<T>>, s: T, d: T, P: seq<T>, r: map<T, seq<T>>)
    requires s in g && d in g
  {
    && r.Keys == g.Keys
    && r[s] == g[s]
    && r[d] == DestinationList(g, s, d, P)
    && OthersRelinked(g, s, d, P, r)
  }

  /** The preconditions under which Tribe.tryRemoveWorstParticle calls redistributeLinks. */
  ghost predicate RedistributeReady<T>(g: map<T, seq<T>>, s: T, d: T) {
    WellFormed(g) && s in g && d in g[s]
  }

  /** Relinking d itself only removes s from d's list. */
  lemma RelinkStepAtDestination<T>(R: map<T, seq<T>>, s: T, d: T)
    requires d in R
    ensures RelinkStep(R, s, d, d) == R[d := RemoveFirst(R[d], s)]
  {
  }

  /** Relinking an informer already linked with d only removes s from its list. */
  lemma RelinkStepLinked<T>(R: map<T, seq<T>>, s: T, d: T, f: T)
    requires f in R && d in R && f != d && d != s && d in R[f] && f in R[d]
    ensures RelinkStep(R, s, d, f) == R[f := RemoveFirst(R[f], s)]
  {
    assert d in RemoveFirst(R[f], s);
  }

  /** Relinking an informer not yet linked with d swaps s for d in its list and appends it to d's. */
  lemma RelinkStepUnlinked<T>(R: map<T, seq<T>>, s: T, d: T, f: T)
    requires f in R && d in R && f != d && d !in R[f] && f !in R[d]
    ensures RelinkStep(R, s, d, f) == R[f := RemoveFirst(R[f], s) + [d]][d := R[d] + [f]]
  {
    var g1 := RemoveInformer(R, f, s);
    assert d !in g1[f];
    var g2 := g1[f := g1[f] + [d]][d := g1[d] + [f]];
    assert AddInformer(g1, f, d) == g2;
    assert f in g2[d];
  }

  /** How d's list changes when one more informer f is relinked. */
  lemma DestinationListStep<T>(g: map<T, seq<T>>, s: T, d: T, P: seq<T>, f: T)
    requires d in g && f !in P
    ensures f != d ==>
      DestinationList(g, s, d, P + [f]) == DestinationList(g, s, d, P) + (if f in g[d] then [] else [f])
    ensures f == d && s in g[d] ==>
      DestinationList(g, s, d, P + [f]) == RemoveFirst(DestinationList(g, s, d, P), s)
  {
    var P' := P + [f];
    assert P'[..|P'| - 1] == P;
    assert d in P' <==> d in P || d == f;
    if f == d && s in g[d] {
      RemoveFirstAppend(g[d], Newcomers(g, d, P), s);
    }
  }

  /** Relinking f only settles f's own list among the others. */
  lemma OthersRelinkedStep<T>(g: map<T, seq<T>>, s: T, d: T, P: seq<T>, R: map<T, seq<T>>, f: T, r: map<T, seq<T>>)
    requires OthersRelinked(g, s, d, P, R) && f in g && f !in P
    requires forall t | t in g && t != s && t != d && t != f :: t in r && r[t] == R[t]
    requires f != s && f != d ==> f in r && r[f] == RelinkedList(g, s, d, P + [f], f)
    ensures OthersRelinked(g, s, d, P + [f], r)
  {
    forall t | t in g && t != s && t != d && t != f
      ensures RelinkedList(g, s, d, P + [f], t) == RelinkedList(g, s, d, P, t)
    {
      assert t in P + [f] <==> t in P;
    }
  }

  /** The facts about g that relinking one informer f of s relies on. */
  ghost predicate StepReady<T>(g: map<T, seq<T>>, s: T, d: T, f: T) {
    && s in g && d in g && f in g && s != d && s != f
    && s in g[d] && s in g[f] && (d in g[f] <==> f in g[d])
  }

  lemma RelinkStepClosedForm<T>(g: map<T, seq<T>>, s: T, d: T, P: seq<T>, R: map<T, seq<T>>, f: T)
    requires StepReady(g, s, d, f) && f !in P
    requires RelinkedPrefix(g, s, d, P, R)
    ensures RelinkedPrefix(g, s, d, P + [f], RelinkStep(R, s, d, f))
  {
    DestinationListStep(g, s, d, P, f);
    var r := RelinkStep(R, s, d, f);
    if f == d {
      RelinkStepAtDestination(R, s, d);
    } else {
      assert R[f] == g[f];
      if d in g[f] {
        assert f in RemoveFirst(g[d], s) && f in R[d];
        RelinkStepLinked(R, s, d, f);
      } else {
        assert f !in RemoveFirst(g[d], s) && f !in Newcomers(g, d, P) && f !in R[d];
        RelinkStepUnlinked(R, s, d, f);
      }
      assert r[f] == RelinkedList(g, s, d, P + [f], f);
    }
    OthersRelinkedStep(g, s, d, P, R, f, r);
  }

  /** Running the loop over a duplicate-free list fs of informers ready to relink gives the closed form. */
  lemma {:induction false} RelinkAllClosedForm<T>(g: map<T, seq<T>>, s: T, d: T, fs: seq<T>)
    requires s in g && d in g && NoDup(fs) && forall f | f in fs :: f in g && StepReady(g, s, d, f)
    ensures RelinkedPrefix(g, s, d, fs, RelinkAll(g, s, d, fs))
    decreases |fs|
  {
    if fs != [] {
      var P := fs[..|fs| - 1];
      var f := fs[|fs| - 1];
      assert fs == P + [f];
      PrefixNoDup(fs, |fs| - 1);
      assert f !in P by {
        forall i | 0 <= i < |P| ensures P[i] != f {
          assert P[i] == fs[i];
        }
      }
      RelinkAllClosedForm(g, s, d, P);
      RelinkStepClosedForm(g, s, d, P, RelinkAll(g, s, d, P), f);
    }
  }

  /** Every informer of s is ready to be relinked to d. */
  lemma InformersReady<T>(g: map<T, seq<T>>, s: T, d: T)
    requires RedistributeReady(g, s, d)
    ensures NoDup(g[s]) && forall f | f in g[s] :: StepReady(g, s, d, f)
  {
    forall f | f in g[s] ensures StepReady(g, s, d, f) {
      assert s in g[d];
    }
  }

  /**
   * The relation after redistributeLinks(s, d): s has no informers, d traded s
   * for the newcomers, each former informer of s traded s for d, every other
   * list is unchanged.
   */
  ghost predicate Redistributed<T>(g: map<T, seq<T>>, s: T, d: T, r: map<T, seq<T>>)
    requires s in g && d in g
  {
    && r.Keys == g.Keys
    && r[s] == []
    && r[d] == RemoveFirst(g[d], s) + Newcomers(g, d, g[s])
    && OthersRelinked(g, s, d, g[s], r)
  }

  /** Redistribute is the closed form above. */
  lemma RedistributeClosedForm<T>(g: map<T, seq<T>>, s: T, d: T)
    requires RedistributeReady(g, s, d)
    ensures Redistributed(g, s, d, Redistribute(g, s, d))
  {
    InformersReady(g, s, d);
    RelinkAllClosedForm(g, s, d, g[s]);
    var R := RelinkAll(g, s, d, g[s]);
    var r := Redistribute(g, s, d);
    assert d != s;
    forall t | t in g && t != s && t != d ensures t in r && r[t] == RelinkedList(g, s, d, g[s], t) {
      assert r[t] == R[t];
    }
  }

  /** Concatenating two duplicate-free lists with no common element gives a duplicate-free list. */
  lemma DisjointAppendNoDup<T>(a: seq<T>, b: seq<T>)
    requires NoDup(a) && NoDup(b) && forall x | x in a :: x !in b
    ensures NoDup(a + b)
  {
    forall i, j | 0 <= i < j < |a + b| ensures (a + b)[i] != (a + b)[j] {
      if j < |a| {
        assert (a + b)[i] == a[i] && (a + b)[j] == a[j];
      } else if i >= |a| {
        assert (a + b)[i] == b[i - |a|] && (a + b)[j] == b[j - |a|];
      } else {
        assert (a + b)[i] == a[i] && (a + b)[j] == b[j - |a|];
        assert a[i] in a;
      }
    }
  }

  /** The well-formedness conditions of one tribe's list. */
  ghost predicate WellFormedAt<T>(r: map<T, seq<T>>, a: T)
    requires a in r
  {
    NoDup(r[a]) && a !in r[a] && forall b | b in r[a] :: b in r && a in r[b]
  }

  lemma RedistributedAtDestination<T>(g: map<T, seq<T>>, s: T, d: T, r: map<T, seq<T>>)
    requires RedistributeReady(g, s, d) && Redistributed(g, s, d, r)
    ensures WellFormedAt(r, d)
  {
    var base := RemoveFirst(g[d], s);
    var news := Newcomers(g, d, g[s]);
    RemoveFirstNoDup(g[d], s);
    NewcomersNoDup(g, d, g[s]);
    DisjointAppendNoDup(base, news);
    forall b | b in r[d] ensures b in r && d in r[b] {
      if b in base {
        assert b in g[d] && b != s && d in g[b];
        assert r[b] == RelinkedList(g, s, d, g[s], b);
      } else {
        assert b in g[s] && b != d && b !in g[d] && d !in g[b];
        assert r[b] == RelinkedList(g, s, d, g[s], b);
      }
    }
  }

  lemma RedistributedAtInformer<T>(g: map<T, seq<T>>, s: T, d: T, r: map<T, seq<T>>, a: T)
    requires RedistributeReady(g, s, d) && Redistributed(g, s, d, r)
    requires a in g[s] && a != d
    ensures WellFormedAt(r, a)
  {
    assert a in g && a != s;
    assert r[a] == RemoveFirst(g[a], s) + (if d in g[a] then [] else [d]);
    RemoveFirstNoDup(g[a], s);
    if d !in g[a] {
      AppendNoDup(RemoveFirst(g[a], s), d);
    }
    forall b | b in r[a] ensures b in r && a in r[b] {
      if b == d {
        if d in g[a] {
          assert a in g[d] && a != s;
          assert a in RemoveFirst(g[d], s);
        } else {
          assert a !in g[d];
          NewcomersComplete(g, d, g[s], a);
        }
      } else {
        assert b in g[a] && b != s && a in g[b];
        assert r[b] == RelinkedList(g, s, d, g[s], b);
        if b in g[s] {
          assert a in RemoveFirst(g[b], s);
        }
      }
    }
  }

  lemma RedistributedAtOther<T>(g: map<T, seq<T>>, s: T, d: T, r: map<T, seq<T>>, a: T)
    requires RedistributeReady(g, s, d) && Redistributed(g, s, d, r)
    requires a in g && a !in g[s] && a != s && a != d
    ensures WellFormedAt(r, a)
  {
    assert r[a] == g[a];
    assert s !in g[a];
    forall b | b in r[a] ensures b in r && a in r[b] {
      assert a in g[b] && b != s;
      if b == d {
        assert a in RemoveFirst(g[d], s);
      } else {
        assert r[b] == RelinkedList(g, s, d, g[s], b);
        if b in g[s] {
          assert a in RemoveFirst(g[b], s);
        }
      }
    }
  }

  /** Redistribution keeps the informer relation well formed. */
  lemma RedistributeWellFormed<T>(g: map<T, seq<T>>, s: T, d: T)
    requires RedistributeReady(g, s, d)
    ensures WellFormed(Redistribute(g, s, d))
  {
    var r := Redistribute(g, s, d);
    RedistributeClosedForm(g, s, d);
    forall a | a in r ensures WellFormedAt(r, a) {
      if a == d {
        RedistributedAtDestination(g, s, d, r);
      } else if a in g[s] {
        RedistributedAtInformer(g, s, d, r, a);
      } else if a != s {
        RedistributedAtOther(g, s, d, r, a);
      }
    }
  }

  /** Redistribution detaches s completely. */
  lemma RedistributeIsolatesSource<T>(g: map<T, seq<T>>, s: T, d: T)
    requires RedistributeReady(g, s, d)
    ensures s in Redistribute(g, s, d) && Isolated(Redistribute(g, s, d), s)
  {
    var r := Redistribute(g, s, d);
    RedistributeClosedForm(g, s, d);
    RedistributeWellFormed(g, s, d);
    forall a | a in r ensures s !in r[a] {
    }
  }

  /** Redistribution detaches s completely and links every other former informer of s with d. */
  lemma RedistributeRelinksToDestination<T>(g: map<T, seq<T>>, s: T, d: T)
    requires RedistributeReady(g, s, d)
    ensures s in Redistribute(g, s, d) && Isolated(Redistribute(g, s, d), s)
    ensures forall f | f in g[s] && f != d :: d in Redistribute(g, s, d)[f] && f in Redistribute(g, s, d)[d]
    ensures forall t | t in g && t != s && t != d && t !in g[s] :: Redistribute(g, s, d)[t] == g[t]
  {
    var r := Redistribute(g, s, d);
    RedistributeClosedForm(g, s, d);
    RedistributeWellFormed(g, s, d);
    forall a | a in r ensures s !in r[a] {
    }
    forall f | f in g[s] && f != d ensures d in r[f] && f in r[d] {
      assert f != s;
      if d in g[f] {
        assert d != s;
      }
    }
  }

  /** Redistribution never touches a tribe that was already isolated. */
  lemma RedistributeKeepsIsolated<T>(g: map<T, seq<T>>, s: T, d: T, x: T)
    requires RedistributeReady(g, s, d) && x in g && x != s && Isolated(g, x)
    ensures Isolated(Redistribute(g, s, d), x)
  {
    var r := Redistribute(g, s, d);
    RedistributeClosedForm(g, s, d);
    assert x !in g[s] && x != d;
    forall a | a in r ensures x !in r[a] {
      if a == d {
        assert x !in g[d];
      } else if a != s && a in g[s] {
        assert x !in g[a];
      }
    }
  }

  /** Redistribution leaves every other isolated tribe isolated. */
  lemma RedistributeKeepsAllIsolated<T>(g: map<T, seq<T>>, s: T, d: T)
    requires RedistributeReady(g, s, d)
    ensures forall x | x in g && x != s && Isolated(g, x) :: x in Redistribute(g, s, d) && Isolated(Redistribute(g, s, d), x)
  {
    forall x | x in g && x != s && Isolated(g, x) ensures x in Redistribute(g, s, d) && Isolated(Redistribute(g, s, d), x) {
      RedistributeKeepsIsolated(g, s, d, x);
    }
  }

  /** Adding a link never drops one. */
  lemma AddInformerKeepsLinks<T>(g: map<T, seq<T>>, a: T, b: T)
    requires a in g && b in g
    ensures forall t, x | t in g && x in g[t] :: x in AddInformer(g, a, b)[t]
  {
  }

  /** Adding a link keeps the relation well formed, links both ends, and touches no third tribe. */
  lemma AddInformerWellFormed<T>(g: map<T, seq<T>>, a: T, b: T)
    requires WellFormed(g) && a in g && b in g
    ensures WellFormed(AddInformer(g, a, b))
    ensures a != b ==> b in AddInformer(g, a, b)[a] && a in AddInformer(g, a, b)[b]
    ensures forall t | t in g && t != a && t != b :: AddInformer(g, a, b)[t] == g[t]
  {
    var r := AddInformer(g, a, b);
    if b != a && b !in g[a] {
      assert a !in g[b];
      AppendNoDup(g[a], b);
      AppendNoDup(g[b], a);
      assert r == g[a := g[a] + [b]][b := g[b] + [a]];
    }
  }

  /** A link between two other tribes leaves an isolated tribe isolated. */
  lemma AddInformerKeepsIsolated<T>(g: map<T, seq<T>>, a: T, b: T, x: T)
    requires a in g && b in g && x in g && x != a && x != b && Isolated(g, x)
    ensures Isolated(AddInformer(g, a, b), x)
  {
  }

  /** Dropping isolated tribes from the relation keeps it well formed. */
  lemma RestrictWellFormed<T>(g: map<T, seq<T>>, keep: set<T>)
    requires WellFormed(g)
    requires forall x | x in g && x !in keep :: Isolated(g, x)
    ensures WellFormed(map t | t in g && t in keep :: g[t])
  {
    var r := map t | t in g && t in keep :: g[t];
    forall a | a in r ensures forall b | b in r[a] :: b in r && a in r[b] {
      forall b | b in r[a] ensures b in r && a in r[b] {
        assert b in g;
      }
    }
  }

  /** A new tribe with no links can join a well-formed relation. */
  lemma AddIsolatedWellFormed<T>(g: map<T, seq<T>>, x: T)
    requires WellFormed(g) && x !in g
    ensures WellFormed(g[x := []]) && Isolated(g[x := []], x)
  {
    var r := g[x := []];
    forall a | a in g ensures x !in g[a] {
    }
  }
}
