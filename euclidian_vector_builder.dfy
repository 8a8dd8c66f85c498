/**
 * EuclidianVectorBuilder: a buffer of entries that is appended to until
 * build() freezes it. After that every add is refused, so the vector that
 * build() hands out over the same buffer can never change.
 */
module EuclidianVectorBuilders {
  import opened Wrappers
  import opened Exceptions
  import opened EuclidianVectors

  class EuclidianVectorBuilder {
    /** dimensionData: the values added so far, in order. */
    var contents: seq<real>
    var frozen: bool

    constructor ()
      ensures contents == [] && !frozen
    {
      contents := [];
      frozen := false;
    }

    /** get(index): the index-th value added. */
    function Get(index: nat): (x: real)
      reads this
      requires index < |contents|
      ensures x in contents
    {
      contents[index]
    }

    /** add(data): appends one value, or fails with IllegalState once frozen and changes nothing. */
    method Add(data: real) returns (o: Outcome<Exception>)
      modifies this
      ensures frozen == old(frozen)
      ensures old(frozen) ==> o.Fail? && o.error.IllegalState? && contents == old(contents)
      ensures !old(frozen) ==> o.Pass? && contents == old(contents) + [data]
    {
      if frozen {
        return Fail(IllegalState("cant add elements when the builder is frozen"));
      }
      contents := contents + [data];
      return Pass;
    }

    /** build(): freezes the builder and returns the values added, in order. */
    method Build() returns (v: Vector)
      modifies this
      ensures frozen && contents == old(contents)
      ensures v == contents
    {
      frozen := true;
      v := contents;
    }
  }

  /** Values added one by one come back from get and build in order; later adds are refused. */
  method BuildAfterAdds(xs: seq<real>) returns (v: Vector, b: EuclidianVectorBuilder)
    ensures fresh(b) && b.frozen
    ensures v == xs && b.contents == xs
    ensures forall i :: 0 <= i < |xs| ==> b.Get(i) == xs[i]
  {
    b := new EuclidianVectorBuilder();
    var k := 0;
    while k < |xs|
      invariant 0 <= k <= |xs|
      invariant !b.frozen && b.contents == xs[..k]
    {
      var o := b.Add(xs[k]);
      assert xs[..k + 1] == xs[..k] + [xs[k]];
      k := k + 1;
    }
    assert xs[..k] == xs;
    v := b.Build();
  }
}
