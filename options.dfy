/** An optional value and the flattening of a list of optional findings. */
module Options {

  datatype Option<T> = None | Some(value: T)

  /** The values of the `Some` entries of `xs`, in order: what a loop that appends
      one element per flagged item and nothing for the others has gathered. */
  function Present<T>(xs: seq<Option<T>>): (r: seq<T>)
    ensures |r| <= |xs|
    ensures (forall i :: 0 <= i < |xs| ==> xs[i].None?) ==> r == []
  {
    if xs == [] then []
    else Present(xs[..|xs| - 1]) + (if xs[|xs| - 1].Some? then [xs[|xs| - 1].value] else [])
  }

  /** Gathering over two lists one after the other keeps both results, in order. */
  lemma {:induction false} PresentAppend<T>(a: seq<Option<T>>, b: seq<Option<T>>)
    ensures Present(a + b) == Present(a) + Present(b)
    decreases |b|
  {
    if b == [] {
      assert a + b == a;
    } else {
      var n := |b| - 1;
      assert (a + b)[..|a + b| - 1] == a + b[..n];
      PresentAppend(a, b[..n]);
    }
  }

  /** An element is gathered exactly when some entry holds it. */
  lemma {:induction false} PresentMember<T>(xs: seq<Option<T>>, x: T)
    ensures x in Present(xs) <==> exists i :: 0 <= i < |xs| && xs[i] == Some(x)
    decreases |xs|
  {
    if xs != [] {
      var n := |xs| - 1;
      PresentMember(xs[..n], x);
      if x in Present(xs[..n]) {
        var i :| 0 <= i < n && xs[..n][i] == Some(x);
        assert xs[i] == Some(x);
      }
      if exists i :: 0 <= i < |xs| && xs[i] == Some(x) {
        var i :| 0 <= i < |xs| && xs[i] == Some(x);
        if i < n {
          assert xs[..n][i] == Some(x);
        }
      }
    }
  }

  /** Gathering the first `i + 1` entries adds what entry `i` holds to the first `i`. */
  lemma PresentStep<T>(xs: seq<Option<T>>, i: nat)
    requires i < |xs|
    ensures Present(xs[..i + 1]) == Present(xs[..i]) + (if xs[i].Some? then [xs[i].value] else [])
  {
    assert xs[..i + 1][..i] == xs[..i];
  }
}
