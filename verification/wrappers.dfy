/** The two wrappers used throughout the model: an optional value
    (Python's `None` or a missing dictionary key) and a result that is either a
    value or the exception the Python code would raise. */
module Wrappers {

  datatype Option<+T> = None | Some(value: T)

  datatype Result<+T, +E> = Ok(value: T) | Err(error: E)

  /** Applies `f` to every element in order, stopping at the first failure. */
  function MapAll<A, B, E>(xs: seq<A>, f: A -> Result<B, E>): (r: Result<seq<B>, E>)
    ensures r.Ok? <==> forall i :: 0 <= i < |xs| ==> f(xs[i]).Ok?
    ensures r.Ok? ==> |r.value| == |xs|
    ensures r.Ok? ==> forall i :: 0 <= i < |xs| ==> r.value[i] == f(xs[i]).value
  {
    if |xs| == 0 then Ok([])
    else
      match f(xs[0])
      case Err(e) => Err(e)
      case Ok(y) =>
        match MapAll(xs[1..], f)
        case Err(e) => Err(e)
        case Ok(ys) => Ok([y] + ys)
  }

  /** Element `i` fails with `e` and every element before it succeeds. */
  predicate FirstFailure<A, B, E(==)>(xs: seq<A>, f: A -> Result<B, E>, i: nat, e: E)
  {
    && i < |xs|
    && f(xs[i]).Err? && f(xs[i]).error == e
    && forall j :: 0 <= j < i ==> f(xs[j]).Ok?
  }

  /** A failed `MapAll` reports the failure of the first element that fails. */
  lemma {:induction false} MapAllFirstError<A, B, E>(xs: seq<A>, f: A -> Result<B, E>)
    requires MapAll(xs, f).Err?
    ensures exists i: nat :: FirstFailure(xs, f, i, MapAll(xs, f).error)
    decreases |xs|
  {
    var e := MapAll(xs, f).error;
    if f(xs[0]).Err? {
      assert FirstFailure(xs, f, 0, e);
    } else {
      var tail := xs[1..];
      assert MapAll(tail, f).Err? && MapAll(tail, f).error == e;
      MapAllFirstError(tail, f);
      var k: nat :| FirstFailure(tail, f, k, e);
      assert xs[k + 1] == tail[k];
      forall j | 0 <= j < k + 1
        ensures f(xs[j]).Ok?
      {
        if j > 0 {
          assert xs[j] == tail[j - 1];
        }
      }
      assert FirstFailure(xs, f, k + 1, e);
    }
  }

  /** Mapping a concatenation succeeds when mapping both runs does. */
  lemma MapAllAppendOk<A, B, E>(a: seq<A>, b: seq<A>, f: A -> Result<B, E>)
    requires MapAll(a, f).Ok? && MapAll(b, f).Ok?
    ensures MapAll(a + b, f).Ok?
  {
    var ab := a + b;
    forall i | 0 <= i < |ab|
      ensures f(ab[i]).Ok?
    {
      if i < |a| {
        assert ab[i] == a[i];
      } else {
        assert ab[i] == b[i - |a|];
      }
    }
  }

  /** Mapping a concatenation concatenates the results. */
  lemma MapAllAppend<A, B, E>(a: seq<A>, b: seq<A>, f: A -> Result<B, E>)
    requires MapAll(a, f).Ok? && MapAll(b, f).Ok?
    ensures MapAll(a + b, f) == Ok(MapAll(a, f).value + MapAll(b, f).value)
  {
    MapAllAppendOk(a, b, f);
    var ab := a + b;
    var ya, yb := MapAll(a, f).value, MapAll(b, f).value;
    var yab := MapAll(ab, f).value;
    forall i | 0 <= i < |yab|
      ensures yab[i] == (ya + yb)[i]
    {
      if i < |a| {
        assert ab[i] == a[i];
      } else {
        assert ab[i] == b[i - |a|];
      }
    }
    assert yab == ya + yb;
  }
}
