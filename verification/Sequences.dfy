// Small sequence vocabulary shared by the other modules.
module Sequences {

  datatype Option<+T> = None | Some(value: T)

  /** The elements of xs that satisfy p, in order. */
  function Filter<T>(p: T -> bool, xs: seq<T>): (ys: seq<T>)
    ensures |ys| <= |xs|
  {
    if xs == [] then []
    else if p(xs[0]) then [xs[0]] + Filter(p, xs[1..])
    else Filter(p, xs[1..])
  }

  lemma Associates<T>(xs: seq<T>, ys: seq<T>, zs: seq<T>)
    ensures (xs + ys) + zs == xs + (ys + zs)
  {
  }

  lemma {:induction false} FilterConcat<T>(p: T -> bool, xs: seq<T>, ys: seq<T>)
    ensures Filter(p, xs + ys) == Filter(p, xs) + Filter(p, ys)
  {
    if xs == [] {
      assert xs + ys == ys;
    } else {
      var all, rest := xs + ys, xs[1..];
      assert all[0] == xs[0] && all[1..] == rest + ys;
      FilterConcat(p, rest, ys);
      Associates([xs[0]], Filter(p, rest), Filter(p, ys));
    }
  }

  lemma FilterOne<T>(p: T -> bool, x: T)
    ensures Filter(p, [x]) == if p(x) then [x] else []
  {
    assert [x][1..] == [];
  }

  lemma {:induction false} FilterKeeps<T>(p: T -> bool, xs: seq<T>, x: T)
    requires x in xs && p(x)
    ensures x in Filter(p, xs)
  {
    if x != xs[0] {
      FilterKeeps(p, xs[1..], x);
    }
  }

  lemma {:induction false} FilterAll<T>(p: T -> bool, xs: seq<T>)
    requires forall x | x in xs :: p(x)
    ensures Filter(p, xs) == xs
  {
    if xs != [] {
      FilterAll(p, xs[1..]);
    }
  }

  lemma {:induction false} FilterNone<T>(p: T -> bool, xs: seq<T>)
    requires forall x | x in xs :: !p(x)
    ensures Filter(p, xs) == []
  {
    if xs != [] {
      FilterNone(p, xs[1..]);
    }
  }

  /** The last `n` elements. */
  function LastN<T>(xs: seq<T>, n: nat): seq<T> {
    if |xs| <= n then xs else xs[|xs| - n..]
  }

  function Max(a: int, b: int): int {
    if a < b then b else a
  }

  /** What is left of a sequence when exactly the elements at the places that `picked` tells stay, in order. */
  ghost predicate Selects<T>(xs: seq<T>, picked: nat -> bool, out: seq<T>, places: seq<nat>) {
    && |places| == |out|
    && (forall i | 0 <= i < |out| :: places[i] < |xs| && out[i] == xs[places[i]])
    && (forall i, j | 0 <= i < j < |places| :: places[i] < places[j])
    && (forall n: nat | n < |xs| :: n in places <==> picked(n))
  }

  /** One more element, kept or not. */
  lemma SelectsNext<T>(xs: seq<T>, picked: nat -> bool, out: seq<T>, places: seq<nat>, x: T)
    requires Selects(xs, picked, out, places)
    ensures picked(|xs|) ==> Selects(xs + [x], picked, out + [x], places + [|xs|])
    ensures !picked(|xs|) ==> Selects(xs + [x], picked, out, places)
  {
    assert forall i | 0 <= i < |places| :: places[i] in places && places[i] < |xs|;
    assert forall i | 0 <= i < |places| :: (places + [|xs|])[i] == places[i];
    forall n: nat | n < |xs| + 1
      ensures n in places + [|xs|] <==> n in places || n == |xs|
    {
    }
  }

  /** Filtering selects the places whose element satisfies p. */
  lemma {:induction false} FilterSelects<T>(p: T -> bool, xs: seq<T>) returns (places: seq<nat>)
    ensures Selects(xs, (n: nat) => n < |xs| && p(xs[n]), Filter(p, xs), places)
  {
    if xs == [] {
      places := [];
    } else {
      var k, x := |xs| - 1, xs[|xs| - 1];
      var front := xs[..k];
      var so := FilterSelects(p, front);
      assert xs == front + [x];
      FilterConcat(p, front, [x]);
      FilterOne(p, x);
      var picked := (n: nat) => n < |xs| && p(xs[n]);
      assert Selects(front, picked, Filter(p, front), so);
      SelectsNext(front, picked, Filter(p, front), so, x);
      places := if p(x) then so + [k] else so;
    }
  }
}
