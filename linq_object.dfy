/**
  The query object's map operator. A `LinqObject` holds only its enumerator,
  so its `const` builders are modelled as methods that read an `Enumerator`
  and return a new one without changing it. The derived enumerator's state is
  a copy of the source enumerator's state paired with a zero-based counter;
  the source's step function, which never changes after construction, is
  captured in the new step.
 */
module LinqObject {
  import opened Enumerators
  import From

  /**
    Step of `SelectInternal(transform)`: pull from the copied source cursor;
    on an element `x`, yield `transform(x, counter)` and advance the counter;
    on the end, pass the end through.
   */
  function SelectStep<R, A(!new), U>(next: NextFn<R, A>, transform: (R, int) -> U): (sel: NextFn<U, (A, int)>)
    ensures forall p: (A, int) {:trigger sel.requires(p)} {:trigger sel(p)} :: next.requires(p.0) ==>
      && sel.requires(p)
      && sel(p).1.0 == next(p.0).1
      && (sel(p).0.End? <==> next(p.0).0.End?)
      && (next(p.0).0.End? ==> sel(p).1.1 == p.1)
      && (next(p.0).0.Elem? ==>
            sel(p).0 == Elem(transform(next(p.0).0.value, p.1)) && sel(p).1.1 == p.1 + 1)
  {
    (p: (A, int)) requires next.requires(p.0) =>
      var step := next(p.0);
      if step.0.End? then (End, (step.1, p.1))
      else (Elem(transform(step.0.value, p.1)), (step.1, p.1 + 1))
  }

  /**
    The transform of `Select`, which ignores the index: whatever counter the
    index-aware map starts from, it yields the plain map.
   */
  function IgnoreIndex<R(!new), U>(transform: R -> U): (f: (R, int) -> U)
    ensures forall x, i {:trigger f(x, i)} :: f(x, i) == transform(x)
    ensures forall xs: seq<R>, c {:trigger MapIndexed(f, xs, c)} :: MapIndexed(f, xs, c) == Map(transform, xs)
  {
    (x: R, i: int) => transform(x)
  }

  /** The values an index-aware map yields for `xs` when its counter starts at `c`. */
  function MapIndexed<R, U>(transform: (R, int) -> U, xs: seq<R>, c: int): (ys: seq<U>)
    ensures |ys| == |xs|
    ensures forall k :: 0 <= k < |xs| ==> ys[k] == transform(xs[k], c + k)
    decreases |xs|
  {
    if xs == [] then [] else [transform(xs[0], c)] + MapIndexed(transform, xs[1..], c + 1)
  }

  function Map<R, U>(transform: R -> U, xs: seq<R>): seq<U>
  {
    seq(|xs|, k requires 0 <= k < |xs| => transform(xs[k]))
  }

  /**
    Over any number of pulls the derived cursor is allowed whenever the
    source is, its copy of the source advances in lock-step with the source,
    and it signals the end exactly where the source does.
   */
  lemma {:induction false} SelectTracksSource<R, A(!new), U>(next: NextFn<R, A>, transform: (R, int) -> U, d: A, c: int, n: nat)
    requires CanPull(next, d, n)
    ensures CanPull(SelectStep(next, transform), (d, c), n)
    ensures StateAfter(SelectStep(next, transform), (d, c), n).0 == StateAfter(next, d, n)
    ensures forall k :: 0 <= k < n ==>
      (Pulls(SelectStep(next, transform), (d, c), n)[k] == End <==> Pulls(next, d, n)[k] == End)
    decreases n
  {
    if n > 0 {
      var sel := SelectStep(next, transform);
      var after := sel((d, c)).1;
      SelectTracksSource(next, transform, next(d).1, after.1, n - 1);
      assert after.0 == next(d).1;
      var ps := Pulls(sel, (d, c), n);
      var qs := Pulls(next, d, n);
      assert ps == [sel((d, c)).0] + Pulls(sel, after, n - 1);
      assert qs == [next(d).0] + Pulls(next, next(d).1, n - 1);
      forall k | 0 <= k < n
        ensures ps[k] == End <==> qs[k] == End
      {
        if k > 0 {
          assert ps[k] == Pulls(sel, after, n - 1)[k - 1];
          assert qs[k] == Pulls(next, next(d).1, n - 1)[k - 1];
        }
      }
    }
  }

  /**
    If the source cursor drains to `xs`, the derived cursor with counter `c`
    drains to the k-th element mapped with index `c + k`, for every k.
   */
  lemma {:induction false} SelectInternalDrains<R, A(!new), U>(next: NextFn<R, A>, transform: (R, int) -> U, d: A, c: int, xs: seq<R>)
    requires DrainsTo(next, d, xs)
    ensures DrainsTo(SelectStep(next, transform), (d, c), MapIndexed(transform, xs, c))
    decreases |xs|
  {
    var sel := SelectStep(next, transform);
    var ys := MapIndexed(transform, xs, c);
    DrainsToStep(next, d, xs);
    if xs != [] {
      SelectInternalDrains(next, transform, next(d).1, c + 1, xs[1..]);
      assert ys[1..] == MapIndexed(transform, xs[1..], c + 1);
    }
    DrainsToStep(sel, (d, c), ys);
  }

  /**
    Conversely, if the derived cursor drains to `ys` (and the source may be
    pulled as often), the source drains to a sequence of the same length
    whose index-aware map is `ys`.
   */
  lemma {:induction false} SelectInternalDrainsOnlyIf<R, A(!new), U>(next: NextFn<R, A>, transform: (R, int) -> U, d: A, c: int, ys: seq<U>)
    requires CanPull(next, d, |ys| + 1)
    requires DrainsTo(SelectStep(next, transform), (d, c), ys)
    ensures exists xs :: DrainsTo(next, d, xs) && ys == MapIndexed(transform, xs, c)
    decreases |ys|
  {
    var sel := SelectStep(next, transform);
    DrainsToStep(sel, (d, c), ys);
    if ys == [] {
      DrainsToStep(next, d, []);
      assert DrainsTo(next, d, []) && ys == MapIndexed(transform, [], c);
    } else {
      var x := next(d).0.value;
      DrainsToStep(sel, (d, c), ys);
      assert sel((d, c)).1 == (next(d).1, c + 1);
      DrainsToStep(sel, (next(d).1, c + 1), ys[1..]);
      SelectInternalDrainsOnlyIf(next, transform, next(d).1, c + 1, ys[1..]);
      var rest :| DrainsTo(next, next(d).1, rest) && ys[1..] == MapIndexed(transform, rest, c + 1);
      DrainsToStep(next, d, [x] + rest);
      assert ([x] + rest)[1..] == rest;
      assert ys == [ys[0]] + ys[1..];
      assert DrainsTo(next, d, [x] + rest) && ys == MapIndexed(transform, [x] + rest, c);
    }
  }

  /** `Select(transform)` drains to the source's elements each mapped by `transform`. */
  lemma SelectDrains<R(!new), A(!new), U>(next: NextFn<R, A>, transform: R -> U, d: A, xs: seq<R>)
    requires DrainsTo(next, d, xs)
    ensures DrainsTo(SelectStep(next, IgnoreIndex(transform)), (d, 0), Map(transform, xs))
  {
    SelectInternalDrains(next, IgnoreIndex(transform), d, 0, xs);
  }

  /** `SelectInternal(transform)`: an index-aware map over a copy of `e`. */
  method SelectInternal<R, A(!new), U>(e: Enumerator<R, A>, transform: (R, int) -> U) returns (s: Enumerator<U, (A, int)>)
    ensures fresh(s) && s.nextObject == SelectStep(e.nextObject, transform) && s.data == (e.data, 0)
    ensures forall xs :: DrainsTo(e.nextObject, e.data, xs) ==>
      DrainsTo(s.nextObject, s.data, MapIndexed(transform, xs, 0))
  {
    s := new Enumerator(SelectStep(e.nextObject, transform), (e.data, 0));
    forall xs | DrainsTo(e.nextObject, e.data, xs)
      ensures DrainsTo(s.nextObject, s.data, MapIndexed(transform, xs, 0))
    {
      SelectInternalDrains(e.nextObject, transform, e.data, 0, xs);
    }
  }

  /** `Select(transform)`: `SelectInternal` with a transform that ignores the index. */
  method Select<R(!new), A(!new), U>(e: Enumerator<R, A>, transform: R -> U) returns (s: Enumerator<U, (A, int)>)
    ensures fresh(s) && s.nextObject == SelectStep(e.nextObject, IgnoreIndex(transform)) && s.data == (e.data, 0)
    ensures forall xs :: DrainsTo(e.nextObject, e.data, xs) ==> DrainsTo(s.nextObject, s.data, Map(transform, xs))
  {
    s := SelectInternal(e, IgnoreIndex(transform));
    forall xs | DrainsTo(e.nextObject, e.data, xs)
      ensures DrainsTo(s.nextObject, s.data, Map(transform, xs))
    {
      SelectDrains(e.nextObject, transform, e.data, xs);
    }
  }

  /**
    The derived cursor advances independently: pulling from `Select`'s result
    leaves the source enumerator where it was, so it still drains from its
    first element.
   */
  method SelectAdvancesIndependently<T(!new), U>(source: seq<T>, transform: T -> U) returns (first: Pull<U>, original: seq<T>)
    ensures first == if source == [] then End else Elem(transform(source[0]))
    ensures original == source
  {
    var e := From.Container(source);
    var s := Select(e, transform);
    first := s.NextObject();
    original := Drain(e, source);
  }

  /** Mapping `x * 2` over `{ 1, 2, 3, 4 }` yields `{ 2, 4, 6, 8 }`. */
  method SelectMultiply2() returns (out: seq<int>)
    ensures out == [2, 4, 6, 8]
  {
    var src := new int[] [1, 2, 3, 4];
    var rng := From.Array(src);
    var dst := Select(rng, (a: int) => a * 2);
    assert src[..] == [1, 2, 3, 4];
    assert Map((a: int) => a * 2, src[..]) == [2, 4, 6, 8];
    out := Drain(dst, [2, 4, 6, 8]);
  }
}
