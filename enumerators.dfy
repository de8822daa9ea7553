/**
  The cursor at the heart of the lazy-sequence engine: an `Enumerator` owns a
  step function and a piece of mutable state, and each `NextObject` call runs
  the step on that state in place. The end of the sequence, which the C++
  library signals by throwing `EnumeratorEndException`, is the `End` outcome.
 */
module Enumerators {

  /** The outcome of one pull: the next element, or the end-of-sequence signal. */
  datatype Pull<T> = Elem(value: T) | End

  /**
    A step function: given the cursor state it returns the outcome and the new
    state. It is partial: its `requires` is what the step needs in order not to
    read outside the underlying data.
   */
  type NextFn<R, !A> = A --> (Pull<R>, A)

  /** A single-pass cursor: a fixed step function and the state it updates. */
  class Enumerator<R, A> {
    const nextObject: NextFn<R, A>
    var data: A

    constructor (nextObject: NextFn<R, A>, data: A)
      ensures this.nextObject == nextObject && this.data == data
    {
      this.nextObject := nextObject;
      this.data := data;
    }

    /** Runs the step on the stored state; the new state replaces the old one. */
    method NextObject() returns (r: Pull<R>)
      requires nextObject.requires(data)
      modifies this
      ensures (r, data) == nextObject(old(data))
      ensures Pulls(nextObject, old(data), 1) == [r] && data == StateAfter(nextObject, old(data), 1)
    {
      var step := nextObject(data);
      r := step.0;
      data := step.1;
    }
  }

  /** Whether `n` successive pulls starting from state `d` are all permitted. */
  ghost predicate CanPull<R, A>(next: NextFn<R, A>, d: A, n: nat)
    decreases n
  {
    n == 0 || (next.requires(d) && CanPull(next, next(d).1, n - 1))
  }

  /** The outcomes of `n` successive pulls starting from state `d`. */
  ghost function Pulls<R, A>(next: NextFn<R, A>, d: A, n: nat): (ps: seq<Pull<R>>)
    requires CanPull(next, d, n)
    ensures |ps| == n
    decreases n
  {
    if n == 0 then [] else [next(d).0] + Pulls(next, next(d).1, n - 1)
  }

  /** The state left behind by `n` successive pulls starting from state `d`. */
  ghost function StateAfter<R, A>(next: NextFn<R, A>, d: A, n: nat): A
    requires CanPull(next, d, n)
    decreases n
  {
    if n == 0 then d else StateAfter(next, next(d).1, n - 1)
  }

  function Elems<T>(xs: seq<T>): seq<Pull<T>>
  {
    seq(|xs|, k requires 0 <= k < |xs| => Elem(xs[k]))
  }

  function Ends<T>(n: nat): seq<Pull<T>>
  {
    seq(n, k => End)
  }

  /**
    A cursor in state `d` drains to `xs`: it yields the elements of `xs` in
    order, one per pull, and then signals the end.
   */
  ghost predicate DrainsTo<R, A>(next: NextFn<R, A>, d: A, xs: seq<R>)
  {
    CanPull(next, d, |xs| + 1) && Pulls(next, d, |xs| + 1) == Elems(xs) + [End]
  }

  lemma ElemsCons<T>(xs: seq<T>)
    requires xs != []
    ensures Elems(xs) == [Elem(xs[0])] + Elems(xs[1..])
  {
    assert Elems(xs)[1..] == Elems(xs[1..]);
  }

  /** Pulling `m` and then `n` times is pulling `m + n` times. */
  lemma {:induction false} PullsSplit<R, A>(next: NextFn<R, A>, d: A, m: nat, n: nat)
    requires CanPull(next, d, m)
    ensures CanPull(next, d, m + n) <==> CanPull(next, StateAfter(next, d, m), n)
    ensures CanPull(next, d, m + n) ==>
      && Pulls(next, d, m + n) == Pulls(next, d, m) + Pulls(next, StateAfter(next, d, m), n)
      && StateAfter(next, d, m + n) == StateAfter(next, StateAfter(next, d, m), n)
    decreases m
  {
    if m > 0 {
      PullsSplit(next, next(d).1, m - 1, n);
      if CanPull(next, d, m + n) {
        assert Pulls(next, d, m + n)
            == [next(d).0] + Pulls(next, next(d).1, m - 1 + n)
            == [next(d).0] + (Pulls(next, next(d).1, m - 1) + Pulls(next, StateAfter(next, d, m), n));
      }
    }
  }

  /** The first pull of a draining cursor: an element and a shorter drain, or the end. */
  lemma DrainsToStep<R, A>(next: NextFn<R, A>, d: A, xs: seq<R>)
    ensures DrainsTo(next, d, xs) <==>
      && next.requires(d)
      && if xs == [] then next(d).0 == End
         else next(d).0 == Elem(xs[0]) && DrainsTo(next, next(d).1, xs[1..])
  {
    if next.requires(d) && CanPull(next, next(d).1, |xs|) {
      var rest := Pulls(next, next(d).1, |xs|);
      assert Pulls(next, d, |xs| + 1) == [next(d).0] + rest;
      if xs != [] {
        var tail := Elems(xs[1..]) + [End];
        ElemsCons(xs);
        assert Elems(xs) + [End] == [Elem(xs[0])] + tail;
        assert |xs[1..]| + 1 == |xs|;
        if [next(d).0] + rest == [Elem(xs[0])] + tail {
          assert next(d).0 == ([next(d).0] + rest)[0] == Elem(xs[0]);
          assert rest == ([next(d).0] + rest)[1..] == ([Elem(xs[0])] + tail)[1..] == tail;
          assert DrainsTo(next, next(d).1, xs[1..]);
        }
        if next(d).0 == Elem(xs[0]) && DrainsTo(next, next(d).1, xs[1..]) {
          assert rest == tail;
        }
      } else {
        assert Elems(xs) + [End] == [End];
        assert [next(d).0] + rest == [next(d).0];
        assert [next(d).0] == [End] <==> next(d).0 == End;
      }
    }
  }

  /** A cursor drains to at most one sequence. */
  lemma {:induction false} DrainsToUnique<R, A>(next: NextFn<R, A>, d: A, xs: seq<R>, ys: seq<R>)
    requires DrainsTo(next, d, xs) && DrainsTo(next, d, ys)
    ensures xs == ys
    decreases |xs|
  {
    DrainsToStep(next, d, xs);
    DrainsToStep(next, d, ys);
    if xs != [] && ys != [] {
      DrainsToUnique(next, next(d).1, xs[1..], ys[1..]);
      assert xs == [xs[0]] + xs[1..];
      assert ys == [ys[0]] + ys[1..];
    }
  }

  /**
    Writing an enumerator to a stream: a by-value copy is advanced until it
    signals the end, and every element is written out. The stream is the
    returned sequence; the caller's enumerator is left where it was.
   */
  method Drain<R, A>(e: Enumerator<R, A>, ghost xs: seq<R>) returns (out: seq<R>)
    requires DrainsTo(e.nextObject, e.data, xs)
    ensures out == xs
  {
    var copy := new Enumerator(e.nextObject, e.data);
    out := [];
    while true
      invariant copy.nextObject == e.nextObject
      invariant |out| <= |xs| && out == xs[..|out|]
      invariant DrainsTo(copy.nextObject, copy.data, xs[|out|..])
      decreases |xs| - |out|
    {
      DrainsToStep(copy.nextObject, copy.data, xs[|out|..]);
      var r := copy.NextObject();
      match r
      case End =>
        return;
      case Elem(x) =>
        assert xs[|out|..][1..] == xs[|out| + 1..];
        out := out + [x];
    }
  }
}
