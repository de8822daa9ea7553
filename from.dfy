/**
  The `From` adapters: each builds an `Enumerator` over existing data. An
  iterator is an offset into `memory`, the region the iterator walks; reading
  `*iter` is allowed only inside that region, which is what each step
  function's `requires` says.
 */
module From {
  import opened Enumerators

  /** Step of `From(begin, end)`: stop when the iterator reaches `end`, else yield `*iter++`. */
  function IteratorStep<T>(memory: seq<T>, end: int): (step: NextFn<T, int>)
    ensures forall iter {:trigger step.requires(iter)} {:trigger step(iter)} :: iter == end || 0 <= iter < |memory| ==>
      && step.requires(iter)
      && (step(iter).0.End? <==> iter == end)
      && (iter == end ==> step(iter).1 == iter)
      && (iter != end ==> step(iter) == (Elem(memory[iter]), iter + 1))
  {
    (iter: int) requires iter == end || 0 <= iter < |memory| =>
      if iter == end then (End, iter) else (Elem(memory[iter]), iter + 1)
  }

  /**
    Step of `From(begin, length)`: the counter is post-incremented on every
    call, the one that signals the end included; the iterator only when an
    element is read.
   */
  function CountedStep<T>(memory: seq<T>, length: int): (step: NextFn<T, (int, int)>)
    ensures forall p: (int, int) {:trigger step.requires(p)} {:trigger step(p)} :: p.1 == length || 0 <= p.0 < |memory| ==>
      && step.requires(p)
      && step(p).1.1 == p.1 + 1
      && (step(p).0.End? <==> p.1 == length)
      && (p.1 == length ==> step(p).1.0 == p.0)
      && (p.1 != length ==> step(p).0 == Elem(memory[p.0]) && step(p).1.0 == p.0 + 1)
  {
    (p: (int, int)) requires p.1 == length || 0 <= p.0 < |memory| =>
      if p.1 == length then (End, (p.0, p.1 + 1)) else (Elem(memory[p.0]), (p.0 + 1, p.1 + 1))
  }

  /** `From(begin, end)` over the iterator pair `begin`, `end`. */
  method IteratorRange<T>(memory: seq<T>, begin: nat, end: nat) returns (e: Enumerator<T, int>)
    ensures fresh(e) && e.nextObject == IteratorStep(memory, end) && e.data == begin
    ensures begin <= end <= |memory| ==> DrainsTo(e.nextObject, e.data, memory[begin..end])
  {
    e := new Enumerator(IteratorStep(memory, end), begin);
    if begin <= end <= |memory| {
      IteratorDrains(memory, begin, end);
    }
  }

  /** `From(begin, length)` over a start iterator and an element count. */
  method Counted<T>(memory: seq<T>, begin: nat, length: int) returns (e: Enumerator<T, (int, int)>)
    ensures fresh(e) && e.nextObject == CountedStep(memory, length) && e.data == (begin, 0)
    ensures 0 <= length && begin + length <= |memory| ==>
      DrainsTo(e.nextObject, e.data, memory[begin..begin + length])
  {
    e := new Enumerator(CountedStep(memory, length), (begin, 0));
    if 0 <= length && begin + length <= |memory| {
      CountedDrains(memory, begin, length);
    }
  }

  /** `From(array)`: the same as `From(array, array + N)` for an array of N elements. */
  method Array<T>(a: array<T>) returns (e: Enumerator<T, int>)
    ensures fresh(e) && e.nextObject == IteratorStep(a[..], a.Length) && e.data == 0
    ensures DrainsTo(e.nextObject, e.data, a[..])
  {
    e := IteratorRange(a[..], 0, a.Length);
    assert a[..][0..a.Length] == a[..];
  }

  /** `From(container)`: the same as `From(std::begin(container), std::end(container))`. */
  method Container<T>(c: seq<T>) returns (e: Enumerator<T, int>)
    ensures fresh(e) && e.nextObject == IteratorStep(c, |c|) && e.data == 0
    ensures DrainsTo(e.nextObject, e.data, c)
  {
    e := IteratorRange(c, 0, |c|);
    assert c[0..|c|] == c;
  }

  /** Once the iterator has reached `end`, every further pull signals the end and leaves it there. */
  lemma {:induction false} IteratorStaysEnded<T>(memory: seq<T>, end: nat, k: nat)
    ensures CanPull(IteratorStep(memory, end), end, k)
    ensures Pulls(IteratorStep(memory, end), end, k) == Ends(k)
    ensures StateAfter(IteratorStep(memory, end), end, k) == end
  {
    var step := IteratorStep(memory, end);
    if k > 0 {
      assert step(end) == (End, end);
      IteratorStaysEnded(memory, end, k - 1);
      assert Ends<T>(k) == [End] + Ends(k - 1);
    }
  }

  /**
    From iterator position `iter`, the first `end - iter` pulls yield the
    elements between `iter` and `end` in order, and the `k` pulls after them
    all signal the end.
   */
  lemma {:induction false} IteratorPulls<T>(memory: seq<T>, iter: nat, end: nat, k: nat)
    requires iter <= end <= |memory|
    ensures CanPull(IteratorStep(memory, end), iter, end - iter + k)
    ensures Pulls(IteratorStep(memory, end), iter, end - iter + k) == Elems(memory[iter..end]) + Ends(k)
    ensures StateAfter(IteratorStep(memory, end), iter, end - iter + k) == end
    decreases end - iter
  {
    var step := IteratorStep(memory, end);
    if iter == end {
      IteratorStaysEnded(memory, end, k);
      assert Elems(memory[iter..end]) == [];
    } else {
      assert step(iter) == (Elem(memory[iter]), iter + 1);
      IteratorPulls(memory, iter + 1, end, k);
      ElemsCons(memory[iter..end]);
      assert memory[iter..end][1..] == memory[iter + 1..end];
    }
  }

  /** `From(begin, end)` drains to exactly the elements from `begin` to `end`, in order. */
  lemma IteratorDrains<T>(memory: seq<T>, begin: nat, end: nat)
    requires begin <= end <= |memory|
    ensures DrainsTo(IteratorStep(memory, end), begin, memory[begin..end])
  {
    IteratorPulls(memory, begin, end, 1);
    assert Ends<T>(1) == [End];
  }

  /**
    An iterator already past `end` never reaches it: as long as it stays inside
    the data, every pull yields the next element and none signals the end.
   */
  lemma {:induction false} IteratorPastEndReadsOn<T>(memory: seq<T>, iter: nat, end: nat, k: nat)
    requires end < iter && iter + k <= |memory|
    ensures CanPull(IteratorStep(memory, end), iter, k)
    ensures Pulls(IteratorStep(memory, end), iter, k) == Elems(memory[iter..iter + k])
    decreases k
  {
    var step := IteratorStep(memory, end);
    if k > 0 {
      assert step(iter) == (Elem(memory[iter]), iter + 1);
      IteratorPastEndReadsOn(memory, iter + 1, end, k - 1);
      ElemsCons(memory[iter..iter + k]);
      assert memory[iter..iter + k][1..] == memory[iter + 1..iter + 1 + (k - 1)];
    } else {
      assert Elems(memory[iter..iter]) == [];
    }
  }

  /**
    From counter value `c` (at most `length`) and iterator `p`, the cursor
    yields the next `length - c` elements and then signals the end, leaving
    the counter at `length + 1`.
   */
  lemma {:induction false} CountedPulls<T>(memory: seq<T>, p: nat, c: int, length: int)
    requires c <= length && p + (length - c) <= |memory|
    ensures CanPull(CountedStep(memory, length), (p, c), length - c + 1)
    ensures Pulls(CountedStep(memory, length), (p, c), length - c + 1)
         == Elems(memory[p..p + (length - c)]) + [End]
    ensures StateAfter(CountedStep(memory, length), (p, c), length - c + 1) == (p + (length - c), length + 1)
    decreases length - c
  {
    var step := CountedStep(memory, length);
    if c == length {
      assert step((p, c)) == (End, (p, c + 1));
      assert Elems(memory[p..p]) == [];
    } else {
      assert step((p, c)) == (Elem(memory[p]), (p + 1, c + 1));
      CountedPulls(memory, p + 1, c + 1, length);
      ElemsCons(memory[p..p + (length - c)]);
      assert memory[p..p + (length - c)][1..] == memory[p + 1..p + 1 + (length - (c + 1))];
    }
  }

  /** `From(begin, length)` drains to exactly the `length` elements from `begin`, in order. */
  lemma CountedDrains<T>(memory: seq<T>, begin: nat, length: int)
    requires 0 <= length && begin + length <= |memory|
    ensures DrainsTo(CountedStep(memory, length), (begin, 0), memory[begin..begin + length])
  {
    CountedPulls(memory, begin, 0, length);
  }

  /**
    While the counter is past `length` the cursor never signals the end: as
    long as the iterator stays inside the data, every pull yields the next
    element. This is the state after exhaustion (counter `length + 1`), and
    the state from the start when `length` is negative.
   */
  lemma {:induction false} CountedPastLengthReadsOn<T>(memory: seq<T>, p: nat, c: int, length: int, k: nat)
    requires c > length && p + k <= |memory|
    ensures CanPull(CountedStep(memory, length), (p, c), k)
    ensures Pulls(CountedStep(memory, length), (p, c), k) == Elems(memory[p..p + k])
    decreases k
  {
    var step := CountedStep(memory, length);
    if k > 0 {
      assert step((p, c)) == (Elem(memory[p]), (p + 1, c + 1));
      CountedPastLengthReadsOn(memory, p + 1, c + 1, length, k - 1);
      ElemsCons(memory[p..p + k]);
      assert memory[p..p + k][1..] == memory[p + 1..p + 1 + (k - 1)];
    } else {
      assert Elems(memory[p..p]) == [];
    }
  }

  /**
    `From(begin, length)` does not stay exhausted: after the `length`
    elements and the end signal, the next `k` pulls yield the `k` elements
    that follow the counted range, as far as the data reaches.
   */
  lemma CountedAfterEnd<T>(memory: seq<T>, begin: nat, length: int, k: nat)
    requires 0 <= length && begin + length + k <= |memory|
    ensures CanPull(CountedStep(memory, length), (begin, 0), length + 1 + k)
    ensures Pulls(CountedStep(memory, length), (begin, 0), length + 1 + k)
         == Elems(memory[begin..begin + length]) + [End] + Elems(memory[begin + length..begin + length + k])
  {
    var step := CountedStep(memory, length);
    CountedPulls(memory, begin, 0, length);
    CountedPastLengthReadsOn(memory, begin + length, length + 1, length, k);
    PullsSplit(step, (begin, 0), length + 1, k);
  }
}
