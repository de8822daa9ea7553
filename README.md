# CppLinq lazy-sequence engine in Dafny

This project models the core of CppLinq, a pull-based lazy-sequence library.
The core lives in `Sources/CppLinq.h` and has three parts:

- **The enumerator** (module `Enumerators`). An `Enumerator` is a single-pass cursor. It
  owns a step function and a piece of state. Each `NextObject` call runs the step on
  that state in place. The C++ code signals the end of the sequence by throwing
  `EnumeratorEndException`. Here a step returns a `Pull`: `Elem(x)` or `End`.
  The class keeps the C++ shape. The state is a mutable field, and `NextObject` has a
  `modifies this` clause. The step function becomes a `const` field, because nothing in
  the header reassigns `m_nextObject` after construction.
- **The `From` adapters** (module `From`). They build an enumerator over
  - an iterator pair,
  - a start iterator plus a length,
  - a C array,
  - a container.

  An iterator is an offset into `memory`, the region of data it walks. A step function is a
  partial function (`-->`). Its precondition is what the C++ dereference needs: a read
  only inside `memory`.
- **The index-aware map** (module `LinqObject`). `SelectInternal` copies the current
  enumerator's state and pairs it with a counter that starts at 0. Each pull takes one
  element `x` from the copy and yields `transform(x, counter)`. `Select` is
  `SelectInternal` with a transform that ignores the index. The C++ `LinqObject` holds only its
  enumerator, and its builders are `const`. So here `Select` and `SelectInternal` are
  methods that read an enumerator and return a fresh one.

The abstract meaning of a cursor is stated by ghost functions over its step function:

- `Pulls(next, d, n)` gives the outcomes of `n` successive pulls.
- `StateAfter(next, d, n)` gives the state those pulls leave behind.
- `DrainsTo(next, d, xs)` says the cursor yields the elements of `xs` in order and then
  `End`. This is the shape the test helper `IsEqualArray` checks.

Where this model follows the code rather than the intuitive contract:

- `From(begin, length)` increments its counter on the call that signals the end as well.
  After exhaustion the counter is `length + 1`, which never equals `length` again. So a
  further call reads the element after the counted range instead of signalling the end
  again. The model does the same (`CountedAfterEnd`). A call is refused only when the read
  would leave the data.
- `From(begin, end)` tests for the end before incrementing. Once exhausted, it stays
  exhausted (`IteratorStaysEnded`).
- As written, the header does not declare `value_type` in `Enumerator`, which
  `LinqObject` uses. It also gives `LinqObject` no constructor from an `Enumerator`,
  which the `From` overloads' return statements rely on. The model takes the evident
  intent: `From` yields the enumerator that the query object wraps.

## Model

| member | source | states |
|---|---|---|
| `Enumerators.Enumerator.constructor` | Sources/CppLinq.h:17-21 | the new enumerator holds exactly the given step function and initial state |
| `Enumerators.Enumerator.NextObject` | Sources/CppLinq.h:23-26 | the result and the new stored state are the stored step applied to the old state, i.e. the first of `Pulls` and `StateAfter(…, 1)`; allowed only where the step may run |
| `Enumerators.PullsSplit` | Sources/CppLinq.h:23-30 | state changes persist across calls: pulling m times and then n times from the state left behind is pulling m + n times (same outcomes, same final state, and allowed exactly when the second part is) |
| `Enumerators.DrainsToStep` | Sources/TestUtils.h:15-22 | a cursor drains to `xs` if and only if its first pull is allowed and either is `End` (for empty `xs`) or yields `xs[0]` and leaves a cursor that drains to the rest |
| `Enumerators.DrainsToUnique` | Sources/TestUtils.h:15-22 | a cursor drains to at most one sequence, so "N expected elements, then the end signal" determines the whole output |
| `Enumerators.Drain` | Sources/CppLinq.h:33-49 | writing an enumerator out advances a by-value copy until `End` and outputs exactly the sequence the enumerator drains to; the caller's enumerator is not modified |
| `From.IteratorStep` | Sources/CppLinq.h:102-105 | the step of `From(begin, end)`: every read inside the data is allowed; it signals `End` exactly when the iterator equals `end`, and then leaves the iterator where it is (the test comes before any increment); otherwise it yields `*iter` and advances the iterator by one |
| `From.CountedStep` | Sources/CppLinq.h:111-114 | the step of `From(begin, length)`: the counter is post-incremented on every call, the one that signals `End` included; `End` comes exactly when the counter equals `length`, whatever the data's bounds; the iterator advances only when an element is read, and that element is `*iter` |
| `From.IteratorRange` | Sources/CppLinq.h:99-106 | `From(begin, end)` is a fresh enumerator at `begin` with the iterator step; when `begin <= end` inside the data it drains to exactly `memory[begin..end]` |
| `From.IteratorPulls` | Sources/CppLinq.h:99-106 | from position `iter`, the first `end - iter` pulls yield `memory[iter..end]` in order, one per call, and every one of the following `k` pulls is `End`, leaving the iterator at `end` |
| `From.IteratorDrains` | Sources/CppLinq.h:99-106 | `From(begin, end)` drains to exactly the source range `memory[begin..end]` followed by `End` |
| `From.IteratorStaysEnded` | Sources/CppLinq.h:104 | once the iterator equals `end`, every further pull is `End` and the iterator stays at `end` |
| `From.IteratorPastEndReadsOn` | Sources/CppLinq.h:104 | an iterator already past `end` never signals the end: while it stays inside the data, each pull yields the next element |
| `From.Counted` | Sources/CppLinq.h:108-115 | `From(begin, length)` is a fresh enumerator with state `(begin, 0)`; when `0 <= length` and `begin + length` is inside the data it drains to exactly the `length` elements from `begin` |
| `From.CountedPulls` | Sources/CppLinq.h:111-114 | from counter `c <= length`, the cursor yields the next `length - c` elements in order and then `End`, leaving the counter at `length + 1` |
| `From.CountedDrains` | Sources/CppLinq.h:108-115 | `From(begin, length)` yields exactly `length` elements, `memory[begin..begin + length]`, then `End`; the stop depends only on the counter |
| `From.CountedPastLengthReadsOn` | Sources/CppLinq.h:113 | while the counter is past `length` (after exhaustion, or from the start for a negative length) no pull signals the end; each pull inside the data yields the next element |
| `From.CountedAfterEnd` | Sources/CppLinq.h:113 | after its `length` elements and `End`, `From(begin, length)` does not stay exhausted: the next `k` pulls yield the `k` elements following the counted range |
| `From.Array` | Sources/CppLinq.h:117-122 | `From(array)` equals `From(array, array + N)` and drains to exactly the array's N elements in order |
| `From.Container` | Sources/CppLinq.h:124-129 | `From(container)` equals `From(begin(container), end(container))` and drains to exactly the container's elements in order |
| `LinqObject.SelectStep` | Sources/CppLinq.h:69-72 | the step of `SelectInternal`: allowed whenever the copied source may be pulled; pulls that copy exactly once; passes `End` through, with the counter left as it was because the model runs the inner pull before the post-increment (one of the two orders C++ allows; see "## Left out"); turns an element `x` into `transform(x, counter)` and then advances the counter by one |
| `LinqObject.IgnoreIndex` | Sources/CppLinq.h:88 | the transform `Select` hands to `SelectInternal` ignores the index: its value at `(x, i)` is `transform(x)` for every `i`, so the index-aware map with it is the plain map of the transform, whatever the starting counter |
| `LinqObject.MapIndexed` | Sources/CppLinq.h:69-72 | the index-aware map of `xs` with counter start `c` has the length of `xs`, and its k-th value is `transform(xs[k], c + k)` |
| `LinqObject.SelectTracksSource` | Sources/CppLinq.h:69-72 | over any number of pulls the derived cursor is allowed whenever the source is, its copy of the source advances in lock-step with the source, and it yields `End` exactly at the positions where the source does |
| `LinqObject.SelectInternalDrains` | Sources/CppLinq.h:66-73 | if the source drains to `xs`, `SelectInternal(transform)` drains to the sequence whose k-th value is `transform(xs[k], k)`, of the same length, then `End` |
| `LinqObject.SelectInternalDrainsOnlyIf` | Sources/CppLinq.h:66-73 | conversely, whatever `SelectInternal` drains to is the index-aware map of something the source drains to, of the same length |
| `LinqObject.SelectInternal` | Sources/CppLinq.h:66-73 | returns a fresh enumerator whose state is a copy of the source's state paired with counter 0; it drains to the index-aware map of whatever the source drains to |
| `LinqObject.SelectDrains` | Sources/CppLinq.h:85-89 | `Select(f)` ignores the index: if the source drains to `xs`, it drains to `[f(x) for x in xs]` |
| `LinqObject.Select` | Sources/CppLinq.h:85-95 | returns a fresh enumerator over a copy of the source's state; it drains to the source's elements each mapped by the transform |
| `LinqObject.SelectAdvancesIndependently` | Sources/CppLinq.h:86-88 | pulling from `Select`'s result yields the mapped first element while the original enumerator stays put and still drains to the whole source |
| `LinqObject.SelectMultiply2` | Sources/SelectTest.cpp:5-12 | `From({1, 2, 3, 4}).Select(a * 2)` drains to `{2, 4, 6, 8}`, the `ans` array the test declares; the C++ test never compares `dst` with `ans`, so the model proves the output the test only states |

## Left out

- `operator<<` writes to a `std::ostream`. `Drain` returns the written elements as a sequence instead. The `' '` separators and the stream are not modelled.
- Exceptions as control flow are replaced by the `Pull` result. Stack unwinding is not modelled.
- `LinqObject.SelectInternal`: the transform is modelled as a total, pure Dafny function. In C++ it is any `std::function` and may have side effects or throw. A transform that throws `EnumeratorEndException` would end the `Select` cursor early, after the inner cursor has already advanced. A transform that throws anything else, or that changes captured state, is not modelled either. So the map and same-length promises of `SelectInternal`, `Select`, `SelectInternalDrains`, `SelectInternalDrainsOnlyIf` and `SelectDrains` assume that every call of the transform returns normally.
- `GetReturnType` and the `decltype` return types are compile-time type deduction only. They become explicit type parameters.
- The counters of `From(begin, length)` and `SelectInternal` are C++ `int`s. The model uses unbounded integers, so 32-bit overflow after 2^31 pulls is not modelled.
- `From.Array` and `From.Container` take a snapshot of the elements when the enumerator is built. The C++ enumerators keep a pointer into the array, or `std::begin`/`std::end` iterators into the caller's live container, so later writes to the source would be seen. Aliasing with a mutable source is not modelled.
- `LinqObject.SelectStep` and `LinqObject.IgnoreIndex` state their contracts by quantifying over cursor states and elements. Dafny allows that in a function only for types that hold no heap references, so the `Select` members require the source's state type (and, for `Select`, its element type) to be such a type (`(!new)`). The cursors built by `From` satisfy this whenever their elements do.
- Dafny knows only one direction of a lambda's precondition: the precondition implies `f.requires`. So the model proves that every read inside the data is allowed. It cannot state that a read outside the data is refused. The "reads past the data" cases are therefore stated positively, as pulls that yield data and never `End` (`IteratorPastEndReadsOn`, `CountedPastLengthReadsOn`, `CountedAfterEnd`).
- `LinqObject.SelectInternalDrainsOnlyIf`: assumes the source may be pulled as many times as the derived cursor, for the reason given in the previous line.
- `LinqObject.SelectStep`: C++ leaves unspecified whether `pair.second++` runs before the inner `NextObject()` throws. The model fixes one of the permitted orders: the inner pull runs first. So the counter advances only when an element is produced and stays as it was on `End`, which `SelectStep` states. The other order would advance the counter on `End` as well. It is not modelled, and neither is the index a transform then sees when a `Select` over `From(begin, length)` reads on past `End`.
- The other operators the tests call (Where, Take, Skip, SkipWhile, Concat, OrderBy, Distinct, Reverse, Any, All, Contains, ElementAt, Min, Sum, Count, Average, ToSet, ToVector, ToList, ToDeque, Foreach, LeftJoin) are not defined in `Sources/CppLinq.h`. They are not part of this model.
- The gtest test files are not modelled. Only the drain shape of `IsEqualArray` (N equal elements, then the end exception) and the `Select` test's declared but uncompared expected output appear, as `DrainsTo` and `SelectMultiply2`.
