/**
 * Index-set algebra of a distributed view.
 *
 * An index set maps an image index (a position in a view's own 0-based
 * iteration space) to an index of its domain, the index set of the view it
 * was derived from. Three kinds exist:
 *   - Identity: the iteration space of the data-owning origin itself;
 *   - Sub:      a contiguous range [begin, end) of its domain;
 *   - Local:    the elements of its domain owned by the calling unit.
 * A view is represented by its index set, so `dash::index(view)` is the
 * identity here and `domain()` is the index set one link down the chain.
 */
module IndexSets {

  /** The distribution pattern of the origin, used read-only: `at` maps a
      global index to the calling unit's local offset, `global` maps a local
      offset back to a global index, `localSize` is the unit's element count. */
  datatype Pattern = Pattern(at: int -> int, global: int -> int, localSize: nat)

  /** The assumption a caller gives when it needs `global` to invert `at`
      on the unit's local offsets. */
  ghost predicate ConsistentLocal(p: Pattern)
  {
    forall l :: 0 <= l < p.localSize ==> p.at(p.global(l)) == l
  }

  datatype IndexSet =
    | Identity(pattern: Pattern, domainSize: nat)
    | Sub(domain: IndexSet, begin: int, end: int)
    | Local(domain: IndexSet)

  /** The origin's index set, reached by following domain links. */
  function Origin(s: IndexSet): (o: IndexSet)
    ensures o.Identity?
    ensures s.Identity? ==> o == s
    ensures !s.Identity? ==> o == Origin(Domain(s))
  {
    match s
    case Identity(_, _) => s
    case Sub(d, _, _) => Origin(d)
    case Local(d) => Origin(d)
  }

  /** `pattern()`: the pattern captured at construction from the origin, so
      every set of one chain answers with the origin's pattern. */
  function PatternOf(s: IndexSet): (p: Pattern)
    ensures p == Origin(s).pattern
  {
    match s
    case Identity(p, _) => p
    case Sub(d, _, _) => PatternOf(d)
    case Local(d) => PatternOf(d)
  }

  /** `domain()`: the parent index set; the origin's Identity is its own
      domain, so only an Identity is a fixed point. */
  function Domain(s: IndexSet): (r: IndexSet)
    ensures r == s <==> s.Identity?
    ensures !s.Identity? ==> r < s
  {
    match s
    case Identity(_, _) => s
    case Sub(d, _, _) => d
    case Local(d) => d
  }

  /** What the source's callers must ensure of a range: it is not reversed
      and does not start below zero. */
  predicate Valid(s: IndexSet)
  {
    match s
    case Identity(_, _) => true
    case Sub(d, b, e) => Valid(d) && 0 <= b <= e
    case Local(d) => Valid(d)
  }

  /** `size()`: the domain's size for Identity, `end - begin` for a range,
      and for a local set the pattern's local size, whatever its domain. */
  function Size(s: IndexSet): (n: int)
    ensures Valid(s) ==> n >= 0
    ensures s.Identity? ==> n == s.domainSize
    ensures s.Sub? ==> n == s.end - s.begin
    ensures s.Local? ==> n == Origin(s).pattern.localSize
  {
    match s
    case Identity(_, n) => n
    case Sub(_, b, e) => e - b
    case Local(_) => PatternOf(s).localSize
  }

  /** A set whose `operator[]` can be evaluated: at a Local link it reads
      `domain()[0]`, so that domain must be non-empty and readable too. */
  predicate Readable(s: IndexSet)
  {
    Valid(s) &&
    match s
    case Identity(_, _) => true
    case Sub(_, _, _) => true
    case Local(d) => 0 < Size(d) && Readable(d)
  }

  /** `operator[]`: the domain index an image index maps to. Identity maps
      `i` to `i`, Sub to `begin + i` (relative to its domain), Local to
      `global(at(domain[0]) + li)`. */
  function At(s: IndexSet, i: int): (r: int)
    requires Readable(s) && 0 <= i < Size(s)
    ensures s.Identity? ==> r == i
    ensures s.Sub? ==> s.begin <= r < s.end && r - s.begin == i
  {
    match s
    case Identity(_, _) => i
    case Sub(_, b, _) => b + i
    case Local(d) =>
      var p := PatternOf(s);
      p.global(p.at(At(d, 0)) + i)
  }

  /** The index set of the localised view, `dash::index(dash::local(view))`:
      a Local set whose domain is the view's own index set. */
  function LocalView(s: IndexSet): (r: IndexSet)
    requires Valid(s)
    ensures Valid(r) && r.Local? && Domain(r) == s
    ensures Size(r) == PatternOf(s).localSize
    ensures Readable(s) && 0 < Size(s) ==> Readable(r)
  {
    Local(s)
  }

  /** The free `local(index_set)` overloads. Identity and Local return the
      set itself; a Sub is localised only through its view, never from its
      own bounds. */
  function LocalOf(s: IndexSet): (r: IndexSet)
    requires Valid(s)
    ensures Valid(r) && !r.Sub?
    ensures PatternOf(r) == PatternOf(s)
    ensures s.Identity? || s.Local? ==> r == s
    ensures s.Sub? ==> r == LocalView(s) && Size(r) == PatternOf(s).localSize
  {
    match s
    case Identity(_, _) => s
    case Sub(_, _, _) => LocalView(s)
    case Local(_) => s
  }

  /** Localising twice is localising once. */
  lemma LocalOfIdempotent(s: IndexSet)
    requires Valid(s)
    ensures LocalOf(LocalOf(s)) == LocalOf(s)
  {
  }

  /** A Sub's local set is fixed by its view's first index alone: two ranges
      of one domain with the same `begin` localise to sets that agree at
      every local index, whatever their `end`. */
  lemma SubLocalIgnoresEnd(d: IndexSet, b: int, e1: int, e2: int, li: int)
    requires Valid(d) && 0 <= b < e1 && b < e2
    requires 0 <= li < PatternOf(d).localSize
    ensures Readable(LocalOf(Sub(d, b, e1))) && Readable(LocalOf(Sub(d, b, e2)))
    ensures At(LocalOf(Sub(d, b, e1)), li) == At(LocalOf(Sub(d, b, e2)), li)
    ensures At(LocalOf(Sub(d, b, e1)), li) == PatternOf(d).global(PatternOf(d).at(b) + li)
  {
  }

  /** Local round trip: under a consistent pattern, the local offset of a
      local set's `li`-th element is the domain start's offset plus `li`. */
  lemma LocalAtRoundTrip(s: IndexSet, li: int)
    requires Readable(s) && s.Local? && 0 <= li < Size(s)
    requires ConsistentLocal(PatternOf(s))
    requires 0 <= PatternOf(s).at(At(s.domain, 0)) + li < PatternOf(s).localSize
    ensures PatternOf(s).at(At(s, li)) == PatternOf(s).at(At(s.domain, 0)) + li
  {
  }

  // ---------------------------------------------------------------------
  // Resolution through the domain chain.

  /** The range precondition of the whole chain: every Sub lies inside its
      domain (`0 <= begin <= end <= domain.size()`), and every Local link
      has a first domain element to start from. */
  predicate Bounded(s: IndexSet)
  {
    Valid(s) &&
    match s
    case Identity(_, _) => true
    case Sub(d, _, e) => e <= Size(d) && Bounded(d)
    case Local(d) => 0 < Size(d) && Bounded(d)
  }

  lemma {:induction false} BoundedIsReadable(s: IndexSet)
    requires Bounded(s)
    ensures Readable(s)
  {
    match s
    case Identity(_, _) =>
    case Sub(_, _, _) =>
    case Local(d) =>
      BoundedIsReadable(d);
  }

  /** Resolve an image index to a global index by walking the domain chain;
      a Local set starts at the domain's first GLOBAL index. For a chain of
      ranges the result lies in the origin (`ResolveInOrigin`); a Local set
      has `localSize` positions whatever its domain, so its later positions
      may resolve past the domain, even past the origin
      (`LocalPastPartialRange`). */
  function Resolve(s: IndexSet, i: int): int
    requires Bounded(s) && 0 <= i < Size(s)
    decreases s
  {
    match s
    case Identity(_, _) => i
    case Sub(d, b, _) => Resolve(d, b + i)
    case Local(d) =>
      var p := PatternOf(s);
      p.global(p.at(Resolve(d, 0)) + i)
  }

  /** Resolving through a range is `operator[]` followed by resolving the
      resulting domain index in the domain. */
  lemma ResolveThroughSub(s: IndexSet, i: int)
    requires Bounded(s) && s.Sub? && 0 <= i < Size(s)
    ensures Readable(s) && Bounded(s.domain) && 0 <= At(s, i) < Size(s.domain)
    ensures Resolve(s, i) == Resolve(s.domain, At(s, i))
  {
  }

  /** A chain of ranges ending in the origin, with no local step. */
  predicate RangeChain(s: IndexSet)
  {
    match s
    case Identity(_, _) => true
    case Sub(d, _, _) => RangeChain(d)
    case Local(_) => false
  }

  /** The global index at which a range chain starts. */
  function Offset(s: IndexSet): int
    requires RangeChain(s)
  {
    match s
    case Identity(_, _) => 0
    case Sub(d, b, _) => Offset(d) + b
  }

  /** Whatever the nesting depth, a range chain maps image index `i` to its
      start offset plus `i`. */
  lemma {:induction false} ResolveRangeChain(s: IndexSet, i: int)
    requires Bounded(s) && RangeChain(s) && 0 <= i < Size(s)
    ensures Resolve(s, i) == Offset(s) + i
  {
    match s
    case Identity(_, _) =>
    case Sub(d, b, _) =>
      ResolveRangeChain(d, b + i);
  }

  /** A bounded range chain selects a window of the origin. */
  lemma {:induction false} RangeChainWithinOrigin(s: IndexSet)
    requires Bounded(s) && RangeChain(s)
    ensures 0 <= Offset(s) && Offset(s) + Size(s) <= Origin(s).domainSize
  {
    match s
    case Identity(_, _) =>
    case Sub(d, b, e) =>
      RangeChainWithinOrigin(d);
  }

  /** Every resolved index of a bounded range chain is an index of the origin. */
  lemma ResolveInOrigin(s: IndexSet, i: int)
    requires Bounded(s) && RangeChain(s) && 0 <= i < Size(s)
    ensures 0 <= Resolve(s, i) < Origin(s).domainSize
  {
    ResolveRangeChain(s, i);
    RangeChainWithinOrigin(s);
  }

  /** Composition law: a range of a range is element-for-element the single
      range `[b1 + b2, b1 + e2)` over the original domain. */
  lemma ComposeSubs(d: IndexSet, b1: int, e1: int, b2: int, e2: int, i: int)
    requires Bounded(Sub(Sub(d, b1, e1), b2, e2))
    requires 0 <= i < e2 - b2
    ensures Bounded(Sub(d, b1 + b2, b1 + e2))
    ensures Size(Sub(d, b1 + b2, b1 + e2)) == Size(Sub(Sub(d, b1, e1), b2, e2))
    ensures Resolve(Sub(Sub(d, b1, e1), b2, e2), i) == Resolve(Sub(d, b1 + b2, b1 + e2), i)
  {
  }

  /** The elements a view resolves to, in image order. */
  function Elements(s: IndexSet): seq<int>
    requires Bounded(s)
  {
    seq(Size(s), i requires 0 <= i < Size(s) && Bounded(s) => Resolve(s, i))
  }

  /** The elements of a range chain are the consecutive global indices
      from its offset. */
  lemma ElementsOfRangeChain(s: IndexSet)
    requires Bounded(s) && RangeChain(s)
    ensures Elements(s) == seq(Size(s), k => Offset(s) + k)
  {
    forall k | 0 <= k < Size(s)
      ensures Elements(s)[k] == Offset(s) + k
    {
      ResolveRangeChain(s, k);
    }
  }

  /** The composition law on whole views: a range of a range has the same
      elements, in the same order, as the single combined range. */
  lemma ComposeSubsElements(d: IndexSet, b1: int, e1: int, b2: int, e2: int)
    requires Bounded(Sub(Sub(d, b1, e1), b2, e2))
    ensures Bounded(Sub(d, b1 + b2, b1 + e2))
    ensures Elements(Sub(Sub(d, b1, e1), b2, e2)) == Elements(Sub(d, b1 + b2, b1 + e2))
  {
    var s := Sub(Sub(d, b1, e1), b2, e2);
    var t := Sub(d, b1 + b2, b1 + e2);
    forall k | 0 <= k < Size(s)
      ensures Elements(s)[k] == Elements(t)[k]
    {
      ComposeSubs(d, b1, e1, b2, e2, k);
    }
  }

  /** Over a 10-element origin, `[1, 4)` of `[2, 8)` yields {3, 4, 5}, as
      does `[3, 6)` directly. */
  lemma ComposeSubsExample(p: Pattern)
    ensures
      var s := Sub(Sub(Identity(p, 10), 2, 8), 1, 4);
      Bounded(s) && Elements(s) == [3, 4, 5]
    ensures
      var t := Sub(Identity(p, 10), 3, 6);
      Bounded(t) && Elements(t) == [3, 4, 5]
  {
    var o := Identity(p, 10);
    assert Bounded(o) && Size(o) == 10 && Offset(o) == 0;
    var inner := Sub(o, 2, 8);
    assert Bounded(inner) && Size(inner) == 6 && Offset(inner) == 2;
    var s := Sub(inner, 1, 4);
    assert Bounded(s) && Size(s) == 3 && Offset(s) == 3;
    var t := Sub(o, 3, 6);
    assert Bounded(t) && Size(t) == 3 && Offset(t) == 3;
    forall k | 0 <= k < 3
      ensures Resolve(s, k) == 3 + k && Resolve(t, k) == 3 + k
    {
      ResolveRangeChain(s, k);
      ResolveRangeChain(t, k);
    }
  }

  /** An empty range is valid, has no elements, and any range of the
      origin with `begin == end` is one. */
  lemma EmptySub(d: IndexSet, b: int)
    requires Bounded(d) && 0 <= b <= Size(d)
    ensures Bounded(Sub(d, b, b)) && Size(Sub(d, b, b)) == 0
    ensures Elements(Sub(d, b, b)) == []
  {
  }

  // ---------------------------------------------------------------------
  // Local sets: the code as written against the resolved definition.

  /** A local set over the origin or over one range of it: `domain[0]` is
      already global there, and `operator[]` agrees with `Resolve`. */
  lemma LocalAgreesOverShallowDomain(s: IndexSet, li: int)
    requires Bounded(s) && s.Local? && 0 <= li < Size(s)
    requires s.domain.Identity? || (s.domain.Sub? && s.domain.domain.Identity?)
    ensures Readable(s)
    ensures At(s, li) == Resolve(s, li)
  {
    BoundedIsReadable(s);
    assert At(s.domain, 0) == Resolve(s.domain, 0);
  }

  /** Over a range of a range, `operator[]` asks the pattern for the local
      offset of a domain-relative index: over a 10-element origin held by a
      single unit, the local set of `[1, 4)` of `[2, 8)` starts at global 1,
      not at the domain's first element 3. */
  lemma LocalAtOverNestedRange()
    ensures
      var p := Pattern(g => g, l => l, 10);
      var s := Local(Sub(Sub(Identity(p, 10), 2, 8), 1, 4));
      && Bounded(s) && Readable(s) && Size(s) == 10
      && At(s, 0) == 1 && Resolve(s, 0) == 3
      && Elements(s.domain)[0] == 3
  {
  }

  /** A local set over a partial range keeps the pattern's whole local
      size: over a 10-element origin held by a single unit, the local set of
      `[7, 10)` has 10 positions, and position 5 is global index 12,
      outside the range and outside the origin. */
  lemma LocalPastPartialRange()
    ensures
      var p := Pattern(g => g, l => l, 10);
      var s := Local(Sub(Identity(p, 10), 7, 10));
      && Bounded(s) && Size(s) == 10 && Size(s.domain) == 3
      && At(s, 5) == Resolve(s, 5) == 12
      && !(0 <= Resolve(s, 5) < Origin(s).domainSize)
  {
  }

  /** The intended property of a local set: under a consistent pattern,
      its `li`-th element has the local offset of the domain's first global
      element plus `li`, whatever the depth of the domain chain. */
  lemma ResolveLocalRoundTrip(s: IndexSet, li: int)
    requires Bounded(s) && s.Local? && 0 <= li < Size(s)
    requires ConsistentLocal(PatternOf(s))
    requires 0 <= PatternOf(s).at(Resolve(s.domain, 0)) + li < PatternOf(s).localSize
    ensures PatternOf(s).at(Resolve(s, li)) == PatternOf(s).at(Resolve(s.domain, 0)) + li
  {
  }

  // ---------------------------------------------------------------------
  // Iteration.

  /** `IndexSetIterator`: an index set and a position. Every operator
      returns a fresh iterator; none changes its operand. */
  datatype Iterator = Iterator(indexSet: IndexSet, pos: int)

  /** The difference of the iterators' `pos()`. */
  function Distance(first: Iterator, last: Iterator): int
  {
    last.pos - first.pos
  }

  /** `operator*`: the index set at the iterator's position. */
  function Deref(it: Iterator): (r: int)
    requires Readable(it.indexSet) && 0 <= it.pos < Size(it.indexSet)
    ensures it.indexSet.Identity? ==> r == it.pos
    ensures it.indexSet.Sub? ==> it.indexSet.begin <= r < it.indexSet.end
  {
    At(it.indexSet, it.pos)
  }

  /** `operator++(int)`: one step forward over the same index set. */
  function Next(it: Iterator): (r: Iterator)
    ensures r.indexSet == it.indexSet && Distance(it, r) == 1
  {
    Iterator(it.indexSet, it.pos + 1)
  }

  /** `operator--(int)`: one step back, undone by `++`. */
  function Prev(it: Iterator): (r: Iterator)
    ensures r.indexSet == it.indexSet && Distance(r, it) == 1
    ensures Next(r) == it
  {
    Iterator(it.indexSet, it.pos - 1)
  }

  /** `operator+(i)`: `i` steps forward over the same index set. */
  function Plus(it: Iterator, i: int): (r: Iterator)
    ensures r.indexSet == it.indexSet && Distance(it, r) == i
  {
    Iterator(it.indexSet, it.pos + i)
  }

  /** `operator-(i)`: `i` steps back, undone by `+i`. */
  function Minus(it: Iterator, i: int): (r: Iterator)
    ensures r.indexSet == it.indexSet && Distance(r, it) == i
    ensures Plus(r, i) == it
  {
    Iterator(it.indexSet, it.pos - i)
  }

  /** `begin()`: the first position, which dereferences to `set[0]`. */
  function Begin(s: IndexSet): (it: Iterator)
    ensures it.indexSet == s && it.pos == 0
    ensures Readable(s) && 0 < Size(s) ==> Deref(it) == At(s, 0)
  {
    Iterator(s, 0)
  }

  /** `end()`: `size()` steps past `begin()`. */
  function End(s: IndexSet): (it: Iterator)
    ensures it.indexSet == s && Distance(Begin(s), it) == Size(s)
    ensures it == Plus(Begin(s), Size(s))
  {
    Iterator(s, Size(s))
  }

  /** The arithmetic of the iterator operators: steps cancel, shifts add,
      and the index set is never changed. */
  lemma IteratorArithmetic(it: Iterator, i: int, j: int)
    ensures Prev(Next(it)) == it && Next(Prev(it)) == it
    ensures Minus(Plus(it, i), i) == it
    ensures Plus(Plus(it, i), j) == Plus(it, i + j)
    ensures Next(it) == Plus(it, 1) && Prev(it) == Minus(it, 1)
    ensures Distance(it, Plus(it, i)) == i
    ensures Plus(it, i).indexSet == it.indexSet
  {
  }

  /** `end() - begin() == size()`, and dereferencing `begin() + k` yields
      `set[k]`. */
  lemma BeginEnd(s: IndexSet, k: int)
    requires Readable(s) && 0 <= k < Size(s)
    ensures Begin(s).pos == 0 && End(s).pos == Size(s)
    ensures Distance(Begin(s), End(s)) == Size(s)
    ensures Plus(Begin(s), Size(s)) == End(s)
    ensures Deref(Plus(Begin(s), k)) == At(s, k)
  {
  }

  /** The values an iteration from `first` up to `last` dereferences. */
  function Walk(first: Iterator, last: Iterator): seq<int>
    requires first.indexSet == last.indexSet && Readable(first.indexSet)
    requires 0 <= first.pos <= last.pos <= Size(first.indexSet)
    decreases last.pos - first.pos
  {
    if first.pos == last.pos then [] else [Deref(first)] + Walk(Next(first), last)
  }

  lemma {:induction false} WalkAt(first: Iterator, last: Iterator)
    requires first.indexSet == last.indexSet && Readable(first.indexSet)
    requires 0 <= first.pos <= last.pos <= Size(first.indexSet)
    ensures |Walk(first, last)| == Distance(first, last)
    ensures forall k :: 0 <= k < |Walk(first, last)| ==>
              Walk(first, last)[k] == At(first.indexSet, first.pos + k)
    decreases last.pos - first.pos
  {
    if first.pos < last.pos {
      WalkAt(Next(first), last);
    }
  }

  /** Iterating from `begin()` to `end()` visits `set[0], ..., set[size-1]`. */
  lemma IterateAll(s: IndexSet)
    requires Readable(s)
    ensures |Walk(Begin(s), End(s))| == Size(s)
    ensures forall k :: 0 <= k < Size(s) ==> Walk(Begin(s), End(s))[k] == At(s, k)
  {
    WalkAt(Begin(s), End(s));
  }

  /** `local(sub<0>(0, n, mat))`, the local view of a range over the whole
      origin, has the unit's local element count as its size; when the
      origin is not empty, iterating it from begin to end takes that many
      steps. */
  lemma LocalOfWholeRange(p: Pattern, n: nat)
    ensures Valid(Sub(Identity(p, n), 0, n))
    ensures Size(LocalOf(Sub(Identity(p, n), 0, n))) == p.localSize
    ensures 0 < n ==>
      var l := LocalOf(Sub(Identity(p, n), 0, n));
      Readable(l) && |Walk(Begin(l), End(l))| == Distance(Begin(l), End(l)) == p.localSize
  {
    if 0 < n {
      IterateAll(LocalOf(Sub(Identity(p, n), 0, n)));
    }
  }
}
