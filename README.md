# Index sets and remote references of a PGAS view library

This project models two parts of the DASH addressing core.

The first is the **index-set algebra** behind lazy views of a distributed
container. An index set maps an image index (a position in a view's own
iteration space) to an index of its domain. The domain is the index set of the
view it was derived from.
- `Identity` is the origin's own iteration space.
- `Sub` is a range `[begin, end)` of its domain.
- `Local` selects the calling unit's elements, through the origin's
  distribution pattern.

The pattern is an abstract oracle: `at` (global index to local offset),
`global` (local offset to global index) and `localSize`. The model has:
- `At` for `operator[]`, `Size` for `size()`, `LocalOf` for the `local(...)` overloads.
- `Resolve`, which walks the domain chain down to a global index. For a chain
  of ranges that index lies in the origin.
- The iterator as a value `(indexSet, pos)`.
- Two-dimensional views over a row-major matrix, one index set per axis,
  which state the chained-range assertions of the view tests.

The second is **`NSMRef<T>`**, a proxy for one remote element. The accessor
(`NonSequentialMemoryAccessor<T>`) is a class holding the remote cell. Each
of its fetches and stores is appended to a ghost log: the calling unit's
record of remote operations in program order. The proxy's contracts count
and order these events exactly.

Files:
- `index_sets.dfy`: module `IndexSets`.
- `nviews.dfy`: module `NViews`.
- `nsm_ref.dfy`: module `RemoteRefs`.

Three choices follow the code as written:
- `Sub::operator[]` returns `begin + i`, an index relative to its domain, not
  a global index. Global resolution through nested ranges is the separate
  function `Resolve`.
- The code checks no bounds. `Bounded` states the range precondition
  `0 <= begin <= end <= domain.size()` for every range link of a chain and a
  non-empty domain at every Local link. `Resolve` requires it. It places the
  result inside the origin for range chains only.
- `Local::size()` is the pattern's whole local size, whatever the domain is.
  A Local set over a partial range therefore has `localSize` positions, and
  positions past the range's local elements resolve outside the range,
  possibly outside the origin. With one unit holding all 10 elements, the
  local set of `[7, 10)` has 10 positions, and position 5 is global 12.

## Model

| member | source | states |
|---|---|---|
| `IndexSets.At` | dash/include/dash/view/IndexSet.h:174-176 | Identity maps image index `i` to `i`; a Sub maps `i` to `begin + i`, which lies in `[begin, end)` |
| `IndexSets.Domain` | dash/include/dash/view/IndexSet.h:133-135 | `domain()` is the parent index set; only the origin's Identity is its own domain, every other set's domain is strictly smaller |
| `IndexSets.Origin` | dash/include/dash/view/IndexSet.h:116-118 | following domain links ends at an Identity; the origin of a derived set is the origin of its domain |
| `IndexSets.PatternOf` | dash/include/dash/view/IndexSet.h:137-139 | `pattern()` is the pattern of the chain's origin, captured at construction |
| `IndexSets.Size` | dash/include/dash/view/IndexSet.h:178-180 | `size()` is never negative for a valid set; it is the domain size for Identity, `end - begin` for a range (lines 223-225), and the pattern's local size for a Local set whatever its domain (lines 273-275) |
| `IndexSets.LocalView` | dash/include/dash/view/IndexSet.h:66-76 | `index(local(view))` is a Local set whose domain is the view's own index set and whose size is the pattern's local size |
| `IndexSets.LocalOf` | dash/include/dash/view/IndexSet.h:151-156 | `local(Identity)` and `local(Local)` return the set itself; `local(Sub)` is exactly `index(local(view))`; the result is never a range and keeps the pattern |
| `IndexSets.LocalOfIdempotent` | dash/include/dash/view/IndexSet.h:277-279 | localising twice equals localising once, for every kind |
| `IndexSets.SubLocalIgnoresEnd` | dash/include/dash/view/IndexSet.h:227-229 | two ranges of one domain with the same `begin` and different `end` localise to sets that agree at every local index, namely `global(at(begin) + li)` |
| `IndexSets.LocalAtRoundTrip` | dash/include/dash/view/IndexSet.h:265-275 | under a pattern whose `global` inverts `at`, the `li`-th element of a Local set has local offset `at(domain[0]) + li` |
| `IndexSets.ResolveThroughSub` | dash/include/dash/view/IndexSet.h:219-221 | resolving through a range is its `operator[]` followed by resolving that domain index in the domain, which is in range |
| `IndexSets.ResolveRangeChain` | dash/include/dash/view/IndexSet.h:219-225 | a chain of ranges of any depth resolves image index `i` to its start offset plus `i` |
| `IndexSets.RangeChainWithinOrigin` | dash/include/dash/view/IndexSet.h:223-225 | a bounded chain of ranges covers a window `[offset, offset + size)` inside the origin |
| `IndexSets.ResolveInOrigin` | dash/include/dash/view/IndexSet.h:219-221 | every resolved index of a bounded range chain is an index of the origin |
| `IndexSets.ComposeSubs` | dash/include/dash/view/IndexSet.h:210-225 | `[b2, e2)` of `[b1, e1)` is bounded, has the same size and resolves element for element like `[b1 + b2, b1 + e2)` over the original domain |
| `IndexSets.ElementsOfRangeChain` | dash/include/dash/view/IndexSet.h:219-225 | the elements of a range chain are the consecutive global indices `offset, offset + 1, ...`, one per image position |
| `IndexSets.ComposeSubsElements` | dash/include/dash/view/IndexSet.h:210-225 | a range of a range has the same element sequence as the single combined range |
| `IndexSets.ComposeSubsExample` | dash/include/dash/view/IndexSet.h:219-225 | over 10 elements, `[1, 4)` of `[2, 8)` yields `[3, 4, 5]`, as does `[3, 6)` |
| `IndexSets.EmptySub` | dash/include/dash/view/IndexSet.h:223-225 | `begin == end` is a valid range of size 0 with no elements |
| `IndexSets.LocalAgreesOverShallowDomain` | dash/include/dash/view/IndexSet.h:265-271 | over the origin or one range of it, `operator[]` of a Local set equals its resolved global index |
| `IndexSets.LocalAtOverNestedRange` | dash/include/dash/view/IndexSet.h:265-271 | counterexample: over `[1, 4)` of `[2, 8)`, `operator[]` as written starts the local set at global 1, while the domain's first element is 3 |
| `IndexSets.LocalPastPartialRange` | dash/include/dash/view/IndexSet.h:265-275 | over 10 elements held by one unit, the local set of `[7, 10)` has size 10 and position 5 resolves to 12, outside the origin |
| `IndexSets.ResolveLocalRoundTrip` | dash/include/dash/view/IndexSet.h:265-271 | with a consistent pattern, the resolved `li`-th local element has the local offset of the domain's first global element plus `li`, at any depth |
| `IndexSets.Deref` | dash/include/dash/view/IndexSet.h:32-34 | `operator*` of an Identity set yields the position itself, and of a range an index in `[begin, end)` |
| `IndexSets.Next` | dash/include/dash/view/IndexSet.h:36-38 | `++` returns an iterator one step further over the same index set |
| `IndexSets.Prev` | dash/include/dash/view/IndexSet.h:40-42 | `--` returns an iterator one step back over the same index set, which `++` undoes |
| `IndexSets.Plus` | dash/include/dash/view/IndexSet.h:44-46 | `+ i` returns an iterator `i` steps further over the same index set |
| `IndexSets.Minus` | dash/include/dash/view/IndexSet.h:48-50 | `- i` returns an iterator `i` steps back over the same index set, which `+ i` undoes |
| `IndexSets.Begin` | dash/include/dash/view/IndexSet.h:120-122 | `begin()` is at position 0 of the set and dereferences to `set[0]` |
| `IndexSets.End` | dash/include/dash/view/IndexSet.h:124-127 | `end()` is `size()` steps past `begin()` over the same set |
| `IndexSets.IteratorArithmetic` | dash/include/dash/view/IndexSet.h:36-54 | `++`/`--` cancel, `+i` then `-i` is the identity, shifts add, distance after `+i` is `i`, and the index set is never changed |
| `IndexSets.BeginEnd` | dash/include/dash/view/IndexSet.h:120-127 | `begin()` is at 0, `end()` at `size()`, `end - begin == size()`, and `*(begin + k) == set[k]` |
| `IndexSets.WalkAt` | dash/include/dash/view/IndexSet.h:32-38 | stepping with `++` from one iterator to another dereferences `set[pos]`, `set[pos + 1]`, ..., as many values as their distance |
| `IndexSets.IterateAll` | dash/include/dash/view/IndexSet.h:120-127 | iterating from `begin()` to `end()` visits `set[0]`, ..., `set[size - 1]` |
| `IndexSets.LocalOfWholeRange` | dash/test/view/NViewTest.cc:138-139 | `local(sub<0>(0, n, mat))` has size `localSize`, and over a non-empty origin iterating it from begin to end takes that many steps, as lines 200-203 expect |
| `NViews.Matrix` | dash/test/view/NViewTest.cc:314-324 | the origin matrix has extents `(nrows, ncols)` and offsets `(0, 0)` |
| `NViews.SubAxis` | dash/test/view/NViewTest.cc:345-346 | a range on one axis leaves the other axis untouched and, within bounds, sets that axis's extent to `e - b` and shifts its offset by `b` |
| `NViews.SubAxesCommute` | dash/test/view/NViewTest.cc:348-349 | ranges on different axes commute |
| `NViews.RangeViewSelectsRegion` | dash/test/view/NViewTest.cc:374-384 | element `(r, c)` of a range view is the matrix element `(offset0 + r, offset1 + c)`, which lies inside the matrix |
| `NViews.SubRowsOfMatrix` | dash/test/view/NViewTest.cc:165-166 | `sub<0>(1, 3, mat)` has extents `(2, ncols)` and holds rows 1 and 2 |
| `NViews.SubColsOfMatrix` | dash/test/view/NViewTest.cc:176-183 | `sub<1>(2, 7, mat)` has extents `(nrows, 5)` and holds columns 2 to 6 |
| `NViews.ChainedSubsSelectSameRegion` | dash/test/view/NViewTest.cc:348-396 | both orders of `sub<0>(1, 3)` and `sub<1>(2, 7)` have offsets `(1, 2)`, extents `(2, 5)` and the same elements, the matrix region at that offset |
| `NViews.SubSectionOfMatrix` | dash/test/view/NViewTest.cc:470-501 | removing one row and column at each border gives extents `(nrows - 2, ncols - 2)` at offset `(1, 1)` with the matching region's elements |
| `RemoteRefs.NonSequentialMemoryAccessor.GetValue` | dash-lib/src/NSMRef.h:33 | `get_value` returns the current remote value and logs one fetch of it |
| `RemoteRefs.NonSequentialMemoryAccessor.PutValue` | dash-lib/src/NSMRef.h:39 | `put_value(v)` sets the remote value to `v` and logs one store of it |
| `RemoteRefs.NSMRef.constructor` | dash-lib/src/NSMRef.h:21-24 | the proxy is bound to the given accessor, in a field nothing reassigns (a Dafny `const`) |
| `RemoteRefs.NSMRef.Read` | dash-lib/src/NSMRef.h:30-35 | a read logs exactly one fetch and returns the value fetched; the remote value is unchanged |
| `RemoteRefs.NSMRef.AssignValue` | dash-lib/src/NSMRef.h:37-41 | assigning `v` logs exactly one store of `v` and no fetch, sets the remote value to `v`, and returns the proxy itself |
| `RemoteRefs.NSMRef.Assign` | dash-lib/src/NSMRef.h:43-46 | proxy assignment logs one fetch on the source, then one store of the fetched value on the destination, in that order when both share a log; it returns the destination itself |
| `RemoteRefs.NSMRef.GetAccessor` | dash-lib/src/NSMRef.h:48-51 | `get_accessor` returns the accessor bound at construction |
| `RemoteRefs.ReadRepeatedly` | dash-lib/src/NSMRef.h:30-35 | `n` reads log exactly `n` fetches and each returns the current remote value: there is no cache |
| `RemoteRefs.WriteThenRead` | dash-lib/src/NSMRef.h:37-54 | a read after a write to the same location through another proxy returns the written value, with a store then a fetch logged |

## Left out

- IndexSets.At: requires `0 <= i < size()`, `0 <= begin <= end` for ranges, and (as `Readable`) a non-empty domain for a Local set, because it reads `domain()[0]`. The source checks none of these: Identity and Sub return `i` and `begin + i` for any `i`, and a Local set reads `domain()[0]` whatever the domain's size. The model covers only `[0, size())`, where the result names an element of the set. Localising (`LocalOf`, `LocalView`) needs only `Valid` and accepts empty views.
- Index width: indices are unbounded integers. The source's signed `index_type` overflow is not modelled.
- Views are represented by their index sets. `dash::index(view)` (dash/include/dash/view/IndexSet.h:13-16) is therefore the identity, and `view()` is not modelled separately.
- `dash::local(view)` and `dash::domain(view)` come from Local.h, Origin.h and ViewTraits.h. These files are not part of this model. `LocalView` states only what IndexSet.h relies on: the localised view's index set is a Local set over the view's own index set.
- The distribution pattern is abstract. The requirement that `global` inverts `at` on local offsets is the explicit assumption `ConsistentLocal`.
- The extents of local views (dash/test/view/NViewTest.cc:205-206, 398-399, 515-538) depend on the pattern's local extents, which are not part of this model.
- Block partitioning (`dash::blocks`, dash/test/view/NViewTest.cc:246-289) and `CartesianIndexSpace` are not part of this model.
- Type-level machinery (CRTP, `decltype`, `view_traits`, the `static_assert`s) describes types, not behaviour.
- Lifetimes of the `const &` members are not modelled. Values cannot dangle.
- The accessor's transport is not modelled, and neither are its communication errors. Every fetch and store succeeds. The log is instrumentation standing in for that transport.
- Accessor copies: `NSMRef` takes, stores and returns its accessor by value (dash-lib/src/NSMRef.h:21-22, 48-51, 54). Every copy addresses the same remote location, so the model uses one shared accessor object for all copies. Identity of copies is not modelled.
- `get_value(&t)` fills an out-parameter. The model returns the value instead.
- The destructor of `NSMRef` does nothing and is not modelled.
- Nesting order of ranges on different axes: `NView` keeps one index set per axis, so `sub<1>(sub<0>(mat))` and `sub<0>(sub<1>(mat))` (dash/test/view/NViewTest.cc:348-349) are the same value. Only the extents, offsets and elements that lines 374-396 compare are modelled, not the differently nested view types.
- Test harness: multi-unit execution, barriers, matrix initialisation and logging.

## Findings

| source | as written | input that shows it | evidently intended | confidence | as-written member | corrected member |
|---|---|---|---|---|---|---|
| dash/include/dash/view/IndexSet.h:265-271 | `pattern().at(domain()[0])` passes the domain's first index as the domain's `operator[]` returns it. For a Sub this index is relative to that Sub's own domain (line 220). | One unit holds all 10 elements (`at` and `global` are the identity). Take the local set of `[1, 4)` of `[2, 8)`. Its first element comes out as global 1. | The local offset of the domain's first global index, 3, is what the comment "domain start index to local index" describes. | medium, not executed | `IndexSets.LocalAtOverNestedRange` | `IndexSets.ResolveLocalRoundTrip` |
