# Hardware-allocation ledger

This is a Dafny model of the ledger inside the single-page "Hardware Manager — Projects" app
(`src/App.js`). Hardware sets are pools of identical units, and each has a fixed capacity.
Projects check units out of those pools. The page derives, for every set, how many units are
still available. It supports two mutations:

- Toggling whether the user is a member of a project.
- Adjusting a project's checked-out quantity for one set by a signed delta. The result is
  clamped so that it never goes below zero and never takes more than what is available.

The model has five modules:

- `Allocation` (`allocation.dfy`): the records `Entry`, `Project` and `HardwareSet`. It also
  holds `find` and `findIndex` with first-match semantics, and the `reduce` fold of
  `sumCheckedOutAcrossProjects` together with a reference sum it is proved equal to.
- `Availability` (`availability.dfy`): the `useMemo` body. It is a method that fills the
  availability map in a loop, proved equal to a fold over the sets. The lemmas cover its key
  set, its records and the bounds `0 <= available <= capacity`. It also models the lookup
  `availability[setId]?.available ?? 0`.
- `Membership` (`membership.dfy`): the toggle's `map` over the project list, with its frame,
  involution, unknown-id and "totals unchanged" lemmas.
- `Checkout` (`checkout.dfy`): the clamp and the write-back. The write-back replaces the first
  entry in place or appends one. It also holds two methods:
  - `AdjustHardware`, the imperative callback body: copy, `findIndex`, `let nextQty`, write.
  - `AdjustCheckout`, the updater. It reads availability from the list it is about to change,
    then rebuilds the list.
  `AdjustHardware` is proved to return `WithQty` of the `ClampedQty` result, which is the
  hardware part of one adjusted project (`AdjustProject`). `AdjustCheckout` is proved to
  return exactly the list of the reference function `AdjustedProjects`. The lemmas about that
  function cover the frame, the target quantity, unknown ids, a zero delta, and the
  preservation of invariants I1 (`qty >= 0`) and I2 (total per set `<= capacity`).
- `Projects` (`projects.dfy`): the seed data and a lemma that it meets I1 and I2. It also has
  the walk-through scenario of one shared set, and a counterexample showing why I2 needs unique
  project ids. The class `ProjectsState` stands for the component's `useState` pair. Its
  handlers replace `projects` exactly as `setProjects` does, and they keep `Valid()`.

Two points where the code promises less than it appears to:

- The comment `// no negatives` at src/App.js:170 says the floor at 0 rules out a negative
  quantity. The ceiling clamp at src/App.js:171-172 runs after the floor and can undo it: a
  current quantity of -5, a delta of 3 and 1 available give -4 (`ClampKeepsNegativeStock`). "Never negative" therefore holds only for a
  non-negative current quantity. That is invariant I1, which every list reachable from the seed
  data keeps.
- The capacity bound relies on project ids being unique. The updater adjusts every project
  whose id matches, each against the same availability.

## Model

| member | source | states |
|---|---|---|
| `Allocation.Find` | src/App.js:132 | The result is an entry of the list with the requested set id, and it is `None` exactly when no entry has that id. |
| `Allocation.FindIndex` | src/App.js:166 | The result is -1 or an index whose set id matches, and no earlier index matches (no index at all when it is -1). |
| `Allocation.FindAgreesWithFindIndex` | src/App.js:166-167 | `find` returns the entry at the index `findIndex` reports, and `None` when that index is -1. |
| `Allocation.QtyOf` | src/App.js:132-133 | The quantity read for a set is that of the first matching entry, or 0 when there is none; it is non-negative when the list's quantities are. |
| `Allocation.Reduce` | src/App.js:131-134 | The fold with accumulator `acc` returns `acc` plus the reference definition `CheckedOut`, the sum over the projects of each one's quantity for the set. |
| `Allocation.SumCheckedOut` | src/App.js:130-135 | `sumCheckedOutAcrossProjects` equals the sum over projects of the first matching entry's `qty` (0 if absent), and is `>= 0` when every `qty` is. |
| `Allocation.CheckedOutNonNegative` | src/App.js:130-134 | With every quantity non-negative, the checked-out total of any set is non-negative. |
| `Allocation.CheckedOutPointwise` | src/App.js:130-134 | Two lists that agree position by position on a set's quantity have the same total for that set. |
| `Allocation.CheckedOutChangeAt` | src/App.js:130-134 | When two lists differ only at position `k`, their totals differ by exactly the change of the quantity at `k`. |
| `Availability.ComputeAvailability` | src/App.js:142-152 | The loop builds exactly the reference definition `AvailabilityMap`, a fold over the sets in order, with a later set overwriting an earlier one of the same id, and its keys are exactly the set ids. |
| `Availability.AvailabilityMapKeys` | src/App.js:144-150 | The map has a record for an id exactly when some hardware set has that id. |
| `Availability.AvailabilityMapAt` | src/App.js:144-149 | The record under a set's id (when no later set shares it) is `{capacity, available: max(0, capacity - totalOut)}` for that set. |
| `Availability.AvailabilityMapBounds` | src/App.js:145-149 | Every record has `0 <= available`. It has `available <= capacity` when quantities are non-negative. It has `available == capacity - totalOut` while the total is within capacity. |
| `Availability.AvailabilityMapDependsOnTotals` | src/App.js:142-152 | Two project lists with the same total for every set yield the same availability map. |
| `Availability.SetRecord` | src/App.js:146-149 | A set's record keeps its capacity and has `0 <= available`. It has `available <= capacity` when quantities are non-negative, and `available == capacity - totalOut` while the total is within capacity. |
| `Availability.AvailableIn` | src/App.js:162 | A set missing from the map reads as 0 available, and a map of non-negative records never yields a negative read. |
| `Availability.CurrentlyAvailable` | src/App.js:162 | The availability read for a set is never negative, and is 0 for an id that names no hardware set (`?.available ?? 0`). |
| `Availability.CurrentlyAvailableOf` | src/App.js:145-148 | With unique set ids, the availability read for a known set is `max(0, capacity - total)` over the given list. |
| `Membership.Toggled` | src/App.js:156 | One project's toggle keeps its id and hardware, and flips `isMember` exactly when the id matches. |
| `Membership.ToggleMembership` | src/App.js:154-158 | The list keeps its length, ids and hardware, and `isMember` is flipped exactly on the projects whose id matches. |
| `Membership.ToggleTwice` | src/App.js:156 | Toggling the same id twice gives back the original list. |
| `Membership.ToggleUnknownId` | src/App.js:156 | An id no project has leaves the list unchanged. |
| `Membership.TogglePreservesAvailability` | src/App.js:154-158 | Toggling changes no set's checked-out total, so the availability map is unchanged. |
| `Membership.TogglePreservesNonNegative` | src/App.js:156 | Toggling keeps every quantity non-negative. |
| `Checkout.ClampedQty` | src/App.js:169-173 | For a non-negative current quantity the new quantity is `>= 0` and, when `delta > 0`, rises by exactly `min(delta, max(0, available))`. For any current quantity it is `max(0, currentQty + delta)` when `delta <= 0`, so the ceiling clamp never applies on a decrease. |
| `Checkout.ClampKeepsNegativeStock` | src/App.js:169-173 | With a negative current quantity the ceiling clamp overrides the floor: -5 with delta 3 and 1 available gives -4. |
| `Checkout.WithQty` | src/App.js:175-176 | The write-back replaces the first entry for the set at its index, or appends one when there is none. Every other entry keeps its position and value. |
| `Checkout.WithQtyLookup` | src/App.js:175-176 | After the write-back the set reads the written quantity, every other set reads what it read before, and non-negative stock stays non-negative when the written quantity is non-negative. |
| `Checkout.AdjustHardware` | src/App.js:165-178 | The imperative callback produces the copy with the clamped quantity written back, as specified by `WithQty` and `ClampedQty`. |
| `Checkout.AdjustProject` | src/App.js:163-179 | One project's step keeps its id and membership flag, leaves a project whose id does not match unchanged, and gives the matching project the clamped quantity for the set. |
| `Checkout.AdjustedProjects` | src/App.js:161-180 | Reference definition of the updater's `map`: the list keeps its length, every id and membership flag, and every project whose id does not match. Its further properties are stated by the `Adjust…` lemmas below. |
| `Checkout.AdjustCheckout` | src/App.js:160-181 | The updater, reading availability from the pre-mutation list, returns exactly the reference adjusted list. |
| `Checkout.AdjustFrame` | src/App.js:163-178 | In the target project only the entry for `setId` is rewritten, and no project's quantity for any other set changes. Length, ids, membership flags and the untouched projects are stated by `AdjustedProjects`. |
| `Checkout.AdjustTargetQuantity` | src/App.js:167-173 | With non-negative quantities (I1), the target quantity is never negative. It rises by exactly `min(delta, available)` when `delta > 0`, and is `max(0, currentQty + delta)` when `delta <= 0`. |
| `Checkout.AdjustUnknownProject` | src/App.js:164 | An unknown `projectId` returns a list equal to the input. |
| `Checkout.AdjustZeroDelta` | src/App.js:167-176 | With non-negative quantities (I1), `delta == 0` changes no quantity of any project for any set (an entry `{setId, qty: 0}` may be appended) and so leaves the availability map unchanged. |
| `Checkout.AdjustPreservesNonNegative` | src/App.js:169-176 | If every quantity is non-negative before an adjustment, every quantity is non-negative after it. |
| `Checkout.AdjustedTotals` | src/App.js:162-178 | With unique project ids and non-negative quantities (I1), the adjusted set's total grows by at most what was available, and every other set's total is unchanged. |
| `Checkout.AdjustPreservesCapacity` | src/App.js:162-178 | If every set's total is within capacity on the pre-mutation list, and availability was read from that list, every total is still within capacity after the adjustment. |
| `Checkout.AdjustUnknownSet` | src/App.js:162-172 | With non-negative quantities (I1), a set id that names no hardware set has 0 available, so no adjustment raises any quantity for it. |
| `Projects.InitialHardwareSets` | src/App.js:84-88 | The seed has three hardware sets with distinct ids `hs1`, `hs2` and `hs3`. |
| `Projects.InitialProjects` | src/App.js:90-127 | The seed has three projects with distinct ids and non-negative quantities. |
| `Projects.SeedTotals` | src/App.js:84-127 | The seed data has 8 units of hs1, 5 of hs2 and 2 of hs3 checked out. |
| `Projects.SeedIsValid` | src/App.js:84-127 | The seed data has unique ids and non-negative quantities, is within capacity, and its availability map is hs1 12/20, hs2 7/12, hs3 6/8. |
| `Projects.ScenarioCheckoutAll` | src/App.js:160-181 | With hs1 at capacity 20 and p1 holding 6, 14 are available, and p2 asking for 14 gets an appended entry `{hs1, 14}`. |
| `Projects.ScenarioClampOnIncrease` | src/App.js:160-181 | Once p2 holds those 14 units, 0 are available, and p1's +1 is clamped away, leaving the list unchanged. |
| `Projects.DuplicateProjectIdsCanExceedCapacity` | src/App.js:163-164 | Two projects sharing an id, both read against the same availability, can together exceed a set's capacity. |
| `Projects.ProjectsState.constructor` | src/App.js:139-140 | The state starts from the seed data and satisfies `Valid()`. |
| `Projects.ProjectsState.CurrentAvailability` | src/App.js:142-152 | The rendered availability is the map over the current projects, and in a valid state every record has `0 <= available <= capacity`. |
| `Projects.ProjectsState.HandleToggleMembership` | src/App.js:154-158 | Replaces the projects with the toggled list and keeps `Valid()`. |
| `Projects.ProjectsState.HandleAdjustCheckout` | src/App.js:160-181 | Replaces the projects with the adjusted list and keeps `Valid()`, so invariants I1 and I2 hold after any sequence of handler calls. |

## Left out

- `app.py`: its HTTP routes echo query strings back, and its static-file serving is network and filesystem I/O with no ledger logic.
- Rendering: the theme, `App`, the layout of `HeaderSummary` and `ProjectCard`, and the chip labels.
- The progress percentage in `HardwareSetRow`: it uses floating-point division and `Math.round`.
- The button guards in `HardwareSetRow` (disabled when not a member, when `qty === 0`, or when `available === 0`): they are UI only. The core does not check membership, and the model does not either.
- The React hooks (`useState`, `useMemo` memoisation, the functional updater). In the source, the handler reads `availability` from the render-time closure, which could be stale under batched updates. The model always computes availability from the list the updater receives.
- JavaScript numbers are IEEE doubles. The model uses unbounded integers, so it does not capture precision loss beyond 2^53, nor fractional or NaN values of `delta` or `qty`. The page only ever passes a `delta` of +1 or -1 (src/App.js:303-304), and the seed quantities are whole numbers.
- The display-only project fields `name`, `description`, `tags` and `members`, and the set's `name`.
- `prev.map` inside the adjust updater: the method `Checkout.AdjustCheckout` writes it as a `for` loop, because the per-project step is a method. The reference `AdjustedProjects` is the `map`.
- Checkout.AdjustPreservesCapacity: assumes unique project ids, unique set ids and non-negative quantities. They hold in every reachable state: the seed data has unique ids and non-negative quantities (src/App.js:84-127), `hardwareSets` is never replaced (src/App.js:140), no handler changes an id, and from non-negative stock no handler makes a quantity negative. `Projects.ProjectsState.Valid` states them, and the constructor and both handlers prove they are kept. Without unique project ids the bound fails, as `Projects.DuplicateProjectIdsCanExceedCapacity` shows.
