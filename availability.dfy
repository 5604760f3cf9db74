/** The availability map the `Projects` component derives from the hardware sets and the projects. */
module Availability {
  import opened Allocation

  /** The `{capacity, available}` record stored for one hardware set. */
  datatype SetAvailability = SetAvailability(capacity: nat, available: int)

  /** The ids of the hardware sets. */
  function SetIds(sets: seq<HardwareSet>): set<string>
  {
    set s | s in sets :: s.id
  }

  /** No two hardware sets share an id. */
  predicate UniqueSetIds(sets: seq<HardwareSet>)
  {
    forall i, j :: 0 <= i < j < |sets| ==> sets[i].id != sets[j].id
  }

  /** Invariant I2: no hardware set has more units checked out than its capacity. */
  predicate WithinCapacity(sets: seq<HardwareSet>, projects: seq<Project>)
  {
    forall i :: 0 <= i < |sets| ==> CheckedOut(projects, sets[i].id) <= sets[i].capacity
  }

  /** The record for one set: its capacity and `Math.max(0, capacity - totalOut)`. */
  function SetRecord(hs: HardwareSet, projects: seq<Project>): (r: SetAvailability)
    ensures r.capacity == hs.capacity && 0 <= r.available
    ensures AllNonNegative(projects) ==> r.available <= r.capacity
    ensures CheckedOut(projects, hs.id) <= hs.capacity ==> r.available == hs.capacity - CheckedOut(projects, hs.id)
  {
    SetAvailability(hs.capacity, Max(0, hs.capacity - SumCheckedOut(projects, hs.id)))
  }

  /** Reference definition of the map after the `forEach` has visited every set in order:
      each visit assigns `map[set.id]`, so a later set overwrites an earlier one with the same id. */
  function AvailabilityMap(sets: seq<HardwareSet>, projects: seq<Project>): map<string, SetAvailability>
  {
    if sets == [] then map[]
    else AvailabilityMap(sets[..|sets| - 1], projects)[sets[|sets| - 1].id := SetRecord(sets[|sets| - 1], projects)]
  }

  /** The `useMemo` body: fills the map by assignment while looping over the hardware sets. */
  method ComputeAvailability(sets: seq<HardwareSet>, projects: seq<Project>) returns (m: map<string, SetAvailability>)
    ensures m == AvailabilityMap(sets, projects)
    ensures m.Keys == SetIds(sets)
  {
    m := map[];
    for i := 0 to |sets|
      invariant m == AvailabilityMap(sets[..i], projects)
    {
      var hs := sets[i];
      var totalOut := SumCheckedOut(projects, hs.id);
      m := m[hs.id := SetAvailability(hs.capacity, Max(0, hs.capacity - totalOut))];
      assert sets[..i + 1][..i] == sets[..i];
    }
    assert sets[..|sets|] == sets;
    AvailabilityMapKeys(sets, projects);
  }

  /** The map has exactly one key per hardware-set id. */
  lemma {:induction false} AvailabilityMapKeys(sets: seq<HardwareSet>, projects: seq<Project>)
    ensures AvailabilityMap(sets, projects).Keys == SetIds(sets)
  {
    if sets != [] {
      var init := sets[..|sets| - 1];
      AvailabilityMapKeys(init, projects);
      assert sets == init + [sets[|sets| - 1]];
      assert SetIds(sets) == SetIds(init) + {sets[|sets| - 1].id};
    }
  }

  /** The record under a set's id is that set's own record, provided no later set has the same id. */
  lemma {:induction false} AvailabilityMapAt(sets: seq<HardwareSet>, projects: seq<Project>, i: nat)
    requires i < |sets|
    requires forall j :: i < j < |sets| ==> sets[j].id != sets[i].id
    ensures sets[i].id in AvailabilityMap(sets, projects)
    ensures AvailabilityMap(sets, projects)[sets[i].id]
         == SetAvailability(sets[i].capacity, Max(0, sets[i].capacity - CheckedOut(projects, sets[i].id)))
  {
    var init := sets[..|sets| - 1];
    if i < |sets| - 1 {
      assert init[i] == sets[i];
      AvailabilityMapAt(init, projects, i);
      assert sets[|sets| - 1].id != sets[i].id;
    } else {
      assert AvailabilityMap(sets, projects)[sets[i].id] == SetRecord(sets[i], projects);
    }
  }

  /** Every record holds `0 <= available`; with non-negative quantities also `available <= capacity`;
      and while the total is within capacity, `available` is exactly the unused capacity. */
  lemma {:induction false} AvailabilityMapBounds(sets: seq<HardwareSet>, projects: seq<Project>, setId: string)
    requires setId in AvailabilityMap(sets, projects)
    ensures var a := AvailabilityMap(sets, projects)[setId];
            && 0 <= a.available
            && (AllNonNegative(projects) ==> a.available <= a.capacity)
            && (CheckedOut(projects, setId) <= a.capacity ==> a.available == a.capacity - CheckedOut(projects, setId))
  {
    var last := sets[|sets| - 1];
    if setId != last.id {
      AvailabilityMapBounds(sets[..|sets| - 1], projects, setId);
    } else {
      CheckedOutNonNegative(projects, setId);
    }
  }

  /** Two project lists with equal totals for every set produce the same availability map. */
  lemma {:induction false} AvailabilityMapDependsOnTotals(sets: seq<HardwareSet>, a: seq<Project>, b: seq<Project>)
    requires forall setId :: CheckedOut(a, setId) == CheckedOut(b, setId)
    ensures AvailabilityMap(sets, a) == AvailabilityMap(sets, b)
  {
    if sets != [] {
      AvailabilityMapDependsOnTotals(sets[..|sets| - 1], a, b);
    }
  }

  /** `availability[setId]?.available ?? 0`: a set without a record reads as 0 available. */
  function AvailableIn(availability: map<string, SetAvailability>, setId: string): (a: int)
    ensures setId !in availability ==> a == 0
    ensures (forall k :: k in availability ==> availability[k].available >= 0) ==> a >= 0
  {
    if setId in availability then availability[setId].available else 0
  }

  /** The availability of a set as computed from the given project list. */
  function CurrentlyAvailable(sets: seq<HardwareSet>, projects: seq<Project>, setId: string): (a: int)
    ensures 0 <= a
    ensures setId !in SetIds(sets) ==> a == 0
  {
    AvailabilityMapKeys(sets, projects);
    if setId in AvailabilityMap(sets, projects) then
      AvailabilityMapBounds(sets, projects, setId);
      AvailableIn(AvailabilityMap(sets, projects), setId)
    else
      AvailableIn(AvailabilityMap(sets, projects), setId)
  }

  /** With unique set ids, a known set's availability is `max(0, capacity - total)`. */
  lemma CurrentlyAvailableOf(sets: seq<HardwareSet>, projects: seq<Project>, i: nat)
    requires UniqueSetIds(sets) && i < |sets|
    ensures CurrentlyAvailable(sets, projects, sets[i].id)
         == Max(0, sets[i].capacity - CheckedOut(projects, sets[i].id))
  {
    AvailabilityMapAt(sets, projects, i);
  }
}
