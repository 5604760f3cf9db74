/** Checking units of a hardware set out to a project, or returning them. */
module Checkout {
  import opened Allocation
  import opened Availability

  /** The quantity written back for a project: `currentQty + delta` floored at 0, except that an
      increase larger than what is available adds only `max(0, available)`. */
  function ClampedQty(currentQty: int, delta: int, available: int): (next: int)
    ensures currentQty >= 0 ==> next >= 0
    ensures delta <= 0 ==> next == Max(0, currentQty + delta)
    ensures delta > 0 && currentQty >= 0 ==> next == currentQty + Min(delta, Max(0, available))
  {
    if delta > 0 && delta > available then currentQty + Max(0, available)
    else Max(0, currentQty + delta)
  }

  /** The floor at 0 comes before the ceiling clamp, so the clamp can undo it: a quantity that
      is already negative can stay negative. No list that keeps invariant I1 reaches this. */
  lemma ClampKeepsNegativeStock()
    ensures ClampedQty(-5, 3, 1) == -4
  {
  }

  /** The write-back: the first entry for `setId` is replaced in place, or a new entry is
      appended when there is none; every other entry stays where it was. */
  function WithQty(hardware: seq<Entry>, setId: string, qty: int): (r: seq<Entry>)
    ensures var idx := FindIndex(hardware, setId);
            && |r| == (if idx < 0 then |hardware| + 1 else |hardware|)
            && r[if idx < 0 then |hardware| else idx] == Entry(setId, qty)
            && forall j :: 0 <= j < |hardware| && j != idx ==> r[j] == hardware[j]
  {
    var idx := FindIndex(hardware, setId);
    if idx < 0 then hardware + [Entry(setId, qty)] else hardware[idx := Entry(setId, qty)]
  }

  /** After the write-back the set reads the written quantity, every other set reads what it read
      before, and non-negative stock stays non-negative when the written quantity is. */
  lemma WithQtyLookup(hardware: seq<Entry>, setId: string, qty: int)
    ensures QtyOf(WithQty(hardware, setId, qty), setId) == qty
    ensures forall s :: s != setId ==> QtyOf(WithQty(hardware, setId, qty), s) == QtyOf(hardware, s)
    ensures StockNonNegative(hardware) && qty >= 0 ==> StockNonNegative(WithQty(hardware, setId, qty))
  {
    var idx := FindIndex(hardware, setId);
    var r := WithQty(hardware, setId, qty);
    FindIndexIs(r, setId, if idx < 0 then |hardware| else idx);
    forall s | s != setId
      ensures QtyOf(r, s) == QtyOf(hardware, s)
    {
      FindIndexIs(r, s, FindIndex(hardware, s));
    }
    if StockNonNegative(hardware) && qty >= 0 {
      forall e | e in r
        ensures e.qty >= 0
      {
        var j :| 0 <= j < |r| && r[j] == e;
        if j < |hardware| && j != idx {
          assert hardware[j] in hardware;
        }
      }
    }
  }

  /** The callback `handleAdjustCheckout` runs on the matching project's hardware: it copies the
      list, reads the current quantity, clamps the new one and writes it back into the copy. */
  method AdjustHardware(hardware: seq<Entry>, setId: string, delta: int, currentlyAvailable: int)
    returns (next: seq<Entry>)
    ensures next == WithQty(hardware, setId, ClampedQty(QtyOf(hardware, setId), delta, currentlyAvailable))
  {
    var copy := hardware;
    var idx := FindIndex(copy, setId);
    var currentQty := if idx >= 0 then copy[idx].qty else 0;

    var nextQty := currentQty + delta;
    if nextQty < 0 {
      nextQty := 0;
    }
    if delta > 0 && delta > currentlyAvailable {
      nextQty := currentQty + Max(0, currentlyAvailable);
    }

    if idx >= 0 {
      copy := copy[idx := Entry(setId, nextQty)];
    } else {
      copy := copy + [Entry(setId, nextQty)];
    }
    next := copy;
  }

  /** One project after the adjustment: only the project with the matching id changes. */
  function AdjustProject(p: Project, projectId: string, setId: string, delta: int, available: int): (r: Project)
    ensures r.id == p.id && r.isMember == p.isMember
    ensures p.id != projectId ==> r == p
    ensures p.id == projectId ==> QtyOf(r.hardware, setId) == ClampedQty(QtyOf(p.hardware, setId), delta, available)
  {
    WithQtyLookup(p.hardware, setId, ClampedQty(QtyOf(p.hardware, setId), delta, available));
    if p.id != projectId then p
    else p.(hardware := WithQty(p.hardware, setId, ClampedQty(QtyOf(p.hardware, setId), delta, available)))
  }

  /** Reference definition of the updater: the `map` over the list, with the availability of the
      set computed from the list before the change. */
  function AdjustedProjects(projects: seq<Project>, sets: seq<HardwareSet>, projectId: string, setId: string, delta: int)
    : (r: seq<Project>)
    ensures |r| == |projects|
    ensures forall i :: 0 <= i < |r| ==> r[i].id == projects[i].id && r[i].isMember == projects[i].isMember
    ensures forall i :: 0 <= i < |r| && projects[i].id != projectId ==> r[i] == projects[i]
  {
    var available := CurrentlyAvailable(sets, projects, setId);
    seq(|projects|, i requires 0 <= i < |projects| => AdjustProject(projects[i], projectId, setId, delta, available))
  }

  /** `handleAdjustCheckout`'s updater: reads the availability of the set from the list it is about
      to change, then rebuilds the list project by project. */
  method AdjustCheckout(projects: seq<Project>, sets: seq<HardwareSet>, projectId: string, setId: string, delta: int)
    returns (next: seq<Project>)
    ensures next == AdjustedProjects(projects, sets, projectId, setId, delta)
  {
    var availability := ComputeAvailability(sets, projects);
    var currentlyAvailable := AvailableIn(availability, setId);
    next := [];
    for i := 0 to |projects|
      invariant |next| == i
      invariant forall j :: 0 <= j < i ==> next[j] == AdjustProject(projects[j], projectId, setId, delta, currentlyAvailable)
    {
      var p := projects[i];
      var adjusted := p;
      if p.id == projectId {
        var hardware := AdjustHardware(p.hardware, setId, delta, currentlyAvailable);
        adjusted := p.(hardware := hardware);
      }
      assert adjusted == AdjustProject(p, projectId, setId, delta, currentlyAvailable);
      next := next + [adjusted];
    }
    assert currentlyAvailable == CurrentlyAvailable(sets, projects, setId);
    ghost var expected := AdjustedProjects(projects, sets, projectId, setId, delta);
    forall j | 0 <= j < |projects|
      ensures next[j] == expected[j]
    {
    }
  }

  /** Frame, beyond what `AdjustedProjects` itself ensures: in the target project only the entry
      for `setId` is rewritten, and no project's quantity for another set changes. */
  lemma AdjustFrame(projects: seq<Project>, sets: seq<HardwareSet>, projectId: string, setId: string, delta: int)
    ensures var r := AdjustedProjects(projects, sets, projectId, setId, delta);
            && (forall i :: 0 <= i < |r| && projects[i].id == projectId ==>
                  r[i].hardware == WithQty(projects[i].hardware, setId, QtyOf(r[i].hardware, setId)))
            && (forall i, s :: 0 <= i < |r| && s != setId ==> QtyOf(r[i].hardware, s) == QtyOf(projects[i].hardware, s))
  {
    var r := AdjustedProjects(projects, sets, projectId, setId, delta);
    var available := CurrentlyAvailable(sets, projects, setId);
    forall i | 0 <= i < |r| && projects[i].id == projectId
      ensures r[i].hardware == WithQty(projects[i].hardware, setId, QtyOf(r[i].hardware, setId))
      ensures forall s :: s != setId ==> QtyOf(r[i].hardware, s) == QtyOf(projects[i].hardware, s)
    {
      WithQtyLookup(projects[i].hardware, setId, ClampedQty(QtyOf(projects[i].hardware, setId), delta, available));
    }
  }

  /** The target quantity: never negative, rises by exactly `min(delta, available)` on an
      increase, and on a decrease is `currentQty + delta` floored at 0 (the ceiling clamp never
      applies). */
  lemma AdjustTargetQuantity(projects: seq<Project>, sets: seq<HardwareSet>, projectId: string, setId: string, delta: int, i: nat)
    requires i < |projects| && projects[i].id == projectId
    ensures var r := AdjustedProjects(projects, sets, projectId, setId, delta);
            var current := QtyOf(projects[i].hardware, setId);
            var next := QtyOf(r[i].hardware, setId);
            && (current >= 0 ==> next >= 0)
            && (delta > 0 && current >= 0 ==> next == current + Min(delta, CurrentlyAvailable(sets, projects, setId)))
            && (delta <= 0 ==> next == Max(0, current + delta))
  {
    var available := CurrentlyAvailable(sets, projects, setId);
    WithQtyLookup(projects[i].hardware, setId, ClampedQty(QtyOf(projects[i].hardware, setId), delta, available));
  }

  /** An id that no project has gives back a list equal to the input. */
  lemma AdjustUnknownProject(projects: seq<Project>, sets: seq<HardwareSet>, projectId: string, setId: string, delta: int)
    requires forall i :: 0 <= i < |projects| ==> projects[i].id != projectId
    ensures AdjustedProjects(projects, sets, projectId, setId, delta) == projects
  {
  }

  /** A zero delta changes no quantity (an entry `{setId, qty: 0}` may still be appended), so
      no total and no availability changes. */
  lemma AdjustZeroDelta(projects: seq<Project>, sets: seq<HardwareSet>, projectId: string, setId: string)
    requires AllNonNegative(projects)
    ensures var r := AdjustedProjects(projects, sets, projectId, setId, 0);
            && (forall i, s :: 0 <= i < |r| ==> QtyOf(r[i].hardware, s) == QtyOf(projects[i].hardware, s))
            && AvailabilityMap(sets, r) == AvailabilityMap(sets, projects)
  {
    var r := AdjustedProjects(projects, sets, projectId, setId, 0);
    AdjustFrame(projects, sets, projectId, setId, 0);
    forall i | 0 <= i < |r| && projects[i].id == projectId
      ensures QtyOf(r[i].hardware, setId) == QtyOf(projects[i].hardware, setId)
    {
      assert projects[i] in projects;
      AdjustTargetQuantity(projects, sets, projectId, setId, 0, i);
    }
    forall s ensures CheckedOut(r, s) == CheckedOut(projects, s) {
      CheckedOutPointwise(r, projects, s);
    }
    AvailabilityMapDependsOnTotals(sets, r, projects);
  }

  /** Invariant I1 is preserved: no adjustment makes a quantity negative. */
  lemma AdjustPreservesNonNegative(projects: seq<Project>, sets: seq<HardwareSet>, projectId: string, setId: string, delta: int)
    requires AllNonNegative(projects)
    ensures AllNonNegative(AdjustedProjects(projects, sets, projectId, setId, delta))
  {
    var r := AdjustedProjects(projects, sets, projectId, setId, delta);
    var available := CurrentlyAvailable(sets, projects, setId);
    forall p | p in r
      ensures StockNonNegative(p.hardware)
    {
      var i :| 0 <= i < |r| && r[i] == p;
      assert projects[i] in projects;
      WithQtyLookup(projects[i].hardware, setId, ClampedQty(QtyOf(projects[i].hardware, setId), delta, available));
    }
  }

  /** With unique project ids and non-negative quantities, the total for the adjusted set grows
      by at most what was available, and the total of every other set does not change. */
  lemma AdjustedTotals(projects: seq<Project>, sets: seq<HardwareSet>, projectId: string, setId: string, delta: int)
    requires UniqueProjectIds(projects) && AllNonNegative(projects)
    ensures var r := AdjustedProjects(projects, sets, projectId, setId, delta);
            && CheckedOut(r, setId) <= CheckedOut(projects, setId) + CurrentlyAvailable(sets, projects, setId)
            && forall s :: s != setId ==> CheckedOut(r, s) == CheckedOut(projects, s)
  {
    var r := AdjustedProjects(projects, sets, projectId, setId, delta);
    AdjustFrame(projects, sets, projectId, setId, delta);
    forall s | s != setId
      ensures CheckedOut(r, s) == CheckedOut(projects, s)
    {
      CheckedOutPointwise(r, projects, s);
    }
    if k :| 0 <= k < |projects| && projects[k].id == projectId {
      assert forall i :: 0 <= i < |projects| && i != k ==> projects[i].id != projectId;
      CheckedOutChangeAt(projects, r, k, setId);
      assert projects[k] in projects;
      AdjustTargetQuantity(projects, sets, projectId, setId, delta, k);
    } else {
      CheckedOutPointwise(r, projects, setId);
    }
  }

  /** Invariant I2 is preserved: when every set's total is within its capacity before the
      adjustment, and availability is read from that same list, it is still within capacity after. */
  lemma AdjustPreservesCapacity(projects: seq<Project>, sets: seq<HardwareSet>, projectId: string, setId: string, delta: int)
    requires UniqueSetIds(sets) && UniqueProjectIds(projects) && AllNonNegative(projects)
    requires WithinCapacity(sets, projects)
    ensures WithinCapacity(sets, AdjustedProjects(projects, sets, projectId, setId, delta))
  {
    var r := AdjustedProjects(projects, sets, projectId, setId, delta);
    AdjustedTotals(projects, sets, projectId, setId, delta);
    forall n | 0 <= n < |sets|
      ensures CheckedOut(r, sets[n].id) <= sets[n].capacity
    {
      if sets[n].id == setId {
        CurrentlyAvailableOf(sets, projects, n);
        assert CheckedOut(projects, setId) <= sets[n].capacity;
        assert CheckedOut(r, setId) <= CheckedOut(projects, setId) + CurrentlyAvailable(sets, projects, setId);
      } else {
        assert CheckedOut(r, sets[n].id) == CheckedOut(projects, sets[n].id);
      }
    }
  }

  /** A set id that names no hardware set has nothing available, so no adjustment can raise a
      quantity for it. */
  lemma AdjustUnknownSet(projects: seq<Project>, sets: seq<HardwareSet>, projectId: string, setId: string, delta: int)
    requires setId !in SetIds(sets) && AllNonNegative(projects)
    ensures var r := AdjustedProjects(projects, sets, projectId, setId, delta);
            forall i :: 0 <= i < |r| ==> QtyOf(r[i].hardware, setId) <= QtyOf(projects[i].hardware, setId)
  {
    var r := AdjustedProjects(projects, sets, projectId, setId, delta);
    forall i | 0 <= i < |r| && projects[i].id == projectId
      ensures QtyOf(r[i].hardware, setId) <= QtyOf(projects[i].hardware, setId)
    {
      assert projects[i] in projects;
      AdjustTargetQuantity(projects, sets, projectId, setId, delta, i);
    }
  }
}
