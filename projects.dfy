/** The state the `Projects` component keeps, seeded from the mock data, and its two handlers. */
module Projects {
  import opened Allocation
  import opened Availability
  import opened Membership
  import opened Checkout

  /** `INITIAL_HARDWARE_SETS`. */
  function InitialHardwareSets(): (sets: seq<HardwareSet>)
    ensures |sets| == 3 && UniqueSetIds(sets)
    ensures SetIds(sets) == {"hs1", "hs2", "hs3"}
  {
    SeedIdsDistinct();
    [HardwareSet("hs1", 20), HardwareSet("hs2", 12), HardwareSet("hs3", 8)]
  }

  /** `INITIAL_PROJECTS`, without the display-only fields. */
  function InitialProjects(): (projects: seq<Project>)
    ensures |projects| == 3 && UniqueProjectIds(projects) && AllNonNegative(projects)
  {
    SeedIdsDistinct();
    [ Project("p1", true, [Entry("hs1", 6), Entry("hs2", 2)]),
      Project("p2", false, [Entry("hs2", 3), Entry("hs3", 2)]),
      Project("p3", false, [Entry("hs1", 2)]) ]
  }

  /** The three set ids and the three project ids of the seed data are distinct strings. */
  lemma SeedIdsDistinct()
    ensures "hs1" != "hs2" && "hs1" != "hs3" && "hs2" != "hs3"
    ensures "p1" != "p2" && "p1" != "p3" && "p2" != "p3"
  {
    assert "hs1"[2] == '1' && "hs2"[2] == '2' && "hs3"[2] == '3';
    assert "p1"[1] == '1' && "p2"[1] == '2' && "p3"[1] == '3';
  }

  /** The seed data checks out 8 units of hs1, 5 of hs2 and 2 of hs3. */
  lemma SeedTotals()
    ensures CheckedOut(InitialProjects(), "hs1") == 8
    ensures CheckedOut(InitialProjects(), "hs2") == 5
    ensures CheckedOut(InitialProjects(), "hs3") == 2
  {
    SeedIdsDistinct();
    var ps := InitialProjects();
    assert QtyOf(ps[0].hardware, "hs1") == 6 && QtyOf(ps[1].hardware, "hs1") == 0 && QtyOf(ps[2].hardware, "hs1") == 2;
    assert QtyOf(ps[0].hardware, "hs2") == 2 && QtyOf(ps[1].hardware, "hs2") == 3 && QtyOf(ps[2].hardware, "hs2") == 0;
    assert QtyOf(ps[0].hardware, "hs3") == 0 && QtyOf(ps[1].hardware, "hs3") == 2 && QtyOf(ps[2].hardware, "hs3") == 0;
    assert ps[1..][1..][1..] == [];
  }

  /** The seed data meets invariants I1 and I2, and its availability map reads 12 of 20, 7 of 12
      and 6 of 8. */
  lemma SeedIsValid()
    ensures UniqueSetIds(InitialHardwareSets()) && UniqueProjectIds(InitialProjects())
    ensures AllNonNegative(InitialProjects())
    ensures WithinCapacity(InitialHardwareSets(), InitialProjects())
    ensures AvailabilityMap(InitialHardwareSets(), InitialProjects())
         == map["hs1" := SetAvailability(20, 12), "hs2" := SetAvailability(12, 7), "hs3" := SetAvailability(8, 6)]
  {
    SeedIdsDistinct();
    SeedTotals();
    var sets, ps := InitialHardwareSets(), InitialProjects();
    assert sets[..2][..1][..0] == [];
    assert AvailabilityMap(sets[..1], ps) == map["hs1" := SetAvailability(20, 12)];
    assert AvailabilityMap(sets[..2], ps) == map["hs1" := SetAvailability(20, 12), "hs2" := SetAvailability(12, 7)];
  }

  /** The walk-through of a shared set, first step: with hs1 of capacity 20 and p1 holding 6,
      14 are available, and p2 checking out 14 gets all of them (a new entry is appended). */
  lemma ScenarioCheckoutAll()
    ensures var sets := [HardwareSet("hs1", 20)];
            var before := [Project("p1", true, [Entry("hs1", 6)]), Project("p2", true, [])];
            && CurrentlyAvailable(sets, before, "hs1") == 14
            && AdjustedProjects(before, sets, "p2", "hs1", 14)
               == [Project("p1", true, [Entry("hs1", 6)]), Project("p2", true, [Entry("hs1", 14)])]
  {
    var sets := [HardwareSet("hs1", 20)];
    var before := [Project("p1", true, [Entry("hs1", 6)]), Project("p2", true, [])];
    assert "p1" != "p2" by {
      assert "p1"[1] != "p2"[1];
    }
    assert CheckedOut(before, "hs1") == 6 by {
      assert before[1..][1..] == [];
    }
    CurrentlyAvailableOf(sets, before, 0);
    var r := AdjustedProjects(before, sets, "p2", "hs1", 14);
    assert r[0] == before[0];
    assert WithQty([], "hs1", 14) == [Entry("hs1", 14)];
    assert r[1] == Project("p2", true, [Entry("hs1", 14)]);
  }

  /** The walk-through, second step: once p2 holds 14, nothing is available, and p1's request for
      one more unit is clamped away, leaving the list as it was. */
  lemma ScenarioClampOnIncrease()
    ensures var sets := [HardwareSet("hs1", 20)];
            var after := [Project("p1", true, [Entry("hs1", 6)]), Project("p2", true, [Entry("hs1", 14)])];
            && CurrentlyAvailable(sets, after, "hs1") == 0
            && AdjustedProjects(after, sets, "p1", "hs1", 1) == after
  {
    var sets := [HardwareSet("hs1", 20)];
    var after := [Project("p1", true, [Entry("hs1", 6)]), Project("p2", true, [Entry("hs1", 14)])];
    assert "p1" != "p2" by {
      assert "p1"[1] != "p2"[1];
    }
    assert CheckedOut(after, "hs1") == 20 by {
      assert after[1..][1..] == [];
    }
    CurrentlyAvailableOf(sets, after, 0);
    var r := AdjustedProjects(after, sets, "p1", "hs1", 1);
    assert r[1] == after[1];
    assert r[0] == after[0] by {
      assert QtyOf(after[0].hardware, "hs1") == 6;
      assert WithQty(after[0].hardware, "hs1", 6) == after[0].hardware;
    }
  }

  /** Why the capacity bound asks for unique project ids: two projects sharing an id are both
      adjusted against the same availability, and together they overshoot the capacity. */
  lemma DuplicateProjectIdsCanExceedCapacity()
    ensures var sets := [HardwareSet("hs1", 1)];
            var projects := [Project("p", true, []), Project("p", true, [])];
            && WithinCapacity(sets, projects)
            && !WithinCapacity(sets, AdjustedProjects(projects, sets, "p", "hs1", 1))
  {
    var sets := [HardwareSet("hs1", 1)];
    var projects := [Project("p", true, []), Project("p", true, [])];
    assert CheckedOut(projects, "hs1") == 0 by {
      assert projects[1..][1..] == [];
    }
    CurrentlyAvailableOf(sets, projects, 0);
    var r := AdjustedProjects(projects, sets, "p", "hs1", 1);
    assert WithQty([], "hs1", 1) == [Entry("hs1", 1)];
    assert AdjustProject(projects[0], "p", "hs1", 1, 1) == Project("p", true, [Entry("hs1", 1)]);
    assert r == [Project("p", true, [Entry("hs1", 1)]), Project("p", true, [Entry("hs1", 1)])];
    assert CheckedOut(r, "hs1") == 2 by {
      assert r[1..][1..] == [];
    }
  }

  /** The component's state: `projects` is the value `setProjects` replaces, `hardwareSets` never
      changes. `Valid` collects unique ids and invariants I1 and I2. */
  class ProjectsState {
    var projects: seq<Project>
    const hardwareSets: seq<HardwareSet>

    ghost predicate Valid()
      reads this
    {
      && UniqueSetIds(hardwareSets)
      && UniqueProjectIds(projects)
      && AllNonNegative(projects)
      && WithinCapacity(hardwareSets, projects)
    }

    /** `useState(INITIAL_PROJECTS)` and `useState(INITIAL_HARDWARE_SETS)`. */
    constructor ()
      ensures Valid()
      ensures projects == InitialProjects() && hardwareSets == InitialHardwareSets()
    {
      projects := InitialProjects();
      hardwareSets := InitialHardwareSets();
      new;
      SeedIsValid();
    }

    /** The `availability` the component renders, recomputed from the current projects; in a
        valid state every record has `0 <= available <= capacity`. */
    method CurrentAvailability() returns (availability: map<string, SetAvailability>)
      ensures availability == AvailabilityMap(hardwareSets, projects)
      ensures Valid() ==> forall k :: k in availability ==> 0 <= availability[k].available <= availability[k].capacity
    {
      availability := ComputeAvailability(hardwareSets, projects);
      forall k | k in availability
        ensures 0 <= availability[k].available
        ensures AllNonNegative(projects) ==> availability[k].available <= availability[k].capacity
      {
        AvailabilityMapBounds(hardwareSets, projects, k);
      }
    }

    /** `handleToggleMembership`: replaces the projects with the toggled list. */
    method HandleToggleMembership(projectId: string)
      requires Valid()
      modifies this
      ensures Valid()
      ensures projects == ToggleMembership(old(projects), projectId)
    {
      TogglePreservesAvailability(hardwareSets, projects, projectId);
      TogglePreservesNonNegative(projects, projectId);
      projects := ToggleMembership(projects, projectId);
    }

    /** `handleAdjustCheckout`: replaces the projects with the adjusted list. */
    method HandleAdjustCheckout(projectId: string, setId: string, delta: int)
      requires Valid()
      modifies this
      ensures Valid()
      ensures projects == AdjustedProjects(old(projects), hardwareSets, projectId, setId, delta)
    {
      var next := AdjustCheckout(projects, hardwareSets, projectId, setId, delta);
      AdjustFrame(projects, hardwareSets, projectId, setId, delta);
      AdjustPreservesNonNegative(projects, hardwareSets, projectId, setId, delta);
      AdjustPreservesCapacity(projects, hardwareSets, projectId, setId, delta);
      projects := next;
    }
  }
}
