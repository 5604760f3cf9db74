/** Joining and leaving a project. */
module Membership {
  import opened Allocation
  import opened Availability

  /** One project after the toggle callback: flipped when its id matches, otherwise as it was. */
  function Toggled(p: Project, projectId: string): (r: Project)
    ensures r.id == p.id && r.hardware == p.hardware
    ensures r.isMember <==> (p.isMember != (p.id == projectId))
  {
    if p.id == projectId then p.(isMember := !p.isMember) else p
  }

  /** `handleToggleMembership`'s updater: the `map` over the project list. */
  function ToggleMembership(projects: seq<Project>, projectId: string): (r: seq<Project>)
    ensures |r| == |projects|
    ensures forall i :: 0 <= i < |r| ==>
              && r[i].id == projects[i].id
              && r[i].hardware == projects[i].hardware
              && (r[i].isMember <==> (projects[i].isMember != (projects[i].id == projectId)))
  {
    seq(|projects|, i requires 0 <= i < |projects| => Toggled(projects[i], projectId))
  }

  /** Toggling the same id twice gives back the original list. */
  lemma ToggleTwice(projects: seq<Project>, projectId: string)
    ensures ToggleMembership(ToggleMembership(projects, projectId), projectId) == projects
  {
  }

  /** An id that no project has leaves the list unchanged. */
  lemma ToggleUnknownId(projects: seq<Project>, projectId: string)
    requires forall i :: 0 <= i < |projects| ==> projects[i].id != projectId
    ensures ToggleMembership(projects, projectId) == projects
  {
  }

  /** Toggling changes no checked-out total, so the availability map is the same before and after. */
  lemma TogglePreservesAvailability(sets: seq<HardwareSet>, projects: seq<Project>, projectId: string)
    ensures forall setId :: CheckedOut(ToggleMembership(projects, projectId), setId) == CheckedOut(projects, setId)
    ensures AvailabilityMap(sets, ToggleMembership(projects, projectId)) == AvailabilityMap(sets, projects)
  {
    var r := ToggleMembership(projects, projectId);
    forall setId ensures CheckedOut(r, setId) == CheckedOut(projects, setId) {
      CheckedOutPointwise(r, projects, setId);
    }
    AvailabilityMapDependsOnTotals(sets, r, projects);
  }

  /** Toggling keeps every quantity non-negative. */
  lemma TogglePreservesNonNegative(projects: seq<Project>, projectId: string)
    ensures AllNonNegative(projects) ==> AllNonNegative(ToggleMembership(projects, projectId))
  {
    var r := ToggleMembership(projects, projectId);
    if AllNonNegative(projects) {
      forall p | p in r ensures StockNonNegative(p.hardware) {
        var i :| 0 <= i < |r| && r[i] == p;
        assert projects[i] in projects;
      }
    }
  }
}
