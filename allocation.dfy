/** The records of the hardware-allocation ledger and the checked-out total per hardware set. */
module Allocation {

  datatype Option<T> = None | Some(value: T)

  /** One `{setId, qty}` record in a project's `hardware` list. */
  datatype Entry = Entry(setId: string, qty: int)

  /** A project, reduced to the fields the ledger reads or writes. */
  datatype Project = Project(id: string, isMember: bool, hardware: seq<Entry>)

  /** A shared pool of identical units; its capacity never changes. */
  datatype HardwareSet = HardwareSet(id: string, capacity: nat)

  /** `Math.max` on two integers. */
  function Max(a: int, b: int): int
  {
    if a < b then b else a
  }

  /** `Math.min` on two integers. */
  function Min(a: int, b: int): int
  {
    if a < b then a else b
  }

  /** `hardware.find(h => h.setId === setId)`: the first entry for the set, if any. */
  function Find(hardware: seq<Entry>, setId: string): (r: Option<Entry>)
    ensures r.Some? ==> r.value in hardware && r.value.setId == setId
    ensures r.None? <==> forall j :: 0 <= j < |hardware| ==> hardware[j].setId != setId
  {
    if hardware == [] then None
    else if hardware[0].setId == setId then Some(hardware[0])
    else Find(hardware[1..], setId)
  }

  /** `hardware.findIndex(h => h.setId === setId)`: the first index for the set, or -1. */
  function FindIndex(hardware: seq<Entry>, setId: string): (idx: int)
    ensures -1 <= idx < |hardware|
    ensures 0 <= idx ==> hardware[idx].setId == setId
    ensures forall j :: 0 <= j < |hardware| && (idx < 0 || j < idx) ==> hardware[j].setId != setId
  {
    if hardware == [] then -1
    else if hardware[0].setId == setId then 0
    else
      var k := FindIndex(hardware[1..], setId);
      if k < 0 then -1 else k + 1
  }

  /** Any index that is the first match (or -1 when there is none) is the one `FindIndex` returns. */
  lemma FindIndexIs(hardware: seq<Entry>, setId: string, idx: int)
    requires -1 <= idx < |hardware|
    requires 0 <= idx ==> hardware[idx].setId == setId
    requires forall j :: 0 <= j < |hardware| && (idx < 0 || j < idx) ==> hardware[j].setId != setId
    ensures FindIndex(hardware, setId) == idx
  {
  }

  /** `find` and `findIndex` agree: `find` returns the entry at the index `findIndex` reports. */
  lemma {:induction false} FindAgreesWithFindIndex(hardware: seq<Entry>, setId: string)
    ensures var idx := FindIndex(hardware, setId);
            Find(hardware, setId) == if idx < 0 then None else Some(hardware[idx])
  {
    if hardware != [] && hardware[0].setId != setId {
      FindAgreesWithFindIndex(hardware[1..], setId);
    }
  }

  /** Every recorded quantity of one project is non-negative. */
  predicate StockNonNegative(hardware: seq<Entry>)
  {
    forall e :: e in hardware ==> e.qty >= 0
  }

  /** Invariant I1: every quantity of every project is non-negative. */
  predicate AllNonNegative(projects: seq<Project>)
  {
    forall p :: p in projects ==> StockNonNegative(p.hardware)
  }

  /** No two projects share an id. */
  predicate UniqueProjectIds(projects: seq<Project>)
  {
    forall i, j :: 0 <= i < j < |projects| ==> projects[i].id != projects[j].id
  }

  /** `entry ? entry.qty : 0` for the entry `find` returns: an absent entry counts as 0. */
  function QtyOf(hardware: seq<Entry>, setId: string): (q: int)
    ensures var idx := FindIndex(hardware, setId);
            q == if idx < 0 then 0 else hardware[idx].qty
    ensures StockNonNegative(hardware) ==> q >= 0
  {
    FindAgreesWithFindIndex(hardware, setId);
    match Find(hardware, setId)
    case Some(e) => e.qty
    case None => 0
  }

  /** Reference definition of the checked-out total: the sum, over the projects,
      of each project's quantity for the set. */
  function CheckedOut(projects: seq<Project>, setId: string): int
  {
    if projects == [] then 0
    else QtyOf(projects[0].hardware, setId) + CheckedOut(projects[1..], setId)
  }

  /** The `reduce` in `sumCheckedOutAcrossProjects`, with its accumulator. */
  function Reduce(projects: seq<Project>, setId: string, acc: int): (total: int)
    ensures total == acc + CheckedOut(projects, setId)
  {
    if projects == [] then acc
    else Reduce(projects[1..], setId, acc + QtyOf(projects[0].hardware, setId))
  }

  /** `sumCheckedOutAcrossProjects(projects, setId)`: the fold started at 0. */
  function SumCheckedOut(projects: seq<Project>, setId: string): (total: int)
    ensures total == CheckedOut(projects, setId)
    ensures AllNonNegative(projects) ==> total >= 0
  {
    CheckedOutNonNegative(projects, setId);
    Reduce(projects, setId, 0)
  }

  /** With non-negative quantities the checked-out total is non-negative. */
  lemma {:induction false} CheckedOutNonNegative(projects: seq<Project>, setId: string)
    ensures AllNonNegative(projects) ==> CheckedOut(projects, setId) >= 0
  {
    if projects != [] && AllNonNegative(projects) {
      assert projects[0] in projects;
      assert forall p :: p in projects[1..] ==> p in projects;
      CheckedOutNonNegative(projects[1..], setId);
    }
  }

  /** Two project lists that agree, position by position, on the quantity for a set
      have the same checked-out total for it. */
  lemma {:induction false} CheckedOutPointwise(a: seq<Project>, b: seq<Project>, setId: string)
    requires |a| == |b|
    requires forall i :: 0 <= i < |a| ==> QtyOf(a[i].hardware, setId) == QtyOf(b[i].hardware, setId)
    ensures CheckedOut(a, setId) == CheckedOut(b, setId)
  {
    if a != [] {
      CheckedOutPointwise(a[1..], b[1..], setId);
    }
  }

  /** When two lists differ in the quantity for a set at position `k` only, the totals
      differ by exactly the change at `k`. */
  lemma {:induction false} CheckedOutChangeAt(a: seq<Project>, b: seq<Project>, k: nat, setId: string)
    requires |a| == |b| && k < |a|
    requires forall i :: 0 <= i < |a| && i != k ==> QtyOf(a[i].hardware, setId) == QtyOf(b[i].hardware, setId)
    ensures CheckedOut(b, setId) == CheckedOut(a, setId) - QtyOf(a[k].hardware, setId) + QtyOf(b[k].hardware, setId)
  {
    if k == 0 {
      CheckedOutPointwise(a[1..], b[1..], setId);
    } else {
      CheckedOutChangeAt(a[1..], b[1..], k - 1, setId);
    }
  }
}
