/** The progress indicators (src/custom-components/ProgressIndicator.tsx and
    the mobile "System Status" list of src/custom-components/Navbar.tsx): both
    show the processes whose status is `"active"`, in store order. */
module Indicators {
  import opened Common
  import opened Store

  predicate IsActive(p: Process) {
    p.status == "active"
  }

  /** `processes.filter(p => p.status === "active")`, which both the
      indicator's tooltip and the Navbar's mobile list show. */
  function ActiveProcesses(ps: seq<Process>): (r: seq<Process>)
    ensures |r| <= |ps|
    ensures forall i :: 0 <= i < |r| ==> r[i].status == "active" && r[i] in ps
    ensures forall p :: p in ps && p.status == "active" ==> p in r
    ensures forall i :: 0 <= i < |r| ==> r[i].status != "completed"
  {
    Filter(ps, IsActive)
  }

  /** The indicator takes its idle branch ("All processes completed"); the
      Navbar's "All processes completed!" line is shown on the same
      condition. */
  predicate ShowsIdle(ps: seq<Process>)
    ensures ShowsIdle(ps) <==> forall p :: p in ps ==> p.status != "active"
  {
    FilterKeepsNone(ps);
    |ActiveProcesses(ps)| == 0
  }

  /** The number on the "n active" badge. */
  function BadgeCount(ps: seq<Process>): (n: nat)
    ensures n <= |ps|
    ensures n == 0 <==> ShowsIdle(ps)
    ensures (forall p :: p in ps ==> p.status == "active") ==> n == |ps|
  {
    FilterKeepsAll(ps, IsActive);
    |ActiveProcesses(ps)|
  }

  /** Filtering keeps nothing exactly when nothing is active. */
  lemma {:induction false} FilterKeepsNone(ps: seq<Process>)
    ensures |Filter(ps, IsActive)| == 0 <==> forall p :: p in ps ==> p.status != "active"
  {
    var r := Filter(ps, IsActive);
    if |r| > 0 {
      assert IsActive(r[0]) && r[0] in ps;
    }
  }

  /** The active list of a concatenation is the concatenation of the active
      lists: the indicators list processes in store order. */
  lemma ActiveKeepsOrder(ps: seq<Process>, qs: seq<Process>)
    ensures ActiveProcesses(ps + qs) == ActiveProcesses(ps) + ActiveProcesses(qs)
  {
    FilterConcat(ps, qs, IsActive);
  }

  /** Appending an entry adds it to the end of the active list exactly when
      it is active. */
  lemma ActiveAfterAppend(ps: seq<Process>, p: Process)
    ensures ActiveProcesses(ps + [p]) == ActiveProcesses(ps) + (if IsActive(p) then [p] else [])
  {
    FilterConcat(ps, [p], IsActive);
    assert Filter([p], IsActive) == (if IsActive(p) then [p] else []) by {
      assert [p][1..] == [];
    }
  }
}
