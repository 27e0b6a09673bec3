/** The background-operation bookkeeping every mutating handler performs
    (add, edit and delete in the student table and forms, the e-mail
    reminder switch): before the request it writes the list it captured at
    render time plus one new `'active'` entry at progress 50; after a
    successful request it writes that same captured list with the entry's id
    marked completed. */
module Tracker {
  import opened Common
  import opened Store

  const Active: string := "active"
  const Completed: string := "completed"

  /** The entry a handler appends when its request starts. */
  function StartEntry(id: int, name: string): Process {
    Process(id, name, 50, Active)
  }

  /** `[...captured, { id, name, progress: 50, status: 'active' }]`. */
  function Started(captured: seq<Process>, id: int, name: string): (r: seq<Process>)
    ensures |r| == |captured| + 1
    ensures r[..|captured|] == captured
    ensures r[|captured|] == StartEntry(id, name)
    ensures HasProcess(r, id)
  {
    captured + [StartEntry(id, name)]
  }

  /** The patch `{ progress: 100, status: 'completed' }`. */
  const Finished: ProcessPatch := ProcessPatch(None, None, Some(100), Some(Completed))

  /** `ps.map(p => p.id === id ? { ...p, progress: 100, status: 'completed' } : p)`. */
  function MarkCompleted(ps: seq<Process>, id: int): (r: seq<Process>)
    ensures |r| == |ps|
    ensures forall i :: 0 <= i < |ps| && ps[i].id == id ==> r[i] == ps[i].(progress := 100, status := Completed)
    ensures forall i :: 0 <= i < |ps| && ps[i].id != id ==> r[i] == ps[i]
    ensures !HasProcess(ps, id) ==> r == ps
  {
    var r := MergeProcesses(ps, id, Finished);
    assert !HasProcess(ps, id) ==> r == ps;
    r
  }

  /** Completing on the list captured before the entry was appended cannot
      find the entry: when the id is fresh, the captured list comes back
      unchanged and the entry is simply gone. */
  lemma CompletingCapturedDropsEntry(captured: seq<Process>, id: int, name: string)
    requires !HasProcess(captured, id)
    ensures HasProcess(Started(captured, id, name), id)
    ensures MarkCompleted(captured, id) == captured
    ensures !HasProcess(MarkCompleted(captured, id), id)
  {
  }

  /** Completing on the list that holds the entry marks exactly that entry. */
  lemma CompletingCurrentMarksEntry(captured: seq<Process>, id: int, name: string)
    requires !HasProcess(captured, id)
    ensures MarkCompleted(Started(captured, id, name), id)
         == captured + [Process(id, name, 100, Completed)]
  {
    var r := MarkCompleted(Started(captured, id, name), id);
    assert r[..|captured|] == captured;
  }
}
