/**
  Finishing a restore: what has been published under one name is moved into place, at the
  next start. A crash or a failing call may come anywhere, also within a removal.
 */
module FinishRestore {
  import opened Wrappers
  import opened Files

  predicate HasRestore(work: Directory) {
    RESTORE in work && work[RESTORE].Dir?
  }

  // What is still to be moved.
  function Pending(work: Directory): Directory {
    if HasRestore(work) then work[RESTORE].entries else map[]
  }

  // The work directory with everything pending in place.
  function Target(work: Directory): Directory {
    if HasRestore(work) then (work - {RESTORE}) + Pending(work) else work
  }

  // An archive with a top-level entry of the very name it is published under.
  predicate NamesItself(work: Directory) {
    RESTORE in Pending(work)
  }

  // Renames a pending entry into place; a directory is neither replaced nor put over a file.
  function MovedIntoPlace(work: Directory, name: string): Option<Directory>
    requires name in Pending(work)
  {
    if name in work && (work[name].Dir? || Pending(work)[name].Dir?) then None
    else Some(work[name := Pending(work)[name]][RESTORE := Dir(Pending(work) - {name})])
  }

  ghost predicate Lists(names: seq<string>, dir: Directory) {
    && (forall name :: name in names <==> name in dir)
    && (forall i, j :: 0 <= i < j < |names| ==> names[i] != names[j])
  }

  datatype Phase =
    | Starting
    | Removing(todo: seq<string>)
    | Moving(todo: seq<string>)
    | Dropping
    | Finished(ok: bool)
    // the first look at the restore directory has failed, which counts as there being none
    | Skipped
    // another file system call has failed
    | Aborted

  datatype State = State(work: Directory, phase: Phase)

  // One file system call, a failing one, or a crash; either has the restore start again later. The
  // removal of an existing tree may be cut short anywhere and leave anything of it behind.
  ghost predicate FinishStep(s: State, t: State) {
    || t == State(s.work, Starting)
    || (s.phase == Starting && t == State(s.work, Skipped))
    || (InProgress(s.phase) && t == State(s.work, Aborted))
    || (match s.phase
        case Starting =>
          && t.work == s.work
          && if HasRestore(s.work) then t.phase.Removing? && Lists(t.phase.todo, Pending(s.work)) else t.phase == Finished(true)
        case Removing(todo) =>
          if todo == [] then
            t.work == s.work && t.phase.Moving? && Lists(t.phase.todo, Pending(s.work))
          else if todo[0] == RESTORE then
            t == State(s.work, Removing(todo[1..]))
          else
            || t == State(s.work - {todo[0]}, Removing(todo[1..]))
            || PartlyRemoved(s, t, todo[0])
        case Moving(todo) =>
          if todo == [] then
            t == State(s.work, Dropping)
          else if todo[0] !in Pending(s.work) || MovedIntoPlace(s.work, todo[0]).None? then
            t == State(s.work, Finished(false))
          else
            t == State(MovedIntoPlace(s.work, todo[0]).value, Moving(todo[1..]))
        case Dropping =>
          t == State(s.work - {RESTORE}, Finished(true))
        case Finished(_) => t == s
        case Skipped => t == s
        case Aborted => t == s)
  }

  predicate InProgress(phase: Phase) {
    phase.Starting? || phase.Removing? || phase.Moving? || phase.Dropping?
  }

  // No error is returned.
  predicate EndsWell(phase: Phase) {
    phase == Finished(true) || phase == Skipped
  }

  ghost predicate PartlyRemoved(s: State, t: State, name: string) {
    name in s.work && name in t.work && t == State(s.work[name := t.work[name]], s.phase)
  }

  ghost predicate FinishRun(run: seq<State>) {
    && run != []
    && run[0].phase == Starting
    && (forall i :: 0 < i < |run| ==> FinishStep(run[i - 1], run[i]))
  }

  // Every pending entry but those still listed has no namesake in the way.
  ghost predicate Cleared(work: Directory, todo: seq<string>) {
    forall name :: name in Pending(work) && name !in todo && name != RESTORE ==> name !in work
  }

  ghost predicate OnTrack(s: State, goal: Directory, nested: bool) {
    && Target(s.work) == goal
    && NamesItself(s.work) == nested
    && match s.phase
       case Starting => true
       case Removing(todo) => HasRestore(s.work) && (forall name :: name in todo ==> name in Pending(s.work)) && Cleared(s.work, todo)
       case Moving(todo) => HasRestore(s.work) && Lists(todo, Pending(s.work)) && Cleared(s.work, [])
       case Dropping => HasRestore(s.work) && Pending(s.work) == map[]
       case Finished(ok) => ok == !nested && (ok ==> s.work == goal)
       case Skipped => true
       case Aborted => true
  }

  // What a pending entry will replace does not matter.
  lemma {:induction false} TargetIgnoresReplaced(a: Directory, b: Directory)
    requires HasRestore(a) && HasRestore(b) && Pending(a) == Pending(b)
    requires forall name :: name !in Pending(a) && name != RESTORE ==> (name in a <==> name in b)
    requires forall name :: name in a && name in b && name !in Pending(a) && name != RESTORE ==> a[name] == b[name]
    ensures Target(a) == Target(b)
  {
    var x, y := Target(a), Target(b);
    assert forall name :: name in x <==> name in y;
    assert forall name :: name in x ==> x[name] == y[name];
  }

  lemma {:induction false} MoveKeepsTarget(work: Directory, name: string)
    requires name in Pending(work) && MovedIntoPlace(work, name).Some?
    ensures name != RESTORE
    ensures var moved := MovedIntoPlace(work, name).value;
            HasRestore(moved) && Pending(moved) == Pending(work) - {name} && Target(moved) == Target(work)
  {
    var moved := MovedIntoPlace(work, name).value;
    assert Target(moved) == Target(work);
  }

  lemma {:induction false} RemovalKeepsTrack(s: State, t: State, goal: Directory, nested: bool)
    requires OnTrack(s, goal, nested) && s.phase.Removing? && FinishStep(s, t)
    ensures OnTrack(t, goal, nested)
  {
    var todo := s.phase.todo;
    if todo != [] && todo[0] != RESTORE {
      assert HasRestore(t.work) && Pending(t.work) == Pending(s.work);
      TargetIgnoresReplaced(s.work, t.work);
    }
  }

  lemma {:induction false} MoveKeepsTrack(s: State, t: State, goal: Directory, nested: bool)
    requires OnTrack(s, goal, nested) && s.phase.Moving? && FinishStep(s, t)
    ensures OnTrack(t, goal, nested)
  {
    var todo := s.phase.todo;
    if todo == [] {
      assert Pending(s.work) == map[];
    } else if MovedIntoPlace(s.work, todo[0]).Some? {
      MoveKeepsTarget(s.work, todo[0]);
    }
  }

  lemma {:induction false} FinishStepKeepsTrack(s: State, t: State, goal: Directory, nested: bool)
    requires OnTrack(s, goal, nested) && FinishStep(s, t)
    ensures OnTrack(t, goal, nested)
  {
    match s.phase
    case Starting =>
    case Removing(_) => RemovalKeepsTrack(s, t, goal, nested);
    case Moving(_) => MoveKeepsTrack(s, t, goal, nested);
    case Dropping =>
    case Finished(_) =>
    case Skipped =>
    case Aborted =>
  }

  lemma {:induction false} FinishRunPrefix(run: seq<State>)
    requires FinishRun(run) && |run| > 1
    ensures FinishRun(run[..|run| - 1]) && FinishStep(run[|run| - 2], run[|run| - 1])
  {
    var init := run[..|run| - 1];
    forall i | 0 < i < |init|
      ensures FinishStep(init[i - 1], init[i])
    {
      assert init[i - 1] == run[i - 1] && init[i] == run[i];
    }
  }

  lemma {:induction false} RunStaysOnTrack(run: seq<State>)
    requires FinishRun(run)
    ensures OnTrack(run[|run| - 1], Target(run[0].work), NamesItself(run[0].work))
    decreases |run|
  {
    if |run| == 1 {
    } else {
      var n := |run| - 1;
      FinishRunPrefix(run);
      RunStaysOnTrack(run[..n]);
      FinishStepKeepsTrack(run[n - 1], run[n], Target(run[0].work), NamesItself(run[0].work));
    }
  }

  // A pending restore is never in place already, as no directory holds itself.
  lemma {:induction false} PendingIsNotInPlace(work: Directory)
    requires HasRestore(work)
    ensures Target(work) != work
  {
  }

  /**
    However often the restore is interrupted, between calls, within a removal or by a failing
    call, and run again, the files it will leave never change. A run to its end ends well with
    them in place exactly when the archive has no top-level entry named like the restore
    directory and the first look did not fail to see that directory.
   */
  lemma {:induction false} CrashesDoNotMatter(run: seq<State>)
    requires FinishRun(run)
    ensures var first, last := run[0], run[|run| - 1];
            && Target(last.work) == Target(first.work)
            && NamesItself(last.work) == NamesItself(first.work)
            && (last.phase.Finished? ==> last.phase.ok == !NamesItself(first.work))
            && (last.phase == Finished(true) ==> last.work == Target(first.work))
            && (!InProgress(last.phase) && last.phase != Aborted ==>
                  (EndsWell(last.phase) && last.work == Target(first.work)
                   <==> !NamesItself(first.work) && (last.phase == Skipped ==> !HasRestore(last.work))))
  {
    RunStaysOnTrack(run);
    var last := run[|run| - 1];
    if HasRestore(last.work) {
      PendingIsNotInPlace(last.work);
    }
  }

  // Once its namesake is gone, or it is the restore directory's own, an entry need not be listed any more.
  lemma {:induction false} RemovalClears(work: Directory, less: Directory, todo: seq<string>)
    requires todo != [] && Cleared(work, todo) && Pending(less) == Pending(work)
    requires less - {todo[0]} == work - {todo[0]} && (todo[0] == RESTORE || todo[0] !in less)
    ensures Cleared(less, todo[1..])
  {
    assert forall name :: name in less && name != todo[0] ==> name in less - {todo[0]};
    assert todo == [todo[0]] + todo[1..];
  }

  lemma {:induction false} MoveKeepsCleared(work: Directory, todo: seq<string>)
    requires HasRestore(work) && todo != [] && Lists(todo, Pending(work)) && Cleared(work, [])
    requires MovedIntoPlace(work, todo[0]).Some?
    ensures var moved := MovedIntoPlace(work, todo[0]).value;
            && HasRestore(moved) && Target(moved) == Target(work) && NamesItself(moved) == NamesItself(work)
            && Lists(todo[1..], Pending(moved)) && Cleared(moved, [])
  {
    MoveKeepsTarget(work, todo[0]);
  }

  lemma {:induction false} RemovalKeepsPending(work: Directory, less: Directory, name: string)
    requires name in Pending(work) && name != RESTORE && less - {name} == work - {name}
    ensures HasRestore(less) && Pending(less) == Pending(work) && Target(less) == Target(work)
  {
    var x, y := work - {name}, less - {name};
    assert forall n :: n in work && n != name ==> n in x && x[n] == work[n];
    assert forall n :: n in less && n != name ==> n in y && y[n] == less[n];
    assert RESTORE in x && RESTORE in y;
    TargetIgnoresReplaced(work, less);
  }

  lemma {:induction false} EmptyRestoreDropped(work: Directory, after: Directory)
    requires HasRestore(work) && Pending(work) == map[] && after - {RESTORE} == work - {RESTORE}
    requires RESTORE in after ==> Remains(work[RESTORE], after[RESTORE])
    ensures Target(after) == Target(work)
    ensures RESTORE !in after ==> after == Target(work)
  {
    if RESTORE in after {
      assert after[RESTORE] == Dir(map[]);
    } else {
      assert after == after - {RESTORE};
    }
  }
}
