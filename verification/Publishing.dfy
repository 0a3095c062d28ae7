/**
  Restoring a backup: the archive is extracted beside the files it replaces and published under
  one name, to be moved into place at the next start. Any step may fail or be the last before a crash.
 */
module Publishing {
  import opened Wrappers
  import opened Files
  import opened FinishRestore
  import opened Extraction

  datatype Progress =
    | Extracting(done: nat, torn: bool)
    | Clearing
    | Publishing
    | Returned(ok: bool)

  datatype Attempt = Attempt(work: Directory, progress: Progress)

  // One step of restoring an archive, any of which may fail. Writing an entry leaves anything in the
  // staging directory until it is complete, and a removal that fails may leave a part.
  ghost predicate RestoreStep(archive: seq<Entry>, staging: string, s: Attempt, t: Attempt) {
    match s.progress
    case Extracting(done, torn) =>
      || t == Attempt(s.work - {staging}, Returned(false))
      || (done == |archive| && !torn && t == Attempt(s.work, Clearing))
      || (&& done < |archive| && staging in t.work && t.work == s.work[staging := t.work[staging]]
          && (|| t.progress == Extracting(done, true)
              || (t.progress == Extracting(done + 1, false) && Some(t.work[staging]) == Extracted(archive[..done + 1]))))
    case Clearing =>
      || t == Attempt(s.work - {RESTORE}, Publishing)
      || t == Attempt(s.work - {staging}, Returned(false))
      || (&& t.progress == Clearing && RESTORE in s.work && RESTORE in t.work && Remains(s.work[RESTORE], t.work[RESTORE])
          && t.work == s.work[RESTORE := t.work[RESTORE]])
    case Publishing =>
      && staging in s.work
      && (|| t == Attempt(s.work[RESTORE := s.work[staging]] - {staging}, Returned(true))
          || t == Attempt(s.work - {staging}, Returned(false)))
    case Returned(_) =>
      t == s
  }

  ghost predicate RestoreRun(archive: seq<Entry>, staging: string, run: seq<Attempt>) {
    && run != [] && archive != []
    && staging != RESTORE
    && run[0].progress == Extracting(0, false) && staging in run[0].work && run[0].work[staging] == EMPTY
    && (forall i :: 0 < i < |run| ==> RestoreStep(archive, staging, run[i - 1], run[i]))
  }

  // Beside the staging directory, nothing but what was published before may be missing, or missing in part.
  ghost predicate Remaining(staging: string, before: Directory, now: Directory) {
    && now - {staging} - {RESTORE} == before - {staging} - {RESTORE}
    && (RESTORE in now ==> RESTORE in before && Remains(before[RESTORE], now[RESTORE]))
  }

  lemma {:induction false} UntouchedRemains(staging: string, before: Directory, now: Directory)
    requires staging != RESTORE && now - {staging} == before - {staging}
    ensures Remaining(staging, before, now)
  {
    var x, y := before - {staging}, now - {staging};
    assert RESTORE in now ==> RESTORE in y && y[RESTORE] == now[RESTORE];
    assert RESTORE in before ==> RESTORE in x && x[RESTORE] == before[RESTORE];
    if RESTORE in before {
      RemainsRefl(before[RESTORE]);
    }
  }

  lemma {:induction false} GoneRemains(staging: string, before: Directory, cleared: Directory, now: Directory)
    requires staging != RESTORE && RESTORE !in cleared && now - {staging} == cleared - {staging}
    requires cleared - {staging} == before - {RESTORE} - {staging}
    ensures Remaining(staging, before, now)
  {
    assert RESTORE !in now by {
      assert RESTORE in now ==> RESTORE in now - {staging};
    }
    assert now - {staging} - {RESTORE} == before - {staging} - {RESTORE};
  }

  lemma {:induction false} LessRemains(staging: string, before: Directory, now: Directory, later: Directory)
    requires Remaining(staging, before, now) && staging != RESTORE
    requires later - {staging} - {RESTORE} == now - {staging} - {RESTORE}
    requires RESTORE in later ==> RESTORE in now && Remains(now[RESTORE], later[RESTORE])
    ensures Remaining(staging, before, later)
  {
    if RESTORE in later {
      RemainsTrans(before[RESTORE], now[RESTORE], later[RESTORE]);
    }
  }

  ghost predicate Sound(archive: seq<Entry>, staging: string, before: Directory, s: Attempt) {
    match s.progress
    case Extracting(done, torn) =>
      && done <= |archive| && staging in s.work && s.work - {staging} == before - {staging}
      && (!torn ==> Some(s.work[staging]) == Extracted(archive[..done]))
    case Clearing =>
      Remaining(staging, before, s.work) && staging in s.work && Some(s.work[staging]) == Extracted(archive)
    case Publishing =>
      && s.work - {staging} == before - {staging} - {RESTORE}
      && staging in s.work && Some(s.work[staging]) == Extracted(archive)
    case Returned(ok) =>
      if ok then Extracted(archive).Some? && s.work == (before - {staging})[RESTORE := Extracted(archive).value]
      else Remaining(staging, before, s.work)
  }

  lemma {:induction false} ExtractingStaysSound(archive: seq<Entry>, staging: string, before: Directory, s: Attempt,
                                                t: Attempt)
    requires staging != RESTORE && Sound(archive, staging, before, s) && RestoreStep(archive, staging, s, t)
    requires s.progress.Extracting?
    ensures Sound(archive, staging, before, t)
  {
    assert archive[..|archive|] == archive;
    if t.progress.Extracting? {
      assert t.work - {staging} == s.work - {staging};
    } else {
      assert t.work - {staging} == s.work - {staging};
      UntouchedRemains(staging, before, t.work);
    }
  }

  lemma {:induction false} PublishingStaysSound(archive: seq<Entry>, staging: string, before: Directory, s: Attempt,
                                                t: Attempt)
    requires staging != RESTORE && Sound(archive, staging, before, s) && RestoreStep(archive, staging, s, t)
    requires s.progress.Publishing?
    ensures Sound(archive, staging, before, t)
  {
    if t.progress == Returned(true) {
      assert t.work == (s.work - {staging})[RESTORE := s.work[staging]];
      assert (before - {staging} - {RESTORE})[RESTORE := s.work[staging]]
             == (before - {staging})[RESTORE := s.work[staging]];
    } else {
      assert t.work - {staging} - {RESTORE} == before - {staging} - {RESTORE};
    }
  }

  lemma {:induction false} ClearingStaysSound(archive: seq<Entry>, staging: string, before: Directory, s: Attempt,
                                              t: Attempt)
    requires staging != RESTORE && Sound(archive, staging, before, s) && RestoreStep(archive, staging, s, t)
    requires s.progress.Clearing?
    ensures Sound(archive, staging, before, t)
  {
    assert t.work - {staging} - {RESTORE} == s.work - {staging} - {RESTORE};
    if t.progress.Publishing? {
      assert t.work - {staging} == s.work - {staging} - {RESTORE};
    } else {
      if RESTORE in s.work {
        RemainsRefl(s.work[RESTORE]);
      }
      LessRemains(staging, before, s.work, t.work);
    }
  }

  lemma {:induction false} RestoreStepStaysSound(archive: seq<Entry>, staging: string, before: Directory, s: Attempt,
                                                 t: Attempt)
    requires staging != RESTORE && Sound(archive, staging, before, s) && RestoreStep(archive, staging, s, t)
    ensures Sound(archive, staging, before, t)
  {
    match s.progress
    case Extracting(_, _) => ExtractingStaysSound(archive, staging, before, s, t);
    case Clearing => ClearingStaysSound(archive, staging, before, s, t);
    case Publishing => PublishingStaysSound(archive, staging, before, s, t);
    case Returned(_) =>
  }

  lemma {:induction false} RestoreStaysSound(archive: seq<Entry>, staging: string, run: seq<Attempt>)
    requires RestoreRun(archive, staging, run)
    ensures Sound(archive, staging, run[0].work, run[|run| - 1])
    decreases |run|
  {
    var n := |run| - 1;
    if n > 0 {
      RestoreStaysSound(archive, staging, run[..n]);
      RestoreStepStaysSound(archive, staging, run[0].work, run[n - 1], run[n]);
    } else {
      assert archive[..0] == [];
    }
  }

  // ---------------------------------------------------------------- what becomes of an earlier restore

  // A removal of the earlier restore has left a part of it.
  predicate ClearedInPart(s: Attempt, t: Attempt) {
    s.progress == Clearing && t.progress == Clearing && t.work != s.work
  }

  ghost predicate SomePartCleared(run: seq<Attempt>) {
    exists i :: 0 < i < |run| && ClearedInPart(run[i - 1], run[i])
  }

  ghost predicate ReachesPublishing(run: seq<Attempt>) {
    exists i :: 0 <= i < |run| && run[i].progress == Publishing
  }

  // The removal of the earlier restore has been cut off for good within it.
  ghost predicate CutWhileClearing(run: seq<Attempt>) {
    SomePartCleared(run) && !ReachesPublishing(run)
  }

  // Neither all of the earlier restore is there, nor nothing, nor the new one.
  predicate PartLeft(before: Directory, s: Attempt) {
    && s.progress != Returned(true)
    && RESTORE in before && RESTORE in s.work && s.work[RESTORE] != before[RESTORE]
  }

  ghost predicate EarlierTracked(run: seq<Attempt>)
    requires run != []
  {
    var before, last := run[0].work, run[|run| - 1];
    if ReachesPublishing(run) then
      && (last.progress == Publishing || last.progress.Returned?)
      && (last.progress != Returned(true) ==> RESTORE !in last.work)
    else
      && last.progress != Publishing && last.progress != Returned(true)
      && (RESTORE in last.work <==> RESTORE in before)
      && (last.progress.Extracting? ==> !SomePartCleared(run))
      && (RESTORE in before ==>
           && Remains(before[RESTORE], last.work[RESTORE])
           && (last.work[RESTORE] == before[RESTORE] <==> !SomePartCleared(run)))
  }

  lemma {:induction false} HistoryGrows(run: seq<Attempt>)
    requires |run| > 1
    ensures var n := |run| - 1;
            && (SomePartCleared(run) <==> SomePartCleared(run[..n]) || ClearedInPart(run[n - 1], run[n]))
            && (ReachesPublishing(run) <==> ReachesPublishing(run[..n]) || run[n].progress == Publishing)
  {
    var n := |run| - 1;
    var init := run[..n];
    assert forall i :: 0 <= i < n ==> init[i] == run[i];
    if SomePartCleared(run) && !ClearedInPart(run[n - 1], run[n]) {
      var i :| 0 < i < |run| && ClearedInPart(run[i - 1], run[i]);
      assert ClearedInPart(init[i - 1], init[i]);
    }
    if SomePartCleared(init) {
      var i :| 0 < i < |init| && ClearedInPart(init[i - 1], init[i]);
      assert ClearedInPart(run[i - 1], run[i]);
    }
  }

  lemma {:induction false} RestoreRunPrefix(archive: seq<Entry>, staging: string, run: seq<Attempt>)
    requires RestoreRun(archive, staging, run) && |run| > 1
    ensures RestoreRun(archive, staging, run[..|run| - 1])
    ensures RestoreStep(archive, staging, run[|run| - 2], run[|run| - 1])
  {
    var init := run[..|run| - 1];
    forall i | 0 < i < |init|
      ensures RestoreStep(archive, staging, init[i - 1], init[i])
    {
      assert init[i - 1] == run[i - 1] && init[i] == run[i];
    }
  }

  // One step from a run in which the earlier restore is still being kept or cleared.
  lemma {:induction false} StepKeepsTracking(
    archive: seq<Entry>, staging: string, before: Directory, s: Attempt, t: Attempt, cleared: bool)
    requires staging != RESTORE && RestoreStep(archive, staging, s, t)
    requires s.progress != Publishing && !s.progress.Returned?
    requires RESTORE in s.work <==> RESTORE in before
    requires RESTORE in before ==>
               Remains(before[RESTORE], s.work[RESTORE]) && (s.work[RESTORE] == before[RESTORE] <==> !cleared)
    requires t.progress != Publishing
    ensures t.progress != Returned(true) && (RESTORE in t.work <==> RESTORE in before)
    ensures RESTORE in before ==>
              && Remains(before[RESTORE], t.work[RESTORE])
              && (t.work[RESTORE] == before[RESTORE] <==> !cleared && !ClearedInPart(s, t))
  {
    if RESTORE in before {
      var whole, part, less := before[RESTORE], s.work[RESTORE], t.work[RESTORE];
      RemainsRefl(part);
      RemainsTrans(whole, part, less);
      if less == whole {
        RemainsAntisym(whole, part);
      }
      if ClearedInPart(s, t) {
        assert t.work == s.work[RESTORE := less] && less != part;
      }
    }
  }

  lemma {:induction false} EarlierStaysTracked(archive: seq<Entry>, staging: string, run: seq<Attempt>)
    requires RestoreRun(archive, staging, run)
    ensures EarlierTracked(run)
    decreases |run|
  {
    if |run| == 1 {
      if RESTORE in run[0].work {
        RemainsRefl(run[0].work[RESTORE]);
      }
    } else {
      var n := |run| - 1;
      RestoreRunPrefix(archive, staging, run);
      EarlierStaysTracked(archive, staging, run[..n]);
      HistoryGrows(run);
      assert run[..n][n - 1] == run[n - 1] && run[..n][0] == run[0];
      if !ReachesPublishing(run) && !run[n - 1].progress.Returned? {
        StepKeepsTracking(archive, staging, run[0].work, run[n - 1], run[n], SomePartCleared(run[..n]));
      }
    }
  }

  /**
    Of an earlier restore some but not all is left exactly when a removal of it changed it and the
    restoring never got beyond that.
   */
  lemma {:induction false} PartLeftIff(archive: seq<Entry>, staging: string, run: seq<Attempt>)
    requires RestoreRun(archive, staging, run)
    ensures PartLeft(run[0].work, run[|run| - 1]) <==> CutWhileClearing(run)
  {
    EarlierStaysTracked(archive, staging, run);
    RestoreStaysSound(archive, staging, run);
    if SomePartCleared(run) && RESTORE !in run[0].work {
      PartNeedsEarlier(archive, staging, run);
    }
  }

  lemma {:induction false} PartNeedsEarlier(archive: seq<Entry>, staging: string, run: seq<Attempt>)
    requires RestoreRun(archive, staging, run) && SomePartCleared(run)
    ensures RESTORE in run[0].work
    decreases |run|
  {
    if |run| == 1 {
    } else {
      var n := |run| - 1;
      RestoreRunPrefix(archive, staging, run);
      HistoryGrows(run);
      EarlierStaysTracked(archive, staging, run[..n]);
      assert run[..n][n - 1] == run[n - 1] && run[..n][0] == run[0];
      if SomePartCleared(run[..n]) {
        PartNeedsEarlier(archive, staging, run[..n]);
      }
    }
  }

  // ---------------------------------------------------------------- what is applied

  // Apart from the staging directory: the whole archive, what had been published before, or nothing.
  ghost predicate AllOrNothing(archive: seq<Entry>, staging: string, before: Directory, after: Directory) {
    || after - {staging} == Target(before) - {staging}
    || after - {staging} == Target(before - {RESTORE}) - {staging}
    || (&& Extracted(archive).Some? && Extracted(archive).value.Dir?
        && after - {staging} == (before - {RESTORE} + Extracted(archive).value.entries) - {staging})
  }

  // A part of the earlier restore, in which every file is as it was, and nothing of the archive.
  ghost predicate PartOfEarlier(staging: string, before: Directory, part: Node, after: Directory) {
    && RESTORE in before && Remains(before[RESTORE], part) && part != before[RESTORE]
    && after - {staging} == Target(before[RESTORE := part]) - {staging}
  }

  /**
    Wherever the restoring of an archive is cut off, and however often the restore it leaves is
    then interrupted and run again: what is applied is the whole archive, what had been published
    before, or nothing, unless a removal of what had been published before was cut off within it;
    then it is the part that was left of that.
   */
  lemma {:induction false} PartialExtractionIsNeverApplied(
    archive: seq<Entry>, staging: string, restoring: seq<Attempt>, finishing: seq<State>)
    requires RestoreRun(archive, staging, restoring) && FinishRun(finishing)
    requires finishing[0].work == restoring[|restoring| - 1].work
    requires finishing[|finishing| - 1].phase == Finished(true)
    ensures var before, cut := restoring[0].work, restoring[|restoring| - 1];
            var after := finishing[|finishing| - 1].work;
            if CutWhileClearing(restoring)
            then RESTORE in cut.work && PartOfEarlier(staging, before, cut.work[RESTORE], after)
            else AllOrNothing(archive, staging, before, after)
  {
    var before, cut := restoring[0].work, restoring[|restoring| - 1];
    RestoreStaysSound(archive, staging, restoring);
    EarlierStaysTracked(archive, staging, restoring);
    PartLeftIff(archive, staging, restoring);
    CrashesDoNotMatter(finishing);
    var after := finishing[|finishing| - 1].work;
    assert after == Target(cut.work);
    if cut.progress == Returned(true) {
      ExtractedIsDirectory(archive);
      AppliedInFull(before, staging, Extracted(archive).value.entries);
    } else {
      CutIsApplied(archive, staging, before, cut);
    }
  }

  // What is in place once a restore that was cut off has been finished, by what is left of the earlier one.
  lemma {:induction false} CutIsApplied(archive: seq<Entry>, staging: string, before: Directory, cut: Attempt)
    requires staging != RESTORE && Sound(archive, staging, before, cut) && cut.progress != Returned(true)
    ensures RESTORE !in cut.work ==> Target(cut.work) - {staging} == Target(before - {RESTORE}) - {staging}
    ensures RESTORE in cut.work ==>
              && RESTORE in before && Remains(before[RESTORE], cut.work[RESTORE])
              && Target(cut.work) - {staging} == Target(before[RESTORE := cut.work[RESTORE]]) - {staging}
  {
    if cut.progress.Extracting? {
      UntouchedRemains(staging, before, cut.work);
    }
    var rest, others := cut.work - {staging} - {RESTORE}, before - {staging} - {RESTORE};
    assert RESTORE in cut.work ==> RESTORE in cut.work - {staging};
    assert rest == others;
    if RESTORE in cut.work {
      SameBesideStaging(cut.work, before[RESTORE := cut.work[RESTORE]], staging);
    } else {
      SameBesideStaging(cut.work, before - {RESTORE}, staging);
    }
  }

  lemma {:induction false} SameBesideStaging(a: Directory, b: Directory, staging: string)
    requires staging != RESTORE && a - {staging} - {RESTORE} == b - {staging} - {RESTORE}
    requires (RESTORE in a <==> RESTORE in b) && (RESTORE in a ==> a[RESTORE] == b[RESTORE])
    ensures Target(a) - {staging} == Target(b) - {staging}
  {
    var x, y := a - {staging} - {RESTORE}, b - {staging} - {RESTORE};
    assert forall name :: name in a && name != staging && name != RESTORE ==> name in x && x[name] == a[name];
    assert forall name :: name in b && name != staging && name != RESTORE ==> name in y && y[name] == b[name];
    var p, q := Target(a) - {staging}, Target(b) - {staging};
    assert forall name :: name in p <==> name in q;
    assert forall name :: name in p ==> p[name] == q[name];
  }

  lemma {:induction false} AppliedInFull(before: Directory, staging: string, entries: Directory)
    requires staging != RESTORE
    ensures Target((before - {staging})[RESTORE := Dir(entries)]) - {staging}
            == (before - {RESTORE} + entries) - {staging}
  {
    var work := (before - {staging})[RESTORE := Dir(entries)];
    assert HasRestore(work) && Pending(work) == entries;
    var p, q := Target(work) - {staging}, (before - {RESTORE} + entries) - {staging};
    assert forall name :: name in p <==> name in q;
    assert forall name :: name in p ==> p[name] == q[name];
  }

  // ---------------------------------------------------------------- a part of an earlier restore can be applied

  const EARLIER: Node := Dir(map["a" := File("1"), "b" := File("2")])
  const PART: Node := Dir(map["a" := File("1")])
  const ARCHIVE: seq<Entry> := [Entry(["x"], "3")]
  const NEW: Node := Dir(map["x" := File("3")])

  lemma {:induction false} ArchiveIsExtracted()
    ensures Extracted(ARCHIVE) == Some(NEW) && Extracted(ARCHIVE[..1]) == Some(NEW)
  {
    CleanSingle("x");
    assert ARCHIVE[..1] == ARCHIVE && ARCHIVE[..0] == [];
    assert ["x"][1..] == [];
    assert Put(Some(EMPTY), ["x"], "3") == Some(NEW);
  }

  // The removal of the earlier restore has taken the second of its files when it is cut off.
  function CutRun(): seq<Attempt> {
    [
      Attempt(map[RESTORE := EARLIER, "s" := EMPTY], Extracting(0, false)),
      Attempt(map[RESTORE := EARLIER, "s" := NEW], Extracting(1, false)),
      Attempt(map[RESTORE := EARLIER, "s" := NEW], Clearing),
      Attempt(map[RESTORE := PART, "s" := NEW], Clearing)
    ]
  }

  function NextStart(): seq<State> {
    [
      State(map[RESTORE := PART, "s" := NEW], Starting),
      State(map[RESTORE := PART, "s" := NEW], Removing(["a"])),
      State(map[RESTORE := PART, "s" := NEW], Removing([])),
      State(map[RESTORE := PART, "s" := NEW], Moving(["a"])),
      State(map[RESTORE := EMPTY, "s" := NEW, "a" := File("1")], Moving([])),
      State(map[RESTORE := EMPTY, "s" := NEW, "a" := File("1")], Dropping),
      State(map["s" := NEW, "a" := File("1")], Finished(true))
    ]
  }

  lemma {:induction false} CutRunIsRun()
    ensures RestoreRun(ARCHIVE, "s", CutRun()) && CutWhileClearing(CutRun())
  {
    ArchiveIsExtracted();
    var run := CutRun();
    assert Remains(EARLIER, PART);
    assert RestoreStep(ARCHIVE, "s", run[0], run[1]);
    assert RestoreStep(ARCHIVE, "s", run[1], run[2]);
    assert RestoreStep(ARCHIVE, "s", run[2], run[3]);
    assert EARLIER.entries["b"] == File("2") && "b" !in PART.entries;
    assert run[2].work[RESTORE] != run[3].work[RESTORE];
    assert ClearedInPart(run[2], run[3]);
  }

  lemma {:induction false} FileIsMoved()
    ensures MovedIntoPlace(NextStart()[3].work, "a") == Some(NextStart()[4].work)
  {
    var work := NextStart()[3].work;
    assert Pending(work) == PART.entries && PART.entries - {"a"} == map[] && EMPTY == Dir(map[]);
    var moved := work["a" := File("1")][RESTORE := Dir(PART.entries - {"a"})];
    assert moved == NextStart()[4].work;
  }

  lemma {:induction false} NextStartIsRun()
    ensures FinishRun(NextStart())
  {
    var run := NextStart();
    assert ["a"][0] == "a" && ["a"][1..] == [];
    assert Lists(["a"], PART.entries);
    assert FinishStep(run[0], run[1]);
    assert run[1].work - {"a"} == run[2].work;
    assert FinishStep(run[1], run[2]);
    assert FinishStep(run[2], run[3]);
    FileIsMoved();
    assert FinishStep(run[3], run[4]);
    assert FinishStep(run[4], run[5]);
    assert run[5].work - {RESTORE} == run[6].work;
    assert FinishStep(run[5], run[6]);
  }

  /**
    A removal of an earlier restore that is cut off leaves a part of it, and that part is applied: one of two files
    here.
   */
  lemma {:induction false} PartOfEarlierIsApplied()
    ensures RestoreRun(ARCHIVE, "s", CutRun()) && CutWhileClearing(CutRun())
    ensures FinishRun(NextStart()) && NextStart()[0].work == CutRun()[3].work
    ensures NextStart()[6] == State(map["s" := NEW, "a" := File("1")], Finished(true))
    ensures !AllOrNothing(ARCHIVE, "s", CutRun()[0].work, NextStart()[6].work)
  {
    CutRunIsRun();
    NextStartIsRun();
    ArchiveIsExtracted();
    var before, after := CutRun()[0].work, NextStart()[6].work - {"s"};
    assert "a" in after && "b" !in after;
    assert "b" in Target(before) - {"s"};
    assert "a" !in Target(before - {RESTORE}) - {"s"};
    assert "a" !in (before - {RESTORE} + NEW.entries) - {"s"};
  }
}
