/**
  The work directory and the calls that change it: finishing a restore, and restoring a backup.
 */
module WorkDirectory {
  import opened Wrappers
  import opened Files
  import opened FinishRestore
  import opened Extraction
  import opened Publishing

  class WorkDir {
    var entries: Directory
    // Whether a file system call has failed.
    ghost var failed: bool

    constructor (entries: Directory)
      ensures this.entries == entries && !failed
    {
      this.entries := entries;
      failed := false;
    }

    method RemoveAll(name: string) returns (ok: bool)
      modifies this
      ensures entries - {name} == old(entries) - {name}
      ensures ok ==> name !in entries && failed == old(failed)
      ensures !ok ==> failed && (name in entries ==> name in old(entries) && Remains(old(entries)[name], entries[name]))
    {
      ok := *;
      if ok || name !in entries {
        entries := entries - {name};
        return true;
      }
      failed := true;
      ghost var whole := entries[name];
      RemainsRefl(whole);
      if entries[name].Dir? {
        var kept: set<string> := *;
        var left := entries[name].entries;
        entries := entries[name := Dir(map k | k in left && k in kept :: left[k])];
        SomeEntriesRemain(whole, entries[name]);
      }
    }

    // The names of the pending entries, in some order.
    method ReadRestoreDir() returns (names: Option<seq<string>>)
      modifies `failed
      ensures names.Some? ==> Lists(names.value, Pending(entries)) && failed == old(failed)
      ensures names.None? ==> failed
    {
      var ok: bool := *;
      if !ok {
        failed := true;
        return None;
      }
      var listed := [];
      var left := Pending(entries).Keys;
      while left != {}
        invariant left <= Pending(entries).Keys
        invariant forall name :: name in listed <==> name in Pending(entries) && name !in left
        invariant forall i, j :: 0 <= i < j < |listed| ==> listed[i] != listed[j]
        decreases left
      {
        var name :| name in left;
        listed := listed + [name];
        left := left - {name};
      }
      return Some(listed);
    }

    method RenameIntoPlace(name: string) returns (ok: bool)
      requires name in Pending(entries)
      modifies this
      ensures ok ==> MovedIntoPlace(old(entries), name) == Some(entries) && failed == old(failed)
      ensures !ok ==> entries == old(entries) && (failed || MovedIntoPlace(entries, name) == None)
    {
      ok := *;
      if !ok {
        failed := true;
        return;
      }
      var moved := MovedIntoPlace(entries, name);
      if moved.None? {
        return false;
      }
      entries := moved.value;
    }

    // Whether the restore directory is seen; a failing call sees none.
    method StatRestoreDir() returns (seen: bool)
      modifies `failed
      ensures seen ==> HasRestore(entries) && failed == old(failed)
      ensures !seen ==> failed || !HasRestore(entries)
      ensures !HasRestore(entries) ==> failed == old(failed)
    {
      seen := *;
      if !HasRestore(entries) {
        return false;
      }
      if !seen {
        failed := true;
      }
    }

    /**
      A restore puts every pending entry in place and succeeds, unless a call fails or the archive names
      itself; then everything is still either pending or in place. It also succeeds, and changes nothing, if
      the first look at the restore directory fails.
     */
    method FinishRestoreNode() returns (ok: bool)
      requires !failed
      modifies this
      ensures Target(entries) == Target(old(entries))
      ensures ok ==> entries == if failed then old(entries) else Target(old(entries))
      ensures !failed ==> (ok <==> !NamesItself(old(entries)))
    {
      var seen := StatRestoreDir();
      if !seen {
        return true;
      }
      ghost var before := entries;
      var existing := ReadRestoreDir();
      if existing.None? {
        return false;
      }
      ok := RemoveReplaced(existing.value);
      if !ok {
        return;
      }
      var files := ReadRestoreDir();
      if files.None? {
        return false;
      }
      ok := MovePending(files.value);
      if !ok {
        return;
      }
      ghost var moved := entries;
      ok := RemoveAll(RESTORE);
      EmptyRestoreDropped(moved, entries);
    }

    // The first loop: what is to be replaced is removed.
    method RemoveReplaced(existing: seq<string>) returns (ok: bool)
      requires !failed && HasRestore(entries) && Lists(existing, Pending(entries))
      modifies this
      ensures HasRestore(entries) && Pending(entries) == Pending(old(entries))
      ensures Target(entries) == Target(old(entries))
      ensures if ok then Cleared(entries, []) && !failed else failed
    {
      for i := 0 to |existing|
        invariant HasRestore(entries) && Pending(entries) == Pending(old(entries))
        invariant Target(entries) == Target(old(entries))
        invariant Cleared(entries, existing[i..]) && !failed
      {
        assert existing[i..][0] == existing[i] && existing[i..][1..] == existing[i + 1..];
        if existing[i] != RESTORE {
          ghost var was := entries;
          ok := RemoveAll(existing[i]);
          RemovalKeepsPending(was, entries, existing[i]);
          if !ok {
            return false;
          }
          RemovalClears(was, entries, existing[i..]);
        } else {
          RemovalClears(entries, entries, existing[i..]);
        }
      }
      return true;
    }

    // The second loop: what is pending is moved into place.
    method MovePending(files: seq<string>) returns (ok: bool)
      requires !failed && HasRestore(entries) && Lists(files, Pending(entries)) && Cleared(entries, [])
      modifies this
      ensures HasRestore(entries) && Target(entries) == Target(old(entries))
      ensures NamesItself(entries) == NamesItself(old(entries))
      ensures if ok then Pending(entries) == map[] && !failed else failed || NamesItself(entries)
    {
      for i := 0 to |files|
        invariant HasRestore(entries) && Target(entries) == Target(old(entries))
        invariant NamesItself(entries) == NamesItself(old(entries))
        invariant Lists(files[i..], Pending(entries)) && Cleared(entries, []) && !failed
      {
        assert files[i] == files[i..][0] && files[i..][1..] == files[i + 1..];
        ghost var was := entries;
        ok := RenameIntoPlace(files[i]);
        if !ok {
          assert failed || files[i] == RESTORE;
          return false;
        }
        MoveKeepsCleared(was, files[i..]);
      }
      assert files[|files|..] == [];
      return true;
    }

    /**
      Publishes the whole archive, or leaves what was published before, or what a failed removal left of that;
      without a failing call it publishes exactly the archives that can be extracted and otherwise changes nothing.
     */
    method RestoreBackup(archive: seq<Entry>, staging: string) returns (ok: bool)
      requires staging !in entries && staging !in {RESTORE, "", ".", ".."} && !failed
      modifies this
      ensures ok ==> Extracted(archive).Some? && archive != [] && entries == old(entries)[RESTORE := Extracted(archive).value]
      ensures !ok ==> Remaining(staging, old(entries), entries)
      ensures !failed ==> (ok <==> archive != [] && Extracted(archive).Some?) && (!ok ==> entries == old(entries))
    {
      if archive == [] {
        UntouchedRemains(staging, entries, entries);
        return false;
      }
      var extracted := ExtractAll(archive, staging);
      if !extracted {
        var _ := RemoveAll(staging);
        UntouchedRemains(staging, old(entries), entries);
        assert !failed ==> entries == entries - {staging} && old(entries) == old(entries) - {staging};
        return false;
      }
      ghost var before := entries;
      ok := RemoveAll(RESTORE);
      if !ok {
        UntouchedRemains(staging, old(entries), before);
        assert forall now: Directory :: now - {staging} - {RESTORE} == now - {RESTORE} - {staging};
        LessRemains(staging, old(entries), before, entries);
        ghost var cleared := entries;
        var _ := RemoveAll(staging);
        UntouchedRemains(staging, cleared, entries);
        LessRemains(staging, old(entries), cleared, entries);
        return false;
      }
      assert entries == before - {RESTORE};
      ok := *;
      if !ok {
        failed := true;
        ghost var cleared := entries;
        var _ := RemoveAll(staging);
        GoneRemains(staging, old(entries), cleared, entries);
        return;
      }
      entries := entries[RESTORE := entries[staging]] - {staging};
      return true;
    }

    method ExtractAll(archive: seq<Entry>, staging: string) returns (ok: bool)
      requires staging !in {"", ".", ".."} && !failed
      modifies this
      ensures ok ==> !failed && Extracted(archive).Some? && entries == old(entries)[staging := Extracted(archive).value]
      ensures entries - {staging} == old(entries) - {staging}
      ensures !failed ==> (ok <==> Extracted(archive).Some?)
    {
      entries := entries[staging := EMPTY];
      for i := 0 to |archive|
        invariant Extracted(archive[..i]).Some? && !failed
        invariant entries == old(entries)[staging := Extracted(archive[..i]).value]
      {
        ExtractedNext(archive, i);
        var extracted := ExtractEntry(archive[i], staging);
        if !extracted {
          if !failed {
            RefusedPrefix(archive, i + 1);
          }
          return false;
        }
      }
      assert archive[..|archive|] == archive;
      return true;
    }

    method ExtractEntry(entry: Entry, staging: string) returns (ok: bool)
      requires staging in entries && staging !in {"", ".", ".."} && !failed
      modifies this
      ensures !failed ==> (ok <==> IsLocal(entry.name) && Put(Some(old(entries)[staging]), Clean(entry.name), entry.data).Some?)
      ensures ok ==> !failed && entries == old(entries)[staging := Put(Some(old(entries)[staging]), Clean(entry.name), entry.data).value]
      ensures entries - {staging} == old(entries) - {staging}
      ensures !ok && !failed ==> entries == old(entries)
    {
      if !IsLocal(entry.name) {
        return false;
      }
      CleanWithin(staging, entry.name);
      var path := Clean([staging] + entry.name);
      if !([staging] <= path) {
        return false;
      }
      ok := *;
      if !ok {
        var torn: Node := *;
        entries, failed := entries[staging := torn], true;
        return;
      }
      assert path[1..] == Clean(entry.name);
      var written := Put(Some(Dir(entries)), path, entry.data);
      if written.None? {
        return false;
      }
      entries := written.value.entries;
      return true;
    }
  }
}
