/**
  Extracting an archive: the names it may use, and the tree its entries make.
 */
module Extraction {
  import opened Wrappers
  import opened Files

  // An archive entry, its name cut at the slashes.
  datatype Entry = Entry(name: seq<string>, data: string)

  // The lexical path: no empty parts, no dots, and double dots only in front.
  function Clean(name: seq<string>): seq<string> {
    if name == [] then [] else Entered(Clean(name[..|name| - 1]), name[|name| - 1])
  }

  // Where a part of a name leads from a path.
  function Entered(path: seq<string>, part: string): seq<string> {
    if part == "" || part == "." then path
    else if part != ".." || StartsAbove(path) || path == [] then path + [part]
    else path[..|path| - 1]
  }

  predicate StartsAbove(path: seq<string>) {
    path != [] && path[0] == ".."
  }

  // Neither empty, nor absolute, nor leading outside.
  predicate IsLocal(name: seq<string>) {
    name != [] && name[0] != "" && !StartsAbove(Clean(name))
  }

  lemma {:induction false} EnteredWithin(base: string, path: seq<string>, part: string)
    requires base != ".." && !StartsAbove(Entered(path, part))
    ensures !StartsAbove(path) && Entered([base] + path, part) == [base] + Entered(path, part)
  {
    assert part == ".." && path != [] ==> ([base] + path)[..|path|] == [base] + path[..|path| - 1];
  }

  lemma {:induction false} CleanSingle(base: string)
    requires base !in {"", ".", ".."}
    ensures Clean([base]) == [base]
  {
    assert [base][..0] == [];
  }

  lemma {:induction false} CleanWithin(base: string, name: seq<string>)
    requires base !in {"", ".", ".."} && !StartsAbove(Clean(name))
    ensures Clean([base] + name) == [base] + Clean(name)
    decreases |name|
  {
    if name == [] {
      CleanSingle(base);
      assert [base] + name == [base];
    } else {
      var shorter := name[..|name| - 1];
      EnteredWithin(base, Clean(shorter), name[|name| - 1]);
      CleanWithin(base, shorter);
      assert ([base] + name)[..|name|] == [base] + shorter;
    }
  }

  // What follows in a name leads on from the path so far.
  lemma {:induction false} CleanGoesOn(a: seq<string>, b: seq<string>, rest: seq<string>)
    requires Clean(a) == Clean(b)
    ensures Clean(a + rest) == Clean(b + rest)
    decreases |rest|
  {
    if rest == [] {
      assert a + rest == a && b + rest == b;
    } else {
      var shorter := rest[..|rest| - 1];
      CleanGoesOn(a, b, shorter);
      assert (a + rest)[..|a + rest| - 1] == a + shorter && (b + rest)[..|b + rest| - 1] == b + shorter;
    }
  }

  /** Empty parts and dots are left out, and a part is dropped with the double dots behind it. */
  lemma {:induction false} CleanReduces(before: seq<string>, part: string, rest: seq<string>)
    ensures part in {"", "."} ==> Clean(before + [part] + rest) == Clean(before + rest)
    ensures part !in {"", ".", ".."} && !StartsAbove(Clean(before)) ==>
              Clean(before + [part, ".."] + rest) == Clean(before + rest)
  {
    CleanSnoc(before, part);
    CleanSnoc(before + [part], "..");
    assert before + [part] + [".."] == before + [part, ".."];
    if part in {"", "."} {
      CleanGoesOn(before + [part], before, rest);
    } else if part != ".." && !StartsAbove(Clean(before)) {
      PlainIsNotAbove(Clean(before), part);
      CleanGoesOn(before + [part, ".."], before, rest);
    }
  }

  lemma {:induction false} CleanSnoc(name: seq<string>, part: string)
    ensures Clean(name + [part]) == Entered(Clean(name), part)
  {
    assert (name + [part])[..|name|] == name;
  }

  lemma {:induction false} PlainIsNotAbove(path: seq<string>, part: string)
    requires part !in {"", ".", ".."} && !StartsAbove(path)
    ensures Entered(Entered(path, part), "..") == path
  {
    assert (path + [part])[..|path|] == path;
  }

  predicate IsPlain(part: string) {
    part !in {"", ".", ".."}
  }

  /** A name of double dots and then plain parts is its own path. */
  lemma {:induction false} ReducedNamesAreClean(name: seq<string>, ups: nat)
    requires ups <= |name| && forall i :: 0 <= i < ups ==> name[i] == ".."
    requires forall i :: ups <= i < |name| ==> IsPlain(name[i])
    ensures Clean(name) == name
    decreases |name|
  {
    if name != [] {
      var n := |name| - 1;
      ReducedNamesAreClean(name[..n], if ups < n then ups else n);
      assert name == name[..n] + [name[n]];
    }
  }

  /** An accepted entry joined to the staging directory stays in it, so the second containment check never fails. */
  lemma LocalStaysInside(staging: string, name: seq<string>)
    requires staging !in {"", ".", ".."} && IsLocal(name)
    ensures [staging] <= Clean([staging] + name)
  {
    CleanWithin(staging, name);
  }

  const EMPTY: Node := Dir(map[])

  // The tree that extracting every entry in turn leaves, if none is refused.
  function Extracted(archive: seq<Entry>): Option<Node> {
    if archive == [] then Some(EMPTY)
    else
      var earlier, entry := Extracted(archive[..|archive| - 1]), archive[|archive| - 1];
      if earlier.None? || !IsLocal(entry.name) then None else Put(earlier, Clean(entry.name), entry.data)
  }

  // The data of the last entry with a path.
  function LastNamed(archive: seq<Entry>, path: seq<string>): Option<string> {
    if archive == [] then None
    else if Clean(archive[|archive| - 1].name) == path then Some(archive[|archive| - 1].data)
    else LastNamed(archive[..|archive| - 1], path)
  }

  /** What is extracted holds, at every path, the last entry of that path, and no other file. */
  lemma {:induction false} ExtractedHoldsEveryEntry(archive: seq<Entry>, path: seq<string>)
    requires Extracted(archive).Some?
    ensures Find(Extracted(archive), path) == LastNamed(archive, path)
    decreases |archive|
  {
    if archive == [] {
    } else {
      var earlier, entry := archive[..|archive| - 1], archive[|archive| - 1];
      ExtractedHoldsEveryEntry(earlier, path);
      PutThenFind(Extracted(earlier), Clean(entry.name), entry.data, path);
    }
  }

  // The names of an archive can all be extracted.
  ghost predicate Fit(archive: seq<Entry>) {
    && (forall i :: 0 <= i < |archive| ==> Allowed(archive[i].name))
    && (forall i, j :: 0 <= i < |archive| && 0 <= j < |archive| ==>
         !LeadsTo(Clean(archive[i].name), Clean(archive[j].name)))
  }

  // Not empty, not absolute, and leading neither outside nor nowhere.
  predicate Allowed(name: seq<string>) {
    name != [] && name[0] != "" && Clean(name) != [] && Clean(name)[0] != ".."
  }

  lemma {:induction false} ExtractedDirectories(archive: seq<Entry>, path: seq<string>)
    requires Extracted(archive).Some?
    ensures HasDirectory(Extracted(archive), path) <==>
            path == [] || exists i :: 0 <= i < |archive| && LeadsTo(path, Clean(archive[i].name))
    decreases |archive|
  {
    if archive != [] {
      var n := |archive| - 1;
      ExtractedDirectories(archive[..n], path);
      PutMakesDirectories(Extracted(archive[..n]), Clean(archive[n].name), archive[n].data, path);
    }
  }

  lemma {:induction false} NamedIff(archive: seq<Entry>, path: seq<string>)
    ensures LastNamed(archive, path).Some? <==> exists i :: 0 <= i < |archive| && Clean(archive[i].name) == path
    decreases |archive|
  {
    if archive != [] {
      NamedIff(archive[..|archive| - 1], path);
    }
  }

  /**
    An archive is extracted exactly when no name is empty or absolute or leads outside or nowhere, and none leads
    through another.
   */
  lemma {:induction false} ExtractedIff(archive: seq<Entry>)
    ensures Extracted(archive).Some? <==> Fit(archive)
    decreases |archive|
  {
    if archive != [] {
      var n := |archive| - 1;
      var earlier, entry := archive[..n], archive[n];
      ExtractedIff(earlier);
      if Extracted(earlier).Some? && IsLocal(entry.name) {
        NextFits(earlier, entry);
      }
      assert archive == earlier + [entry];
      FitNext(earlier, entry);
    }
  }

  // An entry can be written if its path is not a directory's and no entry's path leads to it.
  ghost predicate FitsAfter(earlier: seq<Entry>, path: seq<string>) {
    && path != []
    && forall i :: 0 <= i < |earlier| ==>
         !LeadsTo(path, Clean(earlier[i].name)) && !LeadsTo(Clean(earlier[i].name), path)
  }

  lemma {:induction false} NextFits(earlier: seq<Entry>, entry: Entry)
    requires Extracted(earlier).Some?
    ensures Put(Extracted(earlier), Clean(entry.name), entry.data).Some? <==> FitsAfter(earlier, Clean(entry.name))
  {
    var path := Clean(entry.name);
    PutIff(Extracted(earlier), path, entry.data);
    ExtractedDirectories(earlier, path);
    forall p | LeadsTo(p, path)
      ensures Find(Extracted(earlier), p).Some? <==> exists i :: 0 <= i < |earlier| && Clean(earlier[i].name) == p
    {
      ExtractedHoldsEveryEntry(earlier, p);
      NamedIff(earlier, p);
    }
  }

  lemma {:induction false} FitNext(earlier: seq<Entry>, entry: Entry)
    ensures Fit(earlier + [entry]) <==> Fit(earlier) && IsLocal(entry.name) && FitsAfter(earlier, Clean(entry.name))
  {
    var archive, n := earlier + [entry], |earlier|;
    assert archive[n] == entry && forall i :: 0 <= i < n ==> archive[i] == earlier[i];
    if Fit(archive) {
      forall i | 0 <= i < n
        ensures !LeadsTo(Clean(entry.name), Clean(earlier[i].name))
        ensures !LeadsTo(Clean(earlier[i].name), Clean(entry.name))
      {
        assert !LeadsTo(Clean(archive[n].name), Clean(archive[i].name));
        assert !LeadsTo(Clean(archive[i].name), Clean(archive[n].name));
      }
      forall i, j | 0 <= i < n && 0 <= j < n
        ensures !LeadsTo(Clean(earlier[i].name), Clean(earlier[j].name))
      {
        assert !LeadsTo(Clean(archive[i].name), Clean(archive[j].name));
      }
      assert Allowed(archive[n].name);
      assert forall i :: 0 <= i < n ==> Allowed(archive[i].name);
    }
  }

  /** Every archive of plain names, none of which leads through another, is extracted. */
  lemma {:induction false} PlainArchivesAreExtracted(archive: seq<Entry>)
    requires forall i :: 0 <= i < |archive| ==> archive[i].name != []
    requires forall i, k :: 0 <= i < |archive| && 0 <= k < |archive[i].name| ==>
               archive[i].name[k] !in {"", ".", ".."}
    requires forall i, j :: 0 <= i < |archive| && 0 <= j < |archive| ==> !(archive[i].name < archive[j].name)
    ensures Extracted(archive).Some?
    ensures forall path ::
              Find(Extracted(archive), path).Some? <==> (exists i :: 0 <= i < |archive| && archive[i].name == path)
  {
    forall i | 0 <= i < |archive|
      ensures Clean(archive[i].name) == archive[i].name
    {
      ReducedNamesAreClean(archive[i].name, 0);
    }
    ExtractedIff(archive);
    forall path
      ensures Find(Extracted(archive), path).Some? <==> exists i :: 0 <= i < |archive| && archive[i].name == path
    {
      ExtractedHoldsEveryEntry(archive, path);
      NamedIff(archive, path);
    }
  }

  lemma {:induction false} ExtractedIsDirectory(archive: seq<Entry>)
    ensures Extracted(archive).Some? ==> Extracted(archive).value.Dir?
    decreases |archive|
  {
    if archive == [] {
    } else {
      ExtractedIsDirectory(archive[..|archive| - 1]);
    }
  }

  lemma {:induction false} ExtractedNext(archive: seq<Entry>, i: nat)
    requires i < |archive| && Extracted(archive[..i]).Some?
    ensures Extracted(archive[..i + 1])
         == if IsLocal(archive[i].name) then Put(Extracted(archive[..i]), Clean(archive[i].name), archive[i].data)
            else None
  {
    assert archive[..i + 1][..i] == archive[..i];
  }

  lemma {:induction false} RefusedPrefix(archive: seq<Entry>, i: nat)
    requires i <= |archive| && Extracted(archive[..i]).None?
    ensures Extracted(archive).None?
    decreases |archive| - i
  {
    if i < |archive| {
      assert archive[..i + 1][..i] == archive[..i];
      RefusedPrefix(archive, i + 1);
    } else {
      assert archive[..i] == archive;
    }
  }
}
