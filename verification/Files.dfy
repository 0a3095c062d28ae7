/**
  Trees of files and directories, what a removal that fails may leave of one, and writing a file in one.
 */
module Files {
  import opened Wrappers

  datatype Node = File(data: string) | Dir(entries: map<string, Node>)

  type Directory = map<string, Node>

  // The name a restore is published under.
  const RESTORE := "restore"

  // ---------------------------------------------------------------- writing and finding files

  // Writes a file at a path, making its directories; a file on the way or a directory at its end is in the way.
  function Put(existing: Option<Node>, path: seq<string>, data: string): Option<Node>
    decreases |path|
  {
    if path == [] then
      if existing.Some? && existing.value.Dir? then None else Some(File(data))
    else if existing.Some? && existing.value.File? then
      None
    else
      var entries := if existing.None? then map[] else existing.value.entries;
      var child := Put(if path[0] in entries then Some(entries[path[0]]) else None, path[1..], data);
      if child.None? then None else Some(Dir(entries[path[0] := child.value]))
  }

  // The contents of the file at a path.
  function Find(node: Option<Node>, path: seq<string>): Option<string>
    decreases |path|
  {
    match node
    case None => None
    case Some(File(data)) => if path == [] then Some(data) else None
    case Some(Dir(entries)) => if path != [] && path[0] in entries then Find(Some(entries[path[0]]), path[1..]) else None
  }

  lemma {:induction false} PutThenFind(existing: Option<Node>, path: seq<string>, data: string, p: seq<string>)
    requires Put(existing, path, data).Some?
    ensures Find(Put(existing, path, data), p) == if p == path then Some(data) else Find(existing, p)
    decreases |path|
  {
    if path != [] && p != [] {
      var entries := if existing.None? then map[] else existing.value.entries;
      var child := if path[0] in entries then Some(entries[path[0]]) else None;
      assert path == [path[0]] + path[1..] && p == [p[0]] + p[1..];
      if p[0] == path[0] {
        PutThenFind(child, path[1..], data, p[1..]);
      }
    }
  }

  predicate HasDirectory(node: Option<Node>, path: seq<string>)
    decreases |path|
  {
    && node.Some? && node.value.Dir?
    && (path == [] || (path[0] in node.value.entries && HasDirectory(Some(node.value.entries[path[0]]), path[1..])))
  }

  predicate LeadsTo(path: seq<string>, further: seq<string>) {
    path < further
  }

  // What is in the way of a file: a directory in its place, or a file on the way to it.
  lemma {:induction false} PutIff(existing: Option<Node>, path: seq<string>, data: string)
    ensures Put(existing, path, data).Some? <==>
            !HasDirectory(existing, path) && forall p :: LeadsTo(p, path) ==> Find(existing, p).None?
    decreases |path|
  {
    if path != [] {
      assert LeadsTo([], path);
      if existing.Some? && existing.value.File? {
        assert Find(existing, []).Some?;
      } else {
        var child := if existing.Some? && path[0] in existing.value.entries then Some(existing.value.entries[path[0]]) else None;
        PutIff(child, path[1..], data);
        forall p | LeadsTo(p, path) && p != []
          ensures LeadsTo(p[1..], path[1..]) && Find(existing, p) == Find(child, p[1..])
        {
        }
        forall q | LeadsTo(q, path[1..])
          ensures LeadsTo([path[0]] + q, path) && Find(existing, [path[0]] + q) == Find(child, q)
        {
          assert ([path[0]] + q)[1..] == q;
        }
      }
    }
  }

  lemma {:induction false} PutMakesDirectories(existing: Option<Node>, path: seq<string>, data: string,
                                               p: seq<string>)
    requires Put(existing, path, data).Some?
    ensures HasDirectory(Put(existing, path, data), p) <==> HasDirectory(existing, p) || LeadsTo(p, path)
    decreases |path|
  {
    if path != [] && p != [] {
      var entries := if existing.None? then map[] else existing.value.entries;
      var child := if path[0] in entries then Some(entries[path[0]]) else None;
      assert path == [path[0]] + path[1..] && p == [p[0]] + p[1..];
      if p[0] == path[0] {
        PutMakesDirectories(child, path[1..], data, p[1..]);
        assert LeadsTo(p, path) <==> LeadsTo(p[1..], path[1..]);
      }
    }
  }

  // ---------------------------------------------------------------- removing trees

  // What a removal that failed may leave of a tree: files as they were, and of directories any part.
  predicate Remains(whole: Node, part: Node)
    decreases whole
  {
    match whole
    case File(_) => part == whole
    case Dir(entries) =>
      && part.Dir? && part.entries.Keys <= entries.Keys
      && forall name :: name in part.entries && name in entries ==> Remains(entries[name], part.entries[name])
  }

  lemma {:induction false} RemainsRefl(node: Node)
    ensures Remains(node, node)
    decreases node
  {
    match node
    case File(_) =>
    case Dir(entries) =>
      forall name | name in entries
        ensures Remains(entries[name], entries[name])
      {
        RemainsRefl(entries[name]);
      }
  }

  lemma {:induction false} RemainsTrans(a: Node, b: Node, c: Node)
    requires Remains(a, b) && Remains(b, c)
    ensures Remains(a, c)
    decreases a
  {
    match a
    case File(_) =>
    case Dir(entries) =>
      forall name | name in c.entries && name in entries
        ensures Remains(entries[name], c.entries[name])
      {
        RemainsTrans(entries[name], b.entries[name], c.entries[name]);
      }
  }

  // What is less than a tree is never the whole of it again.
  lemma {:induction false} RemainsAntisym(a: Node, b: Node)
    requires Remains(a, b) && Remains(b, a)
    ensures a == b
    decreases a
  {
    match a
    case File(_) =>
    case Dir(entries) =>
      assert entries.Keys == b.entries.Keys;
      forall name | name in entries
        ensures entries[name] == b.entries[name]
      {
        RemainsAntisym(entries[name], b.entries[name]);
      }
      assert entries == b.entries;
  }

  lemma {:induction false} SomeEntriesRemain(whole: Node, part: Node)
    requires whole.Dir? && part.Dir? && part.entries.Keys <= whole.entries.Keys
    requires forall name :: name in part.entries ==> part.entries[name] == whole.entries[name]
    ensures Remains(whole, part)
  {
    forall name | name in part.entries
      ensures Remains(whole.entries[name], part.entries[name])
    {
      RemainsRefl(part.entries[name]);
    }
  }

  // A file in what remains is a file of the whole.
  lemma {:induction false} RemainsFiles(whole: Node, part: Node, path: seq<string>)
    requires Remains(whole, part)
    ensures Find(Some(part), path).Some? ==> Find(Some(part), path) == Find(Some(whole), path)
    decreases |path|
  {
    if part.Dir? && path != [] && path[0] in part.entries {
      RemainsFiles(whole.entries[path[0]], part.entries[path[0]], path[1..]);
    }
  }
}
