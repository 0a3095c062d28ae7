/**
  The cache under concurrency. Get holds the cache lock throughout; a set writes
  the row first and takes the lock to clear the cache afterwards, so other calls
  run between the two. A password change clears the keys it re-encrypts one by one
  within its transaction, which other calls see only once it has committed; until
  then they read the old table, and no other call can write.
 */
module ConfigRuns {
  import opened Wrappers
  import opened AesGcm
  import opened Config

  // A password change under way, with the encrypted keys it has still to rewrite and clear.
  datatype Change = Change(oldPassword: string, newPassword: string, todo: set<string>)

  // `clearing` holds the keys that sets have written and not yet cleared, once for each set, and
  // `reread` what has been read of the keys that a change under way has cleared.
  datatype State = State(table: Table, cache: Cache, clearing: multiset<string>, change: Option<Change>,
                         reread: set<(string, string)>)

  function Unlocked(table: Table): State {
    State(table, map[], multiset{}, None, {})
  }

  datatype Move =
    | Get(key: string, password: string)
    | WriteRow(key: string, value: string, conflict: OnConflict, password: string, salt: Bytes, nonce: Bytes)
    | ClearCache(key: string)
    | BeginChange(oldPassword: string, newPassword: string)
    | RewriteRow(key: string)
    | RollBack
    | CommitChange(after: Table)

  function Without(reread: set<(string, string)>, key: string): set<(string, string)> {
    set pair | pair in reread && pair.0 != key
  }

  function Step<Key>(c: Crypto<Key>, hash: string -> string, s: State, move: Move): State {
    match move
    case Get(key, password) =>
      var value := Read(c, s.table, key, password);
      var s' := if Cached(s.cache, key, KeyHash(hash, password)) || value.Err? then s
                else s.(cache := Remember(s.cache, key, KeyHash(hash, password), value.value));
      if Cached(s'.cache, key, KeyHash(hash, password)) then s'.(reread := s.reread + {(key, password)}) else s'
    case WriteRow(key, value, conflict, password, salt, nonce) =>
      if s.change.Some? then s
      else s.(table := Write(s.table, key, Stored(c, value, password, salt, nonce), conflict),
              clearing := s.clearing + multiset{key})
    case ClearCache(key) =>
      if key in s.clearing
      then s.(cache := s.cache - {key}, clearing := s.clearing - multiset{key}, reread := Without(s.reread, key))
      else s
    case BeginChange(oldPassword, newPassword) =>
      if s.change.Some? then s
      else s.(change := Some(Change(oldPassword, newPassword, EncryptedKeys(s.table))), reread := {})
    case RewriteRow(key) =>
      if s.change.Some? && key in s.change.value.todo
      then s.(cache := s.cache - {key}, reread := Without(s.reread, key),
              change := Some(s.change.value.(todo := s.change.value.todo - {key})))
      else s
    case RollBack => s.(change := None)
    case CommitChange(after) =>
      if s.change.Some? && s.change.value.todo == {} then s.(table := after, change := None) else s
  }

  // What Get returns.
  function Answer<Key>(c: Crypto<Key>, hash: string -> string, s: State, key: string,
                       password: string): Result<string, DecryptError> {
    if Cached(s.cache, key, KeyHash(hash, password)) then Ok(s.cache[key][KeyHash(hash, password)])
    else Read(c, s.table, key, password)
  }

  function Run<Key>(c: Crypto<Key>, hash: string -> string, s: State, moves: seq<Move>): State {
    if moves == [] then s
    else Step(c, hash, Run(c, hash, s, moves[..|moves| - 1]), moves[|moves| - 1])
  }

  ghost predicate CoherentUnlessClearing<Key>(c: Crypto<Key>, hash: string -> string, known: set<string>, s: State) {
    forall key :: key !in s.clearing ==> KeyCoherent(c, hash, known, s.table, s.cache, key)
  }

  lemma {:induction false} StepStaysCoherent<Key>(c: Crypto<Key>, hash: string -> string, known: set<string>, s: State,
                                                  move: Move)
    requires TellsApart(hash, known) && CoherentUnlessClearing(c, hash, known, s)
    requires move.Get? ==> move.password in known
    requires !move.CommitChange?
    ensures CoherentUnlessClearing(c, hash, known, Step(c, hash, s, move))
  {
    var s' := Step(c, hash, s, move);
    forall key | key !in s'.clearing
      ensures KeyCoherent(c, hash, known, s'.table, s'.cache, key)
    {
      if key !in s.clearing {
        assert KeyCoherent(c, hash, known, s.table, s.cache, key);
        if move.Get? {
          GetKeepsKey(c, hash, known, s, move.key, move.password, key);
        }
      }
    }
  }

  lemma {:induction false} GetKeepsKey<Key>(c: Crypto<Key>, hash: string -> string, known: set<string>, s: State,
                                            read: string, password: string, key: string)
    requires TellsApart(hash, known) && password in known && KeyCoherent(c, hash, known, s.table, s.cache, key)
    ensures KeyCoherent(c, hash, known, s.table, Step(c, hash, s, Get(read, password)).cache, key)
  {
  }

  /**
    Whatever reads, sets and changes under way interleave, a key no set is about to clear is cached as it is stored.
   */
  lemma {:induction false} CacheStaysCoherent<Key>(c: Crypto<Key>, hash: string -> string, known: set<string>,
                                                   s: State, moves: seq<Move>)
    requires TellsApart(hash, known) && CoherentUnlessClearing(c, hash, known, s)
    requires forall i :: 0 <= i < |moves| ==> (moves[i].Get? ==> moves[i].password in known) && !moves[i].CommitChange?
    ensures CoherentUnlessClearing(c, hash, known, Run(c, hash, s, moves))
  {
    if moves == [] {
    } else {
      CacheStaysCoherent(c, hash, known, s, moves[..|moves| - 1]);
      StepStaysCoherent(c, hash, known, Run(c, hash, s, moves[..|moves| - 1]), moves[|moves| - 1]);
    }
  }

  /** Once every set of a key has returned, Get gives what an uncached read gives. */
  lemma {:induction false} NoStaleAnswerAfterSets<Key>(c: Crypto<Key>, hash: string -> string, known: set<string>,
                                                       table: Table, moves: seq<Move>, key: string, password: string)
    requires TellsApart(hash, known) && password in known
    requires forall i :: 0 <= i < |moves| ==> (moves[i].Get? ==> moves[i].password in known) && !moves[i].CommitChange?
    requires key !in Run(c, hash, Unlocked(table), moves).clearing
    ensures var s := Run(c, hash, Unlocked(table), moves);
            Answer(c, hash, s, key, password) == Read(c, s.table, key, password)
  {
    CacheStaysCoherent(c, hash, known, Unlocked(table), moves);
    var s := Run(c, hash, Unlocked(table), moves);
    assert KeyCoherent(c, hash, known, s.table, s.cache, key);
  }

  // No later write of a key and no commit.
  predicate LeavesKey(moves: seq<Move>, key: string) {
    forall j :: 0 <= j < |moves| ==> !moves[j].CommitChange? && !(moves[j].WriteRow? && moves[j].key == key)
  }

  predicate Holds(s: State, key: string, entry: Entry) {
    key in s.table && s.table[key] == entry
  }

  lemma {:induction false} StepLeavesKey<Key>(c: Crypto<Key>, hash: string -> string, s: State, move: Move, key: string,
                                              entry: Entry)
    requires Holds(s, key, entry) && !move.CommitChange? && !(move.WriteRow? && move.key == key)
    ensures Holds(Step(c, hash, s, move), key, entry)
  {
  }

  lemma {:induction false} EntryStays<Key>(c: Crypto<Key>, hash: string -> string, s: State, moves: seq<Move>,
                                           key: string, entry: Entry)
    requires LeavesKey(moves, key) && Holds(s, key, entry)
    ensures Holds(Run(c, hash, s, moves), key, entry)
  {
    if moves != [] {
      var n := |moves| - 1;
      EntryStays(c, hash, s, moves[..n], key, entry);
      StepLeavesKey(c, hash, Run(c, hash, s, moves[..n]), moves[n], key, entry);
    }
  }

  /**
    Once a set has written, from any state that runs reach, and every set of its key has returned, its value is
    answered until the key is written again.
   */
  lemma {:induction false} LastSetIsAnswered<Key(!new)>(c: Crypto<Key>, hash: string -> string, known: set<string>,
                                                        s: State, write: Move, later: seq<Move>)
    requires Authentic(c) && TellsApart(hash, known) && CoherentUnlessClearing(c, hash, known, s) && s.change == None
    requires write.WriteRow? && write.conflict == UpdateEntry && IsText(write.value) && write.password in known
    requires forall i :: 0 <= i < |later| && later[i].Get? ==> later[i].password in known
    requires LeavesKey(later, write.key)
    requires write.key !in Run(c, hash, Step(c, hash, s, write), later).clearing
    ensures Answer(c, hash, Run(c, hash, Step(c, hash, s, write), later), write.key, write.password) == Ok(write.value)
  {
    var written := Step(c, hash, s, write);
    WrittenReads(c, s.table, write.key, write.value, UpdateEntry, write.password, write.salt, write.nonce);
    EntryStays(c, hash, written, later, write.key, written.table[write.key]);
    StepStaysCoherent(c, hash, known, s, write);
    CacheStaysCoherent(c, hash, known, written, later);
    var end := Run(c, hash, written, later);
    assert KeyCoherent(c, hash, known, end.table, end.cache, write.key);
  }

  /** A set that runs to its end is answered from then on. */
  lemma {:induction false} SetReturnsItsValue<Key(!new)>(c: Crypto<Key>, hash: string -> string, known: set<string>,
                                                         s: State, write: Move)
    requires Authentic(c) && TellsApart(hash, known) && CoherentUnlessClearing(c, hash, known, s) && s.change == None
    requires write.WriteRow? && write.conflict == UpdateEntry && IsText(write.value) && write.password in known
    ensures var end := Step(c, hash, Step(c, hash, s, write), ClearCache(write.key));
            && end.clearing == s.clearing && end.change == None && end.table.Keys == s.table.Keys + {write.key}
            && Answer(c, hash, end, write.key, write.password) == Ok(write.value)
  {
    WrittenReads(c, s.table, write.key, write.value, UpdateEntry, write.password, write.salt, write.nonce);
  }

  /** Between a set's write and its clearing a cached value is stale exactly when the write changed what is read. */
  lemma StaleBetweenWriteAndClear<Key>(c: Crypto<Key>, hash: string -> string, known: set<string>, s: State,
                                       key: string,
                                       value: string, conflict: OnConflict, password: string, salt: Bytes, nonce: Bytes, reader: string)
    requires CoherentUnlessClearing(c, hash, known, s) && key !in s.clearing && s.change == None
    requires reader in known && Cached(s.cache, key, KeyHash(hash, reader))
    ensures var s' := Step(c, hash, s, WriteRow(key, value, conflict, password, salt, nonce));
            Answer(c, hash, s', key, reader) == Read(c, s'.table, key, reader)
            <==> Read(c, s'.table, key, reader) == Read(c, s.table, key, reader)
  {
    assert KeyCoherent(c, hash, known, s.table, s.cache, key);
  }

  // ---------------------------------------------------------------- a password change between other calls

  // What a change has cleared is cached exactly as far as it has been read since.
  ghost predicate Tracked(hash: string -> string, known: set<string>, s: State) {
    s.change.Some? ==>
      forall key, p :: key in EncryptedKeys(s.table) && key !in s.change.value.todo && p in known ==>
        (Cached(s.cache, key, KeyHash(hash, p)) <==> (key, p) in s.reread)
  }

  lemma {:induction false} StepStaysTracked<Key>(c: Crypto<Key>, hash: string -> string, known: set<string>, s: State,
                                                 move: Move)
    requires TellsApart(hash, known) && Tracked(hash, known, s)
    requires move.Get? ==> move.password in known
    ensures Tracked(hash, known, Step(c, hash, s, move))
  {
  }

  /**
    In every interleaving, and from any state with no change under way, a change's cleared keys are cached exactly as
    far as they were read since.
   */
  lemma {:induction false} RunStaysTracked<Key>(c: Crypto<Key>, hash: string -> string, known: set<string>, s: State,
                                                moves: seq<Move>)
    requires TellsApart(hash, known) && s.change == None
    requires forall i :: 0 <= i < |moves| && moves[i].Get? ==> moves[i].password in known
    ensures Tracked(hash, known, Run(c, hash, s, moves))
  {
    if moves == [] {
    } else {
      RunStaysTracked(c, hash, known, s, moves[..|moves| - 1]);
      StepStaysTracked(c, hash, known, Run(c, hash, s, moves[..|moves| - 1]), moves[|moves| - 1]);
    }
  }

  // While a change is under way nothing is written.
  lemma {:induction false} ChangeBlocksWrites<Key>(c: Crypto<Key>, hash: string -> string, s: State, moves: seq<Move>)
    requires s.change == None && s.clearing == multiset{}
    requires moves != [] && moves[0].BeginChange?
    requires forall i :: 0 <= i < |moves| ==> !moves[i].CommitChange? && !moves[i].RollBack?
    ensures var s' := Run(c, hash, s, moves); s'.change.Some? && s'.table == s.table && s'.clearing == multiset{}
  {
    var n := |moves| - 1;
    if n > 0 {
      ChangeBlocksWrites(c, hash, s, moves[..n]);
    } else {
      assert moves[..0] == [];
    }
  }

  /** A change that is rolled back, whatever it has cleared and whatever was read meanwhile, has changed no answer. */
  lemma {:induction false} RolledBackChangeIsInvisible<Key>(c: Crypto<Key>, hash: string -> string, known: set<string>,
                                                            s: State, moves: seq<Move>, key: string, password: string)
    requires TellsApart(hash, known) && password in known
    requires CoherentUnlessClearing(c, hash, known, s) && s.change == None && s.clearing == multiset{}
    requires moves != [] && moves[0].BeginChange?
    requires forall i :: 0 <= i < |moves| ==>
               (moves[i].Get? ==> moves[i].password in known) && !moves[i].CommitChange? && !moves[i].RollBack?
    ensures var s' := Step(c, hash, Run(c, hash, s, moves), RollBack);
            && s'.change == None && s'.table == s.table
            && Answer(c, hash, s', key, password) == Answer(c, hash, s, key, password)
  {
    ChangeBlocksWrites(c, hash, s, moves);
    CacheStaysCoherent(c, hash, known, s, moves);
    var s' := Run(c, hash, s, moves);
    assert KeyCoherent(c, hash, known, s.table, s.cache, key) && KeyCoherent(c, hash, known, s'.table, s'.cache, key);
  }

  // The rows were encrypted under the old password, the new one has a key of its own, and printed values are fresh.
  ghost predicate FreshChange<Key(!new)>(c: Crypto<Key>, known: set<string>, before: Table, after: Table,
                                         oldPassword: string, newPassword: string,
                                         draw: string -> (Bytes, Bytes)) {
    && oldPassword in known && newPassword in known && newPassword != "" && oldPassword != ""
    && Rekeyed(c, before, after, oldPassword, newPassword, draw)
    && forall key :: key in EncryptedKeys(before) ==>
         && before[key].value != ""
         && (forall p :: p in known && p != "" ==> (Read(c, before, key, p).Ok? <==> p == oldPassword))
         && (key in after ==> after[key].value != before[key].value)
         && (forall p :: p in known && p != newPassword ==>
                c.deriveKey(p, draw(key).0) != c.deriveKey(newPassword, draw(key).0))
  }

  // A key read while the change was under way still reads so once it has committed.
  predicate HarmlessReread<Key>(c: Crypto<Key>, before: Table, change: Change, key: string, p: string) {
    if key == JWT_KEY then Read(c, before, JWT_KEY, p) == Ok("") else p == change.newPassword == change.oldPassword
  }

  // No re-encrypted key was read between its clearing and the commit, and no JWT secret stored in the clear is cached.
  ghost predicate NothingReread<Key>(c: Crypto<Key>, hash: string -> string, known: set<string>, s: State)
    requires s.change.Some?
  {
    && (forall key, p :: key in EncryptedKeys(s.table) && p in known && (key, p) in s.reread && key !in s.clearing ==>
          HarmlessReread(c, s.table, s.change.value, key, p))
    && (JWT_KEY in s.clearing || JwtCacheHarmless(hash, known, s.table, s.cache))
  }

  /**
    Once a password change has committed the cache is coherent exactly when no key it re-encrypted was read
    between its clearing and the commit, nor a JWT secret stored in the clear before; a read by a password that
    the change did not change does no harm.
   */
  lemma {:induction false} CommitCoherentIff<Key(!new)>(c: Crypto<Key>, hash: string -> string, known: set<string>,
                                                        s: State, after: Table, draw: string -> (Bytes, Bytes))
    requires TellsApart(hash, known) && CoherentUnlessClearing(c, hash, known, s) && Tracked(hash, known, s)
    requires s.change.Some? && s.change.value.todo == {}
    requires FreshChange(c, known, s.table, after, s.change.value.oldPassword, s.change.value.newPassword, draw)
    ensures CoherentUnlessClearing(c, hash, known, Step(c, hash, s, CommitChange(after)))
            <==> NothingReread(c, hash, known, s)
  {
    var s' := Step(c, hash, s, CommitChange(after));
    assert s'.table == after && s'.cache == s.cache && s'.clearing == s.clearing;
    if NothingReread(c, hash, known, s) {
      forall key | key !in s.clearing
        ensures KeyCoherent(c, hash, known, after, s.cache, key)
      {
        CommitKeepsKey(c, hash, known, s, after, draw, key);
      }
    } else if JWT_KEY !in s.clearing && !JwtCacheHarmless(hash, known, s.table, s.cache) {
      ClearSecretStaysCached(c, hash, known, s, after);
    } else {
      var key, p :| key in EncryptedKeys(s.table) && p in known && (key, p) in s.reread && key !in s.clearing
                    && !HarmlessReread(c, s.table, s.change.value, key, p);
      CommitSpoilsKey(c, hash, known, s, after, draw, key, p);
    }
  }

  lemma {:induction false} ClearSecretStaysCached<Key>(c: Crypto<Key>, hash: string -> string, known: set<string>,
                                                       s: State, after: Table)
    requires CoherentUnlessClearing(c, hash, known, s) && JWT_KEY !in s.clearing && JWT_KEY !in after
    requires !JwtCacheHarmless(hash, known, s.table, s.cache)
    ensures !KeyCoherent(c, hash, known, after, s.cache, JWT_KEY)
  {
    var p :| p in known && Cached(s.cache, JWT_KEY, KeyHash(hash, p));
    assert KeyCoherent(c, hash, known, s.table, s.cache, JWT_KEY);
    assert Read(c, s.table, JWT_KEY, p) == Ok(s.cache[JWT_KEY][KeyHash(hash, p)]);
  }

  lemma {:induction false} CommitKeepsKey<Key(!new)>(c: Crypto<Key>, hash: string -> string, known: set<string>,
                                                     s: State, after: Table,
                                                     draw: string -> (Bytes, Bytes), key: string)
    requires TellsApart(hash, known) && CoherentUnlessClearing(c, hash, known, s) && Tracked(hash, known, s)
    requires s.change.Some? && s.change.value.todo == {}
    requires FreshChange(c, known, s.table, after, s.change.value.oldPassword, s.change.value.newPassword, draw)
    requires NothingReread(c, hash, known, s) && key !in s.clearing
    ensures KeyCoherent(c, hash, known, after, s.cache, key)
  {
    var Change(oldPassword, newPassword, _) := s.change.value;
    assert KeyCoherent(c, hash, known, s.table, s.cache, key);
    RekeyedReads(c, s.table, after, oldPassword, newPassword, draw, key);
    forall p | p in known && Cached(s.cache, key, KeyHash(hash, p))
      ensures Read(c, after, key, p) == Ok(s.cache[key][KeyHash(hash, p)])
    {
      if key in EncryptedKeys(s.table) {
        assert (key, p) in s.reread && HarmlessReread(c, s.table, s.change.value, key, p);
      }
    }
  }

  lemma {:induction false} CommitSpoilsKey<Key(!new)>(c: Crypto<Key>, hash: string -> string, known: set<string>,
                                                      s: State, after: Table,
                                                      draw: string -> (Bytes, Bytes), key: string, p: string)
    requires TellsApart(hash, known) && CoherentUnlessClearing(c, hash, known, s) && Tracked(hash, known, s)
    requires s.change.Some? && s.change.value.todo == {}
    requires FreshChange(c, known, s.table, after, s.change.value.oldPassword, s.change.value.newPassword, draw)
    requires key in EncryptedKeys(s.table) && p in known && (key, p) in s.reread && key !in s.clearing
    requires !HarmlessReread(c, s.table, s.change.value, key, p)
    ensures Cached(s.cache, key, KeyHash(hash, p)) && s.cache[key][KeyHash(hash, p)] == Read(c, s.table, key, p).value
    ensures Read(c, after, key, p) != Ok(s.cache[key][KeyHash(hash, p)])
    ensures !KeyCoherent(c, hash, known, after, s.cache, key)
  {
    assert KeyCoherent(c, hash, known, s.table, s.cache, key);
    assert Read(c, s.table, key, p) == Ok(s.cache[key][KeyHash(hash, p)]);
    if key != JWT_KEY && p != "" {
      assert p == s.change.value.oldPassword && p != s.change.value.newPassword;
      assert Read(c, after, key, p) == DecryptWithPassword(c, after[key].value, p);
    }
  }

  /**
    If the password check is read under the old password at the wrong time, the old password goes on passing after a
    successful change.
   */
  lemma {:induction false} OldPasswordStillPasses<Key(!new)>(c: Crypto<Key>, hash: string -> string,
      known: set<string>, s: State, after: Table,
                                                             draw: string -> (Bytes, Bytes))
    requires TellsApart(hash, known) && CoherentUnlessClearing(c, hash, known, s) && Tracked(hash, known, s)
    requires s.change.Some? && s.change.value.todo == {} && s.change.value.oldPassword != s.change.value.newPassword
    requires FreshChange(c, known, s.table, after, s.change.value.oldPassword, s.change.value.newPassword, draw)
    requires CHECK_KEY in EncryptedKeys(s.table) && (CHECK_KEY, s.change.value.oldPassword) in s.reread
    requires CHECK_KEY !in s.clearing
    requires Passes(c, s.table, s.change.value.oldPassword)
    ensures !Passes(c, after, s.change.value.oldPassword)
    ensures Answer(c, hash, Step(c, hash, s, CommitChange(after)), CHECK_KEY, s.change.value.oldPassword)
            == Ok(UNLOCK_PASSWORD_CHECK)
  {
    CheckIsNotEncrypted();
    CommitSpoilsKey(c, hash, known, s, after, draw, CHECK_KEY, s.change.value.oldPassword);
  }

  // ---------------------------------------------------------------- such a change can happen

  // A toy cipher with two keys, one of them for the new password, that writes its key in front of the text.
  function TwoKeys(): Crypto<bool> {
    Toy().(deriveKey := (password: string, salt: Bytes) => password == "new")
  }

  function Same(password: string): string {
    password
  }

  function CheckUnder(password: string): Table {
    map[CHECK_KEY := Stored(TwoKeys(), UNLOCK_PASSWORD_CHECK, password, [], [])]
  }

  lemma {:induction false} CheckUnderOpensIff(password: string, other: string)
    requires password != "" && other != ""
    ensures Read(TwoKeys(), CheckUnder(password), CHECK_KEY, other)
         == if (other == "new") == (password == "new") then Ok(UNLOCK_PASSWORD_CHECK) else Err(Rejected)
    ensures StartsInHex(CheckUnder(password)[CHECK_KEY].value)
  {
    AuthenticCanBeMet();
    CheckIsText();
    EncryptedOpensIff(TwoKeys(), UNLOCK_PASSWORD_CHECK, password, [], [], other);
    EncryptedStartsInHex(TwoKeys(), UNLOCK_PASSWORD_CHECK, password, [], []);
  }

  lemma {:induction false} ExampleIsRekeyed()
    ensures Rekeyed(TwoKeys(), CheckUnder("old"), CheckUnder("new"), "old", "new", _ => ([], []))
  {
    AuthenticCanBeMet();
    CheckIsText();
    CheckIsNotEncrypted();
    CheckUnderOpensIff("old", "old");
    EncryptReencrypts(TwoKeys(), CheckUnder("old")[CHECK_KEY], UNLOCK_PASSWORD_CHECK, "new", [], []);
  }

  // One key is rewritten, read again under a password, and the change commits.
  lemma {:induction false} RereadOnce<Key>(c: Crypto<Key>, before: Table, after: Table, key: string,
                                           oldPassword: string, newPassword: string)
    requires EncryptedKeys(before) == {key} && oldPassword != "" && Read(c, before, key, oldPassword).Ok?
    ensures var moves := [BeginChange(oldPassword, newPassword), RewriteRow(key), Get(key, oldPassword),
                          CommitChange(after)];
            var value := Read(c, before, key, oldPassword).value;
            Run(c, Same, Unlocked(before), moves)
            == State(after, map[key := map[oldPassword := value]], multiset{}, None, {(key, oldPassword)})
  {
    var begin, rewrite, get, commit := BeginChange(oldPassword, newPassword), RewriteRow(key), Get(key, oldPassword), CommitChange(after);
    RunTwo(c, Unlocked(before), [], begin, rewrite);
    RunTwo(c, Unlocked(before), [begin, rewrite], get, commit);
    assert [] + [begin, rewrite] == [begin, rewrite] && [begin, rewrite] + [get, commit] == [begin, rewrite, get, commit];
    var value := Read(c, before, key, oldPassword).value;
    var change := Some(Change(oldPassword, newPassword, {}));
    OneKeyRewritten(c, before, key, oldPassword, newPassword);
    OneKeyReread(c, State(before, map[], multiset{}, change, {}), key, oldPassword, value);
  }

  lemma {:induction false} OneKeyRewritten<Key>(c: Crypto<Key>, before: Table, key: string, oldPassword: string,
                                                newPassword: string)
    requires EncryptedKeys(before) == {key}
    ensures Step(c, Same, Step(c, Same, Unlocked(before), BeginChange(oldPassword, newPassword)), RewriteRow(key))
         == State(before, map[], multiset{}, Some(Change(oldPassword, newPassword, {})), {})
  {
    var s := Step(c, Same, Unlocked(before), BeginChange(oldPassword, newPassword));
    assert s.cache - {key} == map[] && Without(s.reread, key) == {} && s.change.value.todo - {key} == {};
  }

  lemma {:induction false} OneKeyReread<Key>(c: Crypto<Key>, s: State, key: string, password: string, value: string)
    requires s.cache == map[] && s.reread == {} && password != "" && Read(c, s.table, key, password) == Ok(value)
    ensures Step(c, Same, s, Get(key, password))
            == s.(cache := map[key := map[password := value]], reread := {(key, password)})
  {
    assert Remember(s.cache, key, password, value) == map[key := map[password := value]];
  }

  lemma {:induction false} RunTwo<Key>(c: Crypto<Key>, s: State, moves: seq<Move>, first: Move, second: Move)
    ensures Run(c, Same, s, moves + [first, second])
            == Step(c, Same, Step(c, Same, Run(c, Same, s, moves), first), second)
  {
    var once, twice := moves + [first], moves + [first, second];
    assert once[..|once| - 1] == moves && once[|once| - 1] == first;
    assert twice[..|twice| - 1] == once && twice[|twice| - 1] == second;
    var middle := Run(c, Same, s, once);
    assert middle == Step(c, Same, Run(c, Same, s, moves), first);
    assert Run(c, Same, s, twice) == Step(c, Same, middle, second);
  }

  /**
    A change from "old" to "new" with one read of the check in between, after which the old password is answered as
    passing.
   */
  lemma {:induction false} OldPasswordPassesInExample()
    ensures var moves := [BeginChange("old", "new"), RewriteRow(CHECK_KEY), Get(CHECK_KEY, "old"),
                          CommitChange(CheckUnder("new"))];
            var s := Run(TwoKeys(), Same, Unlocked(CheckUnder("old")), moves);
            && s.table == CheckUnder("new") && s.change == None
            && Rekeyed(TwoKeys(), CheckUnder("old"), s.table, "old", "new", _ => ([], []))
            && !Passes(TwoKeys(), s.table, "old")
            && Answer(TwoKeys(), Same, s, CHECK_KEY, "old") == Ok(UNLOCK_PASSWORD_CHECK)
  {
    ExampleIsRekeyed();
    CheckUnderOpensIff("old", "old");
    CheckUnderOpensIff("new", "old");
    assert EncryptedKeys(CheckUnder("old")) == {CHECK_KEY};
    RereadOnce(TwoKeys(), CheckUnder("old"), CheckUnder("new"), CHECK_KEY, "old", "new");
  }

  // A table with the check and a secret stored in the clear, which has been read.
  const SECRET := Entry("s", false)
  const SECRET_READ: Cache := map[JWT_KEY := map["" := "s"]]

  lemma {:induction false} SecretIsCoherent(table: Table)
    requires JWT_KEY in table && table[JWT_KEY] == SECRET
    ensures Coherent(TwoKeys(), Same, {"", "old", "new"}, table, SECRET_READ)
  {
    forall key
      ensures KeyCoherent(TwoKeys(), Same, {"", "old", "new"}, table, SECRET_READ, key)
    {
    }
  }

  /** A secret stored in the clear that has been read is still answered after a change that removed it. */
  lemma {:induction false} ClearSecretIsStaleInExample()
    ensures var before, after := CheckUnder("old")[JWT_KEY := SECRET], CheckUnder("new");
            var known := {"", "old", "new"};
            && Rekeyed(TwoKeys(), before, after, "old", "new", _ => ([], []))
            && TellsApart(Same, known) && Coherent(TwoKeys(), Same, known, before, SECRET_READ)
            && !Coherent(TwoKeys(), Same, known, after, SECRET_READ - EncryptedKeys(before))
  {
    var before, after := CheckUnder("old")[JWT_KEY := SECRET], CheckUnder("new");
    ExampleIsRekeyed();
    CheckIsNotEncrypted();
    assert before.Keys - {JWT_KEY} == after.Keys;
    assert Read(TwoKeys(), before, CHECK_KEY, "old") == Read(TwoKeys(), CheckUnder("old"), CHECK_KEY, "old");
    SecretIsCoherent(before);
    RekeyedCoherentIff(TwoKeys(), Same, {"", "old", "new"}, before, SECRET_READ, after,
                       SECRET_READ - EncryptedKeys(before), "old", "new", _ => ([], []));
    assert Cached(SECRET_READ, JWT_KEY, KeyHash(Same, ""));
    assert SECRET.value != "";
  }
}
