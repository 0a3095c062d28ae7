/**
  The configuration store: a key/value table with optional encryption per row, and
  a cache of reads keyed by configuration key and password hash.
 */
module Config {
  import opened Wrappers
  import opened AesGcm

  datatype Entry = Entry(value: string, encrypted: bool)

  type Table = map<string, Entry>

  type Cache = map<string, map<string, string>>

  // What an insert does when the key exists: nothing, overwrite the entry, or overwrite its value only.
  datatype OnConflict = DoNothing | UpdateEntry | UpdateValue

  const UNLOCK_PASSWORD_CHECK := "THIS" + " STRING" + " SHOULD" + " MATCH" + " IF" + " PASSWORD" + " IS" + " CORRECT"
  const CHECK_KEY := "UnlockPasswordCheck"
  const JWT_KEY := "JWTSecret"

  // ---------------------------------------------------------------- uncached reads and writes

  function Read<Key>(c: Crypto<Key>, table: Table, key: string, password: string): Result<string, DecryptError> {
    if key !in table then Ok("")
    else if table[key].value != "" && password != "" && table[key].encrypted then DecryptWithPassword(c, table[key].value, password)
    else Ok(table[key].value)
  }

  function Stored<Key>(c: Crypto<Key>, value: string, password: string, salt: Bytes, nonce: Bytes): Entry {
    if password != "" then Entry(EncryptWithPassword(c, value, password, salt, nonce), true) else Entry(value, false)
  }

  function Write(table: Table, key: string, entry: Entry, conflict: OnConflict): Table {
    if key in table && conflict == DoNothing then table
    else if key in table && conflict == UpdateValue then table[key := table[key].(value := entry.value)]
    else table[key := entry]
  }

  // What a key's row reads as after an insert that found no row, or overwrote the one it found.
  ghost predicate HoldsValue<Key(!new)>(c: Crypto<Key>, table: Table, key: string, value: string, password: string,
                                        salt: Bytes) {
    && key in table && table[key].encrypted == (password != "")
    && Read(c, table, key, password) == Ok(value)
    && forall p :: Read(c, table, key, p) ==
         if password == "" then Ok(value)
         else if p == "" then Ok(table[key].value)
         else if c.deriveKey(p, salt) == c.deriveKey(password, salt) then Ok(value)
         else Err(Rejected)
  }

  /** A value written reads back under its password, under another only with the same key, and nothing else changes. */
  lemma {:induction false} WrittenReads<Key(!new)>(c: Crypto<Key>, table: Table, key: string, value: string,
                                                   conflict: OnConflict, password: string, salt: Bytes, nonce: Bytes)
    requires Authentic(c) && IsText(value)
    ensures var after := Write(table, key, Stored(c, value, password, salt, nonce), conflict);
            && (key !in table || conflict == UpdateEntry ==> HoldsValue(c, after, key, value, password, salt))
            && (key in table && conflict == DoNothing ==> after == table)
            && (key in table && conflict == UpdateValue ==>
                  && key in after && after[key].encrypted == table[key].encrypted
                  && (table[key].encrypted && password != "" ==> Read(c, after, key, password) == Ok(value))
                  && (password == "" ==> after[key].value == value))
            && after.Keys == table.Keys + {key}
            && (forall k :: k in table && k != key ==> after[k] == table[k])
  {
    if password != "" {
      EncryptedStartsInHex(c, value, password, salt, nonce);
      forall p
        ensures DecryptWithPassword(c, EncryptWithPassword(c, value, password, salt, nonce), p)
                == if c.deriveKey(p, salt) == c.deriveKey(password, salt) then Ok(value) else Err(Rejected)
      {
        EncryptedOpensIff(c, value, password, salt, nonce, p);
      }
    }
  }

  predicate AllText(table: Table) {
    forall key :: key in table ==> IsText(table[key].value)
  }

  lemma EncryptedIsText<Key>(c: Crypto<Key>, value: string, password: string, salt: Bytes, nonce: Bytes)
    ensures IsText(EncryptWithPassword(c, value, password, salt, nonce))
  {
    var key := c.deriveKey(password, salt);
    HexIsText(salt);
    HexIsText(nonce);
    HexIsText(c.seal(key, nonce, TextBytes(value)));
  }

  lemma {:induction false} HexIsText(bytes: Bytes)
    ensures IsText(EncodeHex(bytes))
  {
    if bytes == [] {
    } else {
      HexIsText(bytes[1..]);
    }
  }

  lemma ReadIsText<Key>(c: Crypto<Key>, table: Table, key: string, password: string)
    requires AllText(table)
    ensures Read(c, table, key, password).Ok? ==> IsText(Read(c, table, key, password).value)
  {
  }

  // ---------------------------------------------------------------- the cache

  function KeyHash(hash: string -> string, password: string): string {
    if password == "" then "" else hash(password)
  }

  // The truncated hash tells the passwords in use apart, and from no password.
  ghost predicate TellsApart(hash: string -> string, known: set<string>) {
    && "" in known
    && (forall p :: p in known && p != "" ==> hash(p) != "")
    && (forall p, q :: p in known && q in known && p != "" && q != "" && hash(p) == hash(q) ==> p == q)
  }

  predicate Cached(cache: Cache, key: string, hashed: string) {
    key in cache && hashed in cache[key]
  }

  function Remember(cache: Cache, key: string, hashed: string, value: string): Cache {
    cache[key := (if key in cache then cache[key] else map[])[hashed := value]]
  }

  // What is cached about a key is what an uncached read would give.
  ghost predicate KeyCoherent<Key>(c: Crypto<Key>, hash: string -> string, known: set<string>, table: Table,
                                   cache: Cache, key: string) {
    forall p :: p in known && Cached(cache, key, KeyHash(hash, p)) ==>
      Read(c, table, key, p) == Ok(cache[key][KeyHash(hash, p)])
  }

  ghost predicate Coherent<Key>(c: Crypto<Key>, hash: string -> string, known: set<string>, table: Table,
                                cache: Cache) {
    forall key :: KeyCoherent(c, hash, known, table, cache, key)
  }

  // ---------------------------------------------------------------- changing the unlock password

  predicate Passes<Key>(c: Crypto<Key>, table: Table, password: string) {
    Read(c, table, CHECK_KEY, password) == Ok(UNLOCK_PASSWORD_CHECK)
  }

  // The entry reads the same under the new password as it did under the old, and under no password with another key.
  ghost predicate Reencrypted<Key(!new)>(c: Crypto<Key>, before: Entry, after: Entry, plain: string, salt: Bytes,
                                         newPassword: string) {
    && after.encrypted && before.encrypted
    && forall p :: p != "" ==>
         DecryptWithPassword(c, after.value, p) == if c.deriveKey(p, salt) == c.deriveKey(newPassword, salt) then Ok(plain) else Err(Rejected)
  }

  ghost predicate Rekeyed<Key(!new)>(c: Crypto<Key>, before: Table, after: Table, oldPassword: string,
                                     newPassword: string, draw: string -> (Bytes, Bytes)) {
    && after.Keys == before.Keys - {JWT_KEY}
    && forall key :: key in after ==>
         if before[key].encrypted
         then
           && Read(c, before, key, oldPassword).Ok?
           && StartsInHex(after[key].value)
           && Reencrypted(c, before[key], after[key], Read(c, before, key, oldPassword).value, draw(key).0, newPassword)
         else after[key] == before[key]
  }

  ghost predicate AllReadable<Key>(c: Crypto<Key>, table: Table, password: string) {
    forall key :: key in table && table[key].encrypted ==> Read(c, table, key, password).Ok?
  }

  lemma EncryptReencrypts<Key(!new)>(c: Crypto<Key>, before: Entry, plain: string, password: string, salt: Bytes,
                                     nonce: Bytes)
    requires Authentic(c) && IsText(plain) && before.encrypted && password != ""
    ensures var after := before.(value := EncryptWithPassword(c, plain, password, salt, nonce));
            Reencrypted(c, before, after, plain, salt, password) && StartsInHex(after.value) && IsText(after.value)
  {
    forall p
      ensures DecryptWithPassword(c, EncryptWithPassword(c, plain, password, salt, nonce), p)
              == if c.deriveKey(p, salt) == c.deriveKey(password, salt) then Ok(plain) else Err(Rejected)
    {
      EncryptedOpensIff(c, plain, password, salt, nonce, p);
    }
    EncryptedStartsInHex(c, plain, password, salt, nonce);
    EncryptedIsText(c, plain, password, salt, nonce);
  }

  /** After a change every encrypted value reads under the new password as under the old, and the JWT secret is gone. */
  lemma RekeyedReads<Key(!new)>(c: Crypto<Key>, before: Table, after: Table, oldPassword: string, newPassword: string,
                                draw: string -> (Bytes, Bytes), key: string)
    requires Rekeyed(c, before, after, oldPassword, newPassword, draw) && newPassword != ""
    ensures Read(c, after, JWT_KEY, newPassword) == Ok("")
    ensures key in before && before[key].encrypted && key != JWT_KEY ==>
              Read(c, after, key, newPassword) == Read(c, before, key, oldPassword)
    ensures key in before && !before[key].encrypted && key != JWT_KEY ==>
              forall p :: Read(c, after, key, p) == Read(c, before, key, p)
  {
  }

  lemma {:induction false} CheckIsText()
    ensures IsText(UNLOCK_PASSWORD_CHECK)
  {
    assert IsText("THIS") && IsText(" STRING") && IsText(" SHOULD") && IsText(" MATCH");
    assert IsText(" IF") && IsText(" PASSWORD") && IsText(" IS") && IsText(" CORRECT");
  }

  lemma CheckIsNotEncrypted()
    ensures !StartsInHex(UNLOCK_PASSWORD_CHECK) && CHECK_KEY != JWT_KEY && UNLOCK_PASSWORD_CHECK != ""
  {
    assert UNLOCK_PASSWORD_CHECK[0] == 'T';
    assert HexValue('T') == None;
  }

  /**
    After a change a password with another key passes the check exactly when the check was stored unencrypted, as then
    any password does.
   */
  lemma OnlyNewPasswordPasses<Key(!new)>(c: Crypto<Key>, before: Table, after: Table, oldPassword: string,
                                         newPassword: string, draw: string -> (Bytes, Bytes), other: string)
    requires Rekeyed(c, before, after, oldPassword, newPassword, draw) && newPassword != ""
    requires Passes(c, before, oldPassword)
    requires other == "" || c.deriveKey(other, draw(CHECK_KEY).0) != c.deriveKey(newPassword, draw(CHECK_KEY).0)
    ensures Passes(c, after, newPassword)
    ensures Passes(c, after, other) <==> !before[CHECK_KEY].encrypted
  {
    CheckIsNotEncrypted();
    RekeyedPasses(c, before, after, oldPassword, newPassword, draw, CHECK_KEY, UNLOCK_PASSWORD_CHECK, other);
  }

  lemma RekeyedPasses<Key(!new)>(c: Crypto<Key>, before: Table, after: Table, oldPassword: string, newPassword: string,
                                 draw: string -> (Bytes, Bytes), key: string, text: string, other: string)
    requires Rekeyed(c, before, after, oldPassword, newPassword, draw) && newPassword != ""
    requires key != JWT_KEY && text != "" && !StartsInHex(text) && Read(c, before, key, oldPassword) == Ok(text)
    requires other == "" || c.deriveKey(other, draw(key).0) != c.deriveKey(newPassword, draw(key).0)
    ensures key in before
    ensures Read(c, after, key, newPassword) == Ok(text)
    ensures Read(c, after, key, other) == Ok(text) <==> !before[key].encrypted
  {
    assert key in after;
  }

  // A stored secret is good for a password that opens it to something other than what is stored and not empty.
  predicate KeepsSecret<Key>(c: Crypto<Key>, table: Table, password: string) {
    && JWT_KEY in table && table[JWT_KEY].encrypted && table[JWT_KEY].value != ""
    && var secret := DecryptWithPassword(c, table[JWT_KEY].value, password);
       secret.Ok? && secret.value != "" && secret.value != table[JWT_KEY].value
  }

  // ---------------------------------------------------------------- the store

  datatype ChangeError = EmptyPassword | IncorrectPassword | Unreadable

  class Store<Key(!new)> {
    const crypto: Crypto<Key>
    const hash: string -> string
    ghost const known: set<string>
    var table: Table
    var cache: Cache
    var jwtSecret: string
    // The password the secret in memory was loaded with, since the last password change.
    ghost var unlockedWith: Option<string>

    constructor (crypto: Crypto<Key>, hash: string -> string, ghost known: set<string>, table: Table)
      requires Authentic(crypto) && TellsApart(hash, known) && AllText(table)
      ensures Valid() && this.table == table && this.cache == map[] && jwtSecret == "" && unlockedWith == None
      ensures this.crypto == crypto && this.hash == hash && this.known == known
    {
      this.crypto, this.hash, this.known := crypto, hash, known;
      this.table, this.cache, jwtSecret := table, map[], "";
      unlockedWith := None;
    }

    ghost predicate Valid()
      reads this
    {
      && Authentic(crypto) && TellsApart(hash, known)
      && AllText(table)
      && Coherent(crypto, hash, known, table, cache)
      && (unlockedWith.Some? <==> jwtSecret != "")
    }

    // The table holds the secret in memory, encrypted for the password it was loaded with.
    ghost predicate SecretStored()
      reads this
    {
      && unlockedWith.Some? && JWT_KEY in table && table[JWT_KEY].encrypted
      && Read(crypto, table, JWT_KEY, unlockedWith.value) == Ok(jwtSecret)
    }

    method Get(key: string, password: string) returns (value: Result<string, DecryptError>)
      requires Valid() && password in known
      modifies `cache
      ensures Valid()
      ensures value == Read(crypto, table, key, password)
      ensures key !in table ==> value == Ok("")
      ensures key in table && (password == "" || !table[key].encrypted || table[key].value == "") ==>
                value == Ok(table[key].value)
      ensures key in table && password != "" && table[key].encrypted && table[key].value != "" ==>
                value == DecryptWithPassword(crypto, table[key].value, password)
      ensures cache == if Cached(old(cache), key, KeyHash(hash, password)) || value.Err? then old(cache)
                       else Remember(old(cache), key, KeyHash(hash, password), value.value)
    {
      var hashed := KeyHash(hash, password);
      assert KeyCoherent(crypto, hash, known, table, cache, key);
      if key in cache && hashed in cache[key] {
        return Ok(cache[key][hashed]);
      }
      value := Read(crypto, table, key, password);
      if value.Err? {
        return;
      }
      ghost var before := cache;
      if key !in cache {
        cache := cache[key := map[]];
      }
      cache := cache[key := cache[key][hashed := value.value]];
      assert cache == Remember(before, key, hashed, value.value);
      RememberKeepsCoherent(crypto, hash, known, table, before, key, password, value.value);
    }

    method Set(key: string, value: string, conflict: OnConflict, password: string, salt: Bytes, nonce: Bytes)
      requires Valid() && IsText(value)
      modifies `table, `cache
      ensures Valid()
      ensures table == Write(old(table), key, Stored(crypto, value, password, salt, nonce), conflict)
      ensures key !in old(table) || conflict == UpdateEntry ==> HoldsValue(crypto, table, key, value, password, salt)
      ensures key in old(table) && conflict == DoNothing ==> table == old(table)
      ensures key in old(table) && conflict == UpdateValue ==>
                && key in table && table[key].encrypted == old(table)[key].encrypted
                && (table[key].encrypted && password != "" ==> Read(crypto, table, key, password) == Ok(value))
                && (password == "" ==> table[key].value == value)
      ensures table.Keys == old(table).Keys + {key}
      ensures forall k :: k in old(table) && k != key ==> table[k] == old(table)[k]
      ensures cache == old(cache) - {key}
      ensures old(SecretStored()) && (key != JWT_KEY || conflict == DoNothing) ==> SecretStored()
    {
      var stored := value;
      if password != "" {
        stored := EncryptWithPassword(crypto, value, password, salt, nonce);
        EncryptedIsText(crypto, value, password, salt, nonce);
      }
      ghost var before, cached := table, cache;
      WrittenReads(crypto, table, key, value, conflict, password, salt, nonce);
      table := Write(table, key, Entry(stored, password != ""), conflict);
      cache := cache - {key};
      SetKeepsCoherent(crypto, hash, known, before, cached, table, key);
    }

    method CheckUnlockPassword(password: string) returns (passes: bool)
      requires Valid() && password in known
      modifies `cache
      ensures Valid()
      ensures passes <==> Passes(crypto, table, password)
      ensures forall key, hashed :: key != CHECK_KEY ==>
                (Cached(cache, key, hashed) <==> Cached(old(cache), key, hashed))
    {
      var value := Get(CHECK_KEY, password);
      passes := value.Ok? && value.value != "" && value.value == UNLOCK_PASSWORD_CHECK;
    }

    /**
      Re-encrypts every encrypted row under a new password and removes the JWT secret.
      It succeeds exactly when the old password passes and opens every encrypted row;
      otherwise the table is unchanged.
     */
    method ChangeUnlockPassword(oldPassword: string, newPassword: string, draw: string -> (Bytes, Bytes))
      returns (error: Option<ChangeError>)
      requires Valid() && oldPassword in known && newPassword in known
      modifies this
      ensures error.None? <==>
                && newPassword != ""
                && Passes(crypto, old(table), oldPassword)
                && AllReadable(crypto, old(table), oldPassword)
      ensures error == Some(EmptyPassword) <==> newPassword == ""
      ensures error == Some(IncorrectPassword) <==> newPassword != "" && !Passes(crypto, old(table), oldPassword)
      ensures error.Some? ==>
                table == old(table) && jwtSecret == old(jwtSecret) && unlockedWith == old(unlockedWith) && Valid()
      ensures error.None? ==>
                && Rekeyed(crypto, old(table), table, oldPassword, newPassword, draw)
                && AllText(table)
                && jwtSecret == ""
                && unlockedWith == None
      ensures error.None? ==> (Valid() <==> JwtCacheHarmless(hash, known, old(table), old(cache)))
    {
      if newPassword == "" {
        return Some(EmptyPassword);
      }
      var passes := CheckUnlockPassword(oldPassword);
      if !passes {
        return Some(IncorrectPassword);
      }
      ghost var before, checked := table, cache;
      var tx := Reencrypt(oldPassword, newPassword, draw);
      if tx.None? {
        return Some(Unreadable);
      }
      table := tx.value - {JWT_KEY};
      jwtSecret, unlockedWith := "", None;
      HalfwayEnd(crypto, before, tx.value, oldPassword, newPassword, draw);
      RekeyedCoherentIff(crypto, hash, known, before, checked, table, cache, oldPassword, newPassword, draw);
      return None;
    }

    /** Answers exactly while unlocked since the last password change, and then with the secret the table holds. */
    method GetJWTSecret() returns (secret: Option<string>)
      requires Valid()
      ensures secret.Some? <==> unlockedWith.Some?
      ensures SecretStored() ==> secret.Some? && Read(crypto, table, JWT_KEY, unlockedWith.value) == Ok(secret.value)
    {
      secret := if jwtSecret == "" then None else Some(jwtSecret);
    }

    /**
      Loads the JWT secret once, replacing one that is missing or stored in the clear by
      a random one. It succeeds exactly when the password passes and, unless a secret is loaded
      already, opens the stored one; a secret loaded here is what the table holds, encrypted.
     */
    method LoadJWTSecret(password: string, random: string, salt: Bytes, nonce: Bytes) returns (loaded: bool)
      requires Valid() && password in known && password != "" && random != "" && IsText(random)
      modifies this
      ensures Valid()
      ensures loaded <==> Passes(crypto, old(table), password) && (old(jwtSecret) != "" || Read(crypto, old(table), JWT_KEY, password).Ok?)
      ensures !loaded || old(jwtSecret) != "" ==>
                table == old(table) && jwtSecret == old(jwtSecret) && unlockedWith == old(unlockedWith)
      ensures loaded && old(jwtSecret) == "" ==> unlockedWith == Some(password) && SecretStored()
      ensures loaded && old(jwtSecret) == "" ==>
                var kept := KeepsSecret(crypto, old(table), password);
                jwtSecret == (if kept then Read(crypto, old(table), JWT_KEY, password).value else random)
                && (kept ==> table == old(table))
      ensures forall key :: key != JWT_KEY ==>
                (key in table <==> key in old(table)) && (key in table ==> table[key] == old(table)[key])
    {
      var passes := CheckUnlockPassword(password);
      if !passes {
        return false;
      }
      if jwtSecret != "" {
        return true;
      }
      var raw := Get(JWT_KEY, "");
      if raw.Err? {
        return false;
      }
      var secret := Get(JWT_KEY, password);
      if secret.Err? {
        return false;
      }
      if secret.value == "" || secret.value == raw.value {
        ReplaceSecret(password, random, salt, nonce);
      } else {
        jwtSecret, unlockedWith := secret.value, Some(password);
      }
      return true;
    }

    // Overwrites the stored secret.
    method ReplaceSecret(password: string, random: string, salt: Bytes, nonce: Bytes)
      requires Valid() && password != "" && random != "" && IsText(random)
      modifies this
      ensures Valid() && unlockedWith == Some(password) && jwtSecret == random && SecretStored()
      ensures forall key :: key != JWT_KEY ==>
                (key in table <==> key in old(table)) && (key in table ==> table[key] == old(table)[key])
    {
      EncryptedStartsInHex(crypto, random, password, salt, nonce);
      EncryptedOpensIff(crypto, random, password, salt, nonce, password);
      Set(JWT_KEY, random, UpdateEntry, password, salt, nonce);
      jwtSecret, unlockedWith := random, Some(password);
    }

    // The loop of the change, on the transaction's copy of the table; the cache is cleared as it goes.
    method Reencrypt(oldPassword: string, newPassword: string, draw: string -> (Bytes, Bytes))
      returns (result: Option<Table>)
      requires Valid() && newPassword != ""
      modifies `cache
      ensures result.Some? <==> AllReadable(crypto, table, oldPassword)
      ensures result.Some? ==> Halfway(crypto, table, result.value, {}, oldPassword, newPassword, draw)
                               && cache == old(cache) - EncryptedKeys(table)
      ensures result.None? ==> Valid()
    {
      var tx := table;
      var remaining := EncryptedKeys(table);
      while remaining != {}
        invariant Halfway(crypto, table, tx, remaining, oldPassword, newPassword, draw)
        invariant cache == old(cache) - (EncryptedKeys(table) - remaining)
        decreases remaining
      {
        var key :| key in remaining;
        var plain := Read(crypto, tx, key, oldPassword);
        if plain.Err? {
          DropKeepsCoherent(crypto, hash, known, table, old(cache), EncryptedKeys(table) - remaining);
          return None;
        }
        var (salt, nonce) := draw(key);
        HalfwayStep(crypto, table, tx, remaining, oldPassword, newPassword, draw, key);
        tx := Write(tx, key, Stored(crypto, plain.value, newPassword, salt, nonce), UpdateValue);
        DropOneMore(old(cache), EncryptedKeys(table), remaining, key);
        cache := cache - {key};
        remaining := remaining - {key};
      }
      assert EncryptedKeys(table) - {} == EncryptedKeys(table);
      result := Some(tx);
    }
  }

  lemma DropOneMore(cache: Cache, keys: set<string>, remaining: set<string>, key: string)
    requires key in remaining && key in keys
    ensures cache - (keys - remaining) - {key} == cache - (keys - (remaining - {key}))
  {
    assert keys - (remaining - {key}) == keys - remaining + {key};
  }

  function EncryptedKeys(table: Table): set<string> {
    set key | key in table && table[key].encrypted
  }

  // The table with the encrypted rows outside `remaining` already under the new password.
  ghost predicate Halfway<Key(!new)>(c: Crypto<Key>, before: Table, tx: Table, remaining: set<string>,
                                     oldPassword: string, newPassword: string, draw: string -> (Bytes, Bytes)) {
    && remaining <= EncryptedKeys(before)
    && tx.Keys == before.Keys && AllText(tx)
    && forall key :: key in before ==>
         if !before[key].encrypted || key in remaining then tx[key] == before[key]
         else
           && Read(c, before, key, oldPassword).Ok?
           && StartsInHex(tx[key].value)
           && Reencrypted(c, before[key], tx[key], Read(c, before, key, oldPassword).value, draw(key).0, newPassword)
  }

  lemma HalfwayEnd<Key(!new)>(c: Crypto<Key>, before: Table, tx: Table, oldPassword: string, newPassword: string,
                              draw: string -> (Bytes, Bytes))
    requires Halfway(c, before, tx, {}, oldPassword, newPassword, draw)
    ensures Rekeyed(c, before, tx - {JWT_KEY}, oldPassword, newPassword, draw) && AllText(tx - {JWT_KEY})
  {
  }

  lemma HalfwayStep<Key(!new)>(c: Crypto<Key>, before: Table, tx: Table, remaining: set<string>,
                               oldPassword: string, newPassword: string, draw: string -> (Bytes, Bytes), key: string)
    requires Authentic(c) && newPassword != ""
    requires Halfway(c, before, tx, remaining, oldPassword, newPassword, draw) && key in remaining
    requires Read(c, tx, key, oldPassword).Ok?
    ensures var (salt, nonce) := draw(key);
            var stored := Stored(c, Read(c, tx, key, oldPassword).value, newPassword, salt, nonce);
            Halfway(c, before, Write(tx, key, stored, UpdateValue), remaining - {key}, oldPassword, newPassword, draw)
  {
    var (salt, nonce) := draw(key);
    ReadIsText(c, tx, key, oldPassword);
    EncryptReencrypts(c, before[key], Read(c, tx, key, oldPassword).value, newPassword, salt, nonce);
  }

  // A JWT secret stored in the clear is removed from the table but not from the cache.
  ghost predicate JwtCacheHarmless(hash: string -> string, known: set<string>, table: Table, cache: Cache) {
    || JWT_KEY !in table
    || table[JWT_KEY].encrypted
    || table[JWT_KEY].value == ""
    || forall p :: p in known ==> !Cached(cache, JWT_KEY, KeyHash(hash, p))
  }

  lemma RememberKeepsCoherent<Key>(c: Crypto<Key>, hash: string -> string, known: set<string>, table: Table,
                                   cache: Cache, key: string, password: string, value: string)
    requires TellsApart(hash, known) && password in known && Coherent(c, hash, known, table, cache)
    requires Read(c, table, key, password) == Ok(value)
    ensures Coherent(c, hash, known, table, Remember(cache, key, KeyHash(hash, password), value))
  {
    forall k
      ensures KeyCoherent(c, hash, known, table, Remember(cache, key, KeyHash(hash, password), value), k)
    {
      assert KeyCoherent(c, hash, known, table, cache, k);
    }
  }

  lemma {:induction false} SetKeepsCoherent<Key>(c: Crypto<Key>, hash: string -> string, known: set<string>,
                                                 before: Table, cache: Cache, after: Table, key: string)
    requires Coherent(c, hash, known, before, cache)
    requires forall k :: k != key ==> (k in after <==> k in before) && (k in before ==> after[k] == before[k])
    ensures Coherent(c, hash, known, after, cache - {key})
  {
    forall k
      ensures KeyCoherent(c, hash, known, after, cache - {key}, k)
    {
      assert KeyCoherent(c, hash, known, before, cache, k);
    }
  }

  lemma DropKeepsCoherent<Key>(c: Crypto<Key>, hash: string -> string, known: set<string>, table: Table, cache: Cache,
                               keys: set<string>)
    requires Coherent(c, hash, known, table, cache)
    ensures Coherent(c, hash, known, table, cache - keys)
  {
    forall k
      ensures KeyCoherent(c, hash, known, table, cache - keys, k)
    {
      assert KeyCoherent(c, hash, known, table, cache, k);
    }
  }

  lemma RekeyedCoherentIff<Key(!new)>(c: Crypto<Key>, hash: string -> string, known: set<string>, before: Table,
                                      checked: Cache, after: Table, cache: Cache,
                                      oldPassword: string, newPassword: string, draw: string -> (Bytes, Bytes))
    requires Rekeyed(c, before, after, oldPassword, newPassword, draw)
    requires Coherent(c, hash, known, before, checked)
    requires cache == checked - EncryptedKeys(before)
    ensures Coherent(c, hash, known, after, cache) <==> JwtCacheHarmless(hash, known, before, checked)
  {
    assert KeyCoherent(c, hash, known, before, checked, JWT_KEY);
    if JwtCacheHarmless(hash, known, before, checked) {
      forall k
        ensures KeyCoherent(c, hash, known, after, cache, k)
      {
        assert KeyCoherent(c, hash, known, before, checked, k);
      }
    } else {
      var p :| p in known && Cached(checked, JWT_KEY, KeyHash(hash, p));
      assert Read(c, before, JWT_KEY, p) == Ok(checked[JWT_KEY][KeyHash(hash, p)]);
      assert !KeyCoherent(c, hash, known, after, cache, JWT_KEY);
    }
  }
}
