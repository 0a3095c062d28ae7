/**
  Backup files: salt, IV and a stream-ciphered archive. The reader does not know
  which scheme wrote a file; it deciphers the start with each and keeps the first
  that yields the archive signature.
 */
module Backup {
  import opened Wrappers
  import opened Keystreams

  // The signature every archive starts with.
  const ZIP_MAGIC: Bytes := [0x50, 0x4b, 0x03, 0x04]

  // In the order they are tried.
  const SCHEMES: seq<Scheme> := [Current, Legacy]

  function SaltSize(scheme: Scheme): nat {
    match scheme
    case Current => 32
    case Legacy => 8
  }

  // ---------------------------------------------------------------- the file format

  function BackupFile<Key>(aes: Aes<Key>, scheme: Scheme, password: string, salt: Bytes, iv: Bytes,
                           archive: Bytes): Bytes {
    salt + iv + Xor(aes, scheme, aes.deriveKey(scheme, password, salt), iv, 0, archive)
  }

  predicate IsArchive(archive: Bytes) {
    ZIP_MAGIC <= archive
  }

  function HeaderSize(scheme: Scheme): nat {
    SaltSize(scheme) + BLOCK_SIZE + |ZIP_MAGIC|
  }

  // Everything after salt and IV, deciphered by a scheme.
  function Deciphered<Key>(aes: Aes<Key>, scheme: Scheme, password: string, file: Bytes): Bytes
    requires HeaderSize(scheme) <= |file|
  {
    var salt, iv := file[..SaltSize(scheme)], file[SaltSize(scheme)..SaltSize(scheme) + BLOCK_SIZE];
    Xor(aes, scheme, aes.deriveKey(scheme, password, salt), iv, 0, file[SaltSize(scheme) + BLOCK_SIZE..])
  }

  // Whether the trial with a scheme finds the signature.
  predicate TrialHits<Key>(aes: Aes<Key>, scheme: Scheme, password: string, file: Bytes) {
    HeaderSize(scheme) <= |file| && IsArchive(Deciphered(aes, scheme, password, file))
  }

  datatype RestoreError = HeaderTooShort | InvalidPasswordOrFile

  function Decoded<Key>(aes: Aes<Key>, password: string, file: Bytes): Result<Bytes, RestoreError> {
    if |file| < HeaderSize(Legacy) then Err(HeaderTooShort)
    else if TrialHits(aes, Current, password, file) then Ok(Deciphered(aes, Current, password, file))
    else if TrialHits(aes, Legacy, password, file) then Ok(Deciphered(aes, Legacy, password, file))
    else Err(InvalidPasswordOrFile)
  }

  lemma DecipherOwnScheme<Key>(aes: Aes<Key>, scheme: Scheme, password: string, salt: Bytes, iv: Bytes, archive: Bytes)
    requires |salt| == SaltSize(scheme) && |iv| == BLOCK_SIZE && IsArchive(archive)
    ensures var file := BackupFile(aes, scheme, password, salt, iv, archive);
            HeaderSize(scheme) <= |file| && Deciphered(aes, scheme, password, file) == archive
  {
    var file := BackupFile(aes, scheme, password, salt, iv, archive);
    var key := aes.deriveKey(scheme, password, salt);
    assert file[..SaltSize(scheme)] == salt;
    assert file[SaltSize(scheme)..SaltSize(scheme) + BLOCK_SIZE] == iv;
    assert file[SaltSize(scheme) + BLOCK_SIZE..] == Xor(aes, scheme, key, iv, 0, archive);
    XorTwice(aes, scheme, key, iv, 0, archive);
  }

  /** A file written by the current scheme always decodes to its archive. */
  lemma CurrentRoundTrip<Key>(aes: Aes<Key>, password: string, salt: Bytes, iv: Bytes, archive: Bytes)
    requires |salt| == 32 && |iv| == 16 && [0x50, 0x4b, 3, 4] <= archive
    ensures Decoded(aes, password, BackupFile(aes, Current, password, salt, iv, archive)) == Ok(archive)
  {
    DecipherOwnScheme(aes, Current, password, salt, iv, archive);
  }

  /** A file written by the legacy scheme decodes to its archive exactly when the current scheme's trial misses. */
  lemma LegacyRoundTripIff<Key>(aes: Aes<Key>, password: string, salt: Bytes, iv: Bytes, archive: Bytes)
    requires |salt| == 8 && |iv| == 16 && [0x50, 0x4b, 3, 4] <= archive
    ensures var file := BackupFile(aes, Legacy, password, salt, iv, archive);
            Decoded(aes, password, file) == Ok(archive) <==> !TrialHits(aes, Current, password, file)
  {
    DecipherOwnScheme(aes, Legacy, password, salt, iv, archive);
    var file := BackupFile(aes, Legacy, password, salt, iv, archive);
    if TrialHits(aes, Current, password, file) {
      assert |Deciphered(aes, Current, password, file)| < |archive|;
    }
  }

  // ---------------------------------------------------------------- a legacy file that is misread

  // A toy cipher that leaves everything as it is.
  function NoCipher(): Aes<bool> {
    Aes((scheme: Scheme, password: string, salt: Bytes) => false, (key: bool, block: Bytes, i: nat) => 0)
  }

  function Zeros(n: nat): Bytes {
    seq(n, _ => 0)
  }

  lemma {:induction false} NoCipherLeaves(scheme: Scheme, iv: Bytes, data: Bytes)
    ensures Xor(NoCipher(), scheme, false, iv, 0, data) == data
  {
    forall i | 0 <= i < |data|
      ensures data[i] ^ KeyByte(NoCipher(), scheme, false, iv, i) == data[i]
    {
      assert KeyByte(NoCipher(), scheme, false, iv, 0 + i) == 0;
      XorZero(data[i]);
    }
  }

  lemma {:induction false} XorZero(a: bv8)
    ensures a ^ 0 == a
  {
  }

  /** A legacy file that shows the signature where the current scheme looks for it: what is read is its end. */
  lemma {:induction false} LegacyFileIsMisread()
    ensures var archive := ZIP_MAGIC + Zeros(20) + ZIP_MAGIC;
            var file := BackupFile(NoCipher(), Legacy, "", Zeros(8), Zeros(16), archive);
            IsArchive(archive) && Decoded(NoCipher(), "", file) == Ok(ZIP_MAGIC) && archive != ZIP_MAGIC
  {
    var archive := ZIP_MAGIC + Zeros(20) + ZIP_MAGIC;
    NoCipherLeaves(Legacy, Zeros(16), archive);
    var file := Zeros(8) + Zeros(16) + archive;
    assert BackupFile(NoCipher(), Legacy, "", Zeros(8), Zeros(16), archive) == file;
    assert file[SaltSize(Current) + BLOCK_SIZE..] == ZIP_MAGIC;
    NoCipherLeaves(Current, file[SaltSize(Current)..SaltSize(Current) + BLOCK_SIZE], ZIP_MAGIC);
    assert |archive| == 28;
  }

  // ---------------------------------------------------------------- writing

  class Output {
    var written: Bytes

    constructor ()
      ensures written == []
    {
      written := [];
    }

    method Write(data: Bytes)
      modifies this
      ensures written == old(written) + data
    {
      written := written + data;
    }
  }

  // The header goes out at once; the stream enciphers what is written through it.
  method EncryptingWriter<Key>(aes: Aes<Key>, w: Output, password: string, salt: Bytes, iv: Bytes)
    returns (stream: Stream<Key>)
    requires |salt| == 32 && |iv| == 16
    modifies w
    ensures w.written == old(w.written) + salt + iv
    ensures fresh(stream) && fresh(stream.register) && stream.Valid()
    ensures stream.aes == aes && stream.scheme == Current && stream.iv == iv && stream.pos == 0
    ensures stream.key == aes.deriveKey(Current, password, salt)
  {
    var scheme := SCHEMES[0];
    var key := aes.deriveKey(scheme, password, salt);
    w.Write(salt);
    w.Write(iv);
    stream := new Stream(aes, scheme, key, iv);
  }

  function Concat(chunks: seq<Bytes>): Bytes {
    if chunks == [] then [] else Concat(chunks[..|chunks| - 1]) + chunks[|chunks| - 1]
  }

  // Writing one chunk more extends the file by the chunk, enciphered from where the last one ended.
  lemma {:induction false} FileGrows<Key>(aes: Aes<Key>, password: string, salt: Bytes, iv: Bytes, chunks: seq<Bytes>,
                                          i: nat)
    requires i < |chunks|
    ensures Concat(chunks[..i + 1]) == Concat(chunks[..i]) + chunks[i]
    ensures BackupFile(aes, Current, password, salt, iv, Concat(chunks[..i + 1]))
         == BackupFile(aes, Current, password, salt, iv, Concat(chunks[..i]))
            + Xor(aes, Current, aes.deriveKey(Current, password, salt), iv, |Concat(chunks[..i])|, chunks[i])
  {
    assert chunks[..i + 1][..i] == chunks[..i];
    XorSplit(aes, Current, aes.deriveKey(Current, password, salt), iv, 0, Concat(chunks[..i]), chunks[i]);
  }

  /** However the archive is cut into writes, the file is the backup file of the whole archive. */
  method WriteArchive<Key>(aes: Aes<Key>, w: Output, password: string, salt: Bytes, iv: Bytes, chunks: seq<Bytes>)
    requires |salt| == 32 && |iv| == 16 && w.written == []
    modifies w
    ensures w.written == salt + iv + Xor(aes, Current, aes.deriveKey(Current, password, salt), iv, 0, Concat(chunks))
  {
    var stream := EncryptingWriter(aes, w, password, salt, iv);
    for i := 0 to |chunks|
      invariant fresh(stream) && fresh(stream.register) && stream.Valid()
      invariant stream.aes == aes && stream.scheme == Current && stream.iv == iv
      invariant stream.key == aes.deriveKey(Current, password, salt)
      invariant stream.pos == |Concat(chunks[..i])|
      invariant w.written == BackupFile(aes, Current, password, salt, iv, Concat(chunks[..i]))
    {
      FileGrows(aes, password, salt, iv, chunks, i);
      var enciphered := stream.XorKeyStream(chunks[i]);
      w.Write(enciphered);
    }
    assert chunks[..|chunks|] == chunks;
  }

  // ---------------------------------------------------------------- reading

  // A source that delivers what it likes of what is asked for, but something until it ends.
  class Input {
    const data: Bytes
    const appetite: nat -> nat
    var pos: nat

    predicate Valid()
      reads this
    {
      pos <= |data|
    }

    constructor (data: Bytes, appetite: nat -> nat)
      ensures Valid() && this.data == data && pos == 0
    {
      this.data, this.appetite := data, appetite;
      pos := 0;
    }

    method Read(size: nat) returns (bytes: Bytes)
      requires Valid()
      modifies this
      ensures Valid() && old(pos) <= pos && bytes == data[old(pos)..pos] && |bytes| <= size
      ensures size > 0 && old(pos) < |data| ==> bytes != []
    {
      var n := 1 + appetite(pos);
      n := if n > size then size else n;
      n := if n > |data| - pos then |data| - pos else n;
      bytes := data[pos..pos + n];
      pos := pos + n;
    }

    method ReadFull(size: nat) returns (bytes: Bytes)
      requires Valid()
      modifies this
      ensures Valid() && old(pos) <= pos && bytes == data[old(pos)..pos]
      ensures |bytes| == if |data| - old(pos) < size then |data| - old(pos) else size
    {
      bytes := [];
      while |bytes| < size && pos < |data|
        invariant Valid() && old(pos) <= pos && bytes == data[old(pos)..pos] && |bytes| <= size
        decreases size - |bytes|
      {
        var more := Read(size - |bytes|);
        bytes := bytes + more;
      }
    }
  }

  // The deciphered start of the archive, then the rest through the stream.
  class ArchiveReader<Key> {
    var prefix: Bytes
    const stream: Stream<Key>
    const input: Input

    constructor (prefix: Bytes, stream: Stream<Key>, input: Input)
      ensures this.prefix == prefix && this.stream == stream && this.input == input
    {
      this.prefix, this.stream, this.input := prefix, stream, input;
    }

    ghost predicate Valid()
      reads this, stream, stream.register, input
    {
      stream.Valid() && input.Valid()
    }

    // What is still to be read.
    ghost function Rest(): Bytes
      reads this, stream, input
      requires input.Valid()
    {
      prefix + Xor(stream.aes, stream.scheme, stream.key, stream.iv, stream.pos, input.data[input.pos..])
    }

    method Read(size: nat) returns (bytes: Bytes)
      requires Valid()
      modifies this, stream, stream.register, input
      ensures Valid() && old(Rest()) == bytes + Rest()
      ensures size > 0 && old(Rest()) != [] ==> bytes != []
    {
      if prefix != [] {
        var n := if size < |prefix| then size else |prefix|;
        bytes := prefix[..n];
        prefix := prefix[n..];
      } else {
        bytes := ReadOn(size);
      }
    }

    method ReadOn(size: nat) returns (bytes: Bytes)
      requires Valid() && prefix == []
      modifies stream, stream.register, input
      ensures Valid() && prefix == [] && old(Rest()) == bytes + Rest()
      ensures size > 0 && old(Rest()) != [] ==> bytes != []
    {
      ghost var pos, start := stream.pos, input.pos;
      var enciphered := input.Read(size);
      XorFrom(stream.aes, stream.scheme, stream.key, stream.iv, pos, input.data, start, input.pos);
      bytes := stream.XorKeyStream(enciphered);
    }
  }

  method DecryptingReader<Key>(aes: Aes<Key>, r: Input, password: string)
    returns (result: Result<ArchiveReader<Key>, RestoreError>)
    requires r.Valid() && r.pos == 0
    modifies r
    ensures r.Valid()
    ensures result == Err(HeaderTooShort) <==> |r.data| < 28
    ensures result.Err? ==> Decoded(aes, password, r.data) == Err(result.error)
    ensures result.Ok? ==> && fresh(result.value) && fresh(result.value.stream) && fresh(result.value.stream.register)
                           && result.value.input == r && result.value.Valid()
                           && Decoded(aes, password, r.data) == Ok(result.value.Rest())
  {
    var header := r.ReadFull(HeaderSize(Current));
    if |header| < HeaderSize(Legacy) {
      return Err(HeaderTooShort);
    }
    for i := 0 to |SCHEMES|
      invariant r.Valid() && header == r.data[..r.pos]
      invariant r.pos == if |r.data| < HeaderSize(Current) then |r.data| else HeaderSize(Current)
      invariant i >= 1 ==> !TrialHits(aes, Current, password, r.data)
      invariant i >= 2 ==> !TrialHits(aes, Legacy, password, r.data)
    {
      var scheme := SCHEMES[i];
      if |header| >= HeaderSize(scheme) {
        var reader := Trial(aes, scheme, password, header, r);
        if reader.Some? {
          return Ok(reader.value);
        }
      }
    }
    return Err(InvalidPasswordOrFile);
  }

  // Deciphers the start of the archive by a scheme and keeps it if it has the signature.
  method Trial<Key>(aes: Aes<Key>, scheme: Scheme, password: string, header: Bytes, r: Input)
    returns (reader: Option<ArchiveReader<Key>>)
    requires r.Valid() && header == r.data[..r.pos] && HeaderSize(scheme) <= |header|
    ensures reader.Some? <==> TrialHits(aes, scheme, password, r.data)
    ensures reader.Some? ==>
              && fresh(reader.value) && fresh(reader.value.stream) && fresh(reader.value.stream.register)
              && reader.value.input == r && reader.value.Valid()
              && reader.value.Rest() == Deciphered(aes, scheme, password, r.data)
  {
    var skip := SaltSize(scheme) + BLOCK_SIZE;
    var salt, iv, enciphered := header[..SaltSize(scheme)], header[SaltSize(scheme)..skip], header[skip..];
    var stream := new Stream(aes, scheme, aes.deriveKey(scheme, password, salt), iv);
    var start := stream.XorKeyStream(enciphered);
    TrialOnHeader(aes, scheme, password, r.data, header);
    if start[..|ZIP_MAGIC|] != ZIP_MAGIC {
      return None;
    }
    var found := new ArchiveReader(start, stream, r);
    return Some(found);
  }

  // The trial on the header is the trial on the file, and the stream goes on where the header ended.
  lemma TrialOnHeader<Key>(aes: Aes<Key>, scheme: Scheme, password: string, file: Bytes, header: Bytes)
    requires header <= file && HeaderSize(scheme) <= |header|
    ensures var skip := SaltSize(scheme) + BLOCK_SIZE;
            var key, iv := aes.deriveKey(scheme, password, header[..SaltSize(scheme)]), header[SaltSize(scheme)..skip];
            var start := Xor(aes, scheme, key, iv, 0, header[skip..]);
            && Deciphered(aes, scheme, password, file) == start + Xor(aes, scheme, key, iv, |header| - skip,
                                                                      file[|header|..])
            && (TrialHits(aes, scheme, password, file) <==> start[..|ZIP_MAGIC|] == ZIP_MAGIC)
  {
    var skip := SaltSize(scheme) + BLOCK_SIZE;
    var key, iv := aes.deriveKey(scheme, password, header[..SaltSize(scheme)]), header[SaltSize(scheme)..skip];
    assert file[..SaltSize(scheme)] == header[..SaltSize(scheme)];
    assert file[SaltSize(scheme)..skip] == header[SaltSize(scheme)..skip];
    assert file[skip..] == header[skip..] + file[|header|..];
    XorSplit(aes, scheme, key, iv, 0, header[skip..], file[|header|..]);
  }

  // Reads in pieces of the given size until nothing is left.
  method ReadAll<Key>(reader: ArchiveReader<Key>, size: nat) returns (archive: Bytes)
    requires reader.Valid() && size > 0
    modifies reader, reader.stream, reader.stream.register, reader.input
    ensures reader.Valid() && archive == old(reader.Rest())
  {
    archive := [];
    var more := true;
    while more
      invariant reader.Valid()
      invariant old(reader.Rest()) == archive + reader.Rest()
      invariant !more ==> reader.Rest() == []
      decreases |reader.Rest()|, more
    {
      var bytes := reader.Read(size);
      archive := archive + bytes;
      more := bytes != [];
    }
    assert archive + [] == archive;
  }

  /** Reads a whole archive in pieces of the given size, whatever the source delivers at a time. */
  method ReadArchive<Key>(aes: Aes<Key>, r: Input, password: string, size: nat)
    returns (result: Result<Bytes, RestoreError>)
    requires r.Valid() && r.pos == 0 && size > 0
    modifies r
    ensures result == Decoded(aes, password, r.data)
  {
    var started := DecryptingReader(aes, r, password);
    if started.Err? {
      return Err(started.error);
    }
    var archive := ReadAll(started.value, size);
    return Ok(archive);
  }

  /**
    Writing an archive and reading the file back yields the archive, for every cutting into writes and every short
    read.
   */
  method RoundTrip<Key>(aes: Aes<Key>, password: string, salt: Bytes, iv: Bytes, chunks: seq<Bytes>,
                        appetite: nat -> nat, size: nat)
    returns (result: Result<Bytes, RestoreError>)
    requires |salt| == 32 && |iv| == 16 && [0x50, 0x4b, 3, 4] <= Concat(chunks) && size > 0
    ensures result == Ok(Concat(chunks))
  {
    var w := new Output();
    WriteArchive(aes, w, password, salt, iv, chunks);
    CurrentRoundTrip(aes, password, salt, iv, Concat(chunks));
    var r := new Input(w.written, appetite);
    result := ReadArchive(aes, r, password, size);
  }
}
