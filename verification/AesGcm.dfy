/**
  The printed form of an encrypted value: salt, nonce and ciphertext in hex, with
  dashes between them, and the parser that takes it apart again.
 */
module AesGcm {
  import opened Wrappers

  type Byte = b: int | 0 <= b < 256

  type Bytes = seq<Byte>

  // Key derivation and AES-GCM, given from outside.
  datatype Crypto<!Key> = Crypto(
    deriveKey: (string, Bytes) -> Key,
    seal: (Key, Bytes, Bytes) -> Bytes,
    open: (Key, Bytes, Bytes) -> Option<Bytes>)

  // What is sealed opens under its key and under no other.
  ghost predicate Authentic<Key(!new)>(c: Crypto<Key>) {
    forall k, other, nonce, plain ::
      c.open(other, nonce, c.seal(k, nonce, plain)) == if other == k then Some(plain) else None
  }

  // Reading a field the value does not have ends the program in the original.
  datatype DecryptError = Malformed | Rejected

  // ---------------------------------------------------------------- hex

  function HexDigit(n: int): char
    requires 0 <= n < 16
  {
    "0123456789abcdef"[n]
  }

  function HexValue(c: char): Option<int> {
    if '0' <= c <= '9' then Some(c as int - '0' as int)
    else if 'a' <= c <= 'f' then Some(c as int - 'a' as int + 10)
    else if 'A' <= c <= 'F' then Some(c as int - 'A' as int + 10)
    else None
  }

  function EncodeHex(bytes: Bytes): string {
    if bytes == [] then ""
    else [HexDigit(bytes[0] / 16), HexDigit(bytes[0] % 16)] + EncodeHex(bytes[1..])
  }

  // Decodes up to the first error, which callers ignore.
  function DecodeHex(s: string): Bytes {
    if |s| < 2 then []
    else
      var high, low := HexValue(s[0]), HexValue(s[1]);
      if high.None? || low.None? then []
      else [PairValue(high.value, low.value)] + DecodeHex(s[2..])
  }

  function PairValue(high: int, low: int): Byte {
    if 0 <= high < 16 && 0 <= low < 16 then high * 16 + low else 0
  }

  lemma {:induction false} HexRoundTrip(bytes: Bytes)
    ensures DecodeHex(EncodeHex(bytes)) == bytes
  {
    if bytes == [] {
    } else {
      HexRoundTrip(bytes[1..]);
      var text := EncodeHex(bytes);
      assert text[2..] == EncodeHex(bytes[1..]);
      HexDigitValue(bytes[0] / 16);
      HexDigitValue(bytes[0] % 16);
    }
  }

  lemma HexDigitValue(n: int)
    requires 0 <= n < 16
    ensures HexValue(HexDigit(n)) == Some(n) && HexDigit(n) != '-'
  {
  }

  lemma {:induction false} HexHasNoDash(bytes: Bytes)
    ensures '-' !in EncodeHex(bytes)
  {
    if bytes == [] {
    } else {
      HexHasNoDash(bytes[1..]);
      HexDigitValue(bytes[0] / 16);
      HexDigitValue(bytes[0] % 16);
    }
  }

  // ---------------------------------------------------------------- splitting

  // The text before the first dash, and the parts of the text, as strings.Split gives them.
  function Split(s: string): (parts: seq<string>)
    ensures |parts| >= 1
    decreases |s|
  {
    if s == "" then [""]
    else
      var rest := Split(s[1..]);
      if s[0] == '-' then [""] + rest
      else [[s[0]] + rest[0]] + rest[1..]
  }

  lemma {:induction false} SplitHead(head: string, rest: string)
    requires '-' !in head
    ensures Split(head + "-" + rest) == [head] + Split(rest)
  {
    var s := head + "-" + rest;
    if head == "" {
      assert s[1..] == rest;
    } else {
      assert s[1..] == head[1..] + "-" + rest;
      SplitHead(head[1..], rest);
      assert [head[0]] + head[1..] == head;
    }
  }

  lemma {:induction false} SplitWhole(s: string)
    requires '-' !in s
    ensures Split(s) == [s]
  {
    if s == "" {
    } else {
      SplitWhole(s[1..]);
      assert [s[0]] + s[1..] == s;
    }
  }

  // ---------------------------------------------------------------- the values

  function CharToByte(c: char): Byte {
    if c as int < 256 then c as int else 0
  }

  // Text is a sequence of bytes.
  predicate IsText(s: string) {
    forall i :: 0 <= i < |s| ==> s[i] as int < 256
  }

  function TextBytes(s: string): Bytes {
    seq(|s|, i requires 0 <= i < |s| => CharToByte(s[i]))
  }

  function BytesText(b: Bytes): string {
    seq(|b|, i requires 0 <= i < |b| => b[i] as char)
  }

  lemma TextRoundTrip(s: string)
    requires IsText(s)
    ensures BytesText(TextBytes(s)) == s
  {
  }

  function EncryptWithKey<Key>(c: Crypto<Key>, plaintext: string, key: Key, nonce: Bytes): string {
    EncodeHex(nonce) + "-" + EncodeHex(c.seal(key, nonce, TextBytes(plaintext)))
  }

  function DecryptWithKey<Key>(c: Crypto<Key>, ciphertext: string, key: Key): Result<string, DecryptError> {
    var parts := Split(ciphertext);
    if |parts| < 2 then Err(Malformed)
    else
      var plain := c.open(key, DecodeHex(parts[0]), DecodeHex(parts[1]));
      if plain.Some? then Ok(BytesText(plain.value)) else Err(Rejected)
  }

  function EncryptWithPassword<Key>(c: Crypto<Key>, plaintext: string, password: string, salt: Bytes,
                                    nonce: Bytes): string {
    EncodeHex(salt) + "-" + EncryptWithKey(c, plaintext, c.deriveKey(password, salt), nonce)
  }

  function DecryptWithPassword<Key>(c: Crypto<Key>, ciphertext: string,
                                    password: string): Result<string, DecryptError> {
    var parts := Split(ciphertext);
    if |parts| < 3 then Err(Malformed)
    else DecryptWithKey(c, parts[1] + "-" + parts[2], c.deriveKey(password, DecodeHex(parts[0])))
  }

  lemma {:induction false} SplitEncrypted<Key>(c: Crypto<Key>, plaintext: string, password: string, salt: Bytes,
                                               nonce: Bytes)
    ensures var key := c.deriveKey(password, salt);
            Split(EncryptWithPassword(c, plaintext, password, salt, nonce))
            == [EncodeHex(salt), EncodeHex(nonce), EncodeHex(c.seal(key, nonce, TextBytes(plaintext)))]
  {
    var key := c.deriveKey(password, salt);
    var sealed := EncodeHex(c.seal(key, nonce, TextBytes(plaintext)));
    HexHasNoDash(salt);
    HexHasNoDash(nonce);
    HexHasNoDash(c.seal(key, nonce, TextBytes(plaintext)));
    SplitHead(EncodeHex(salt), EncodeHex(nonce) + "-" + sealed);
    SplitHead(EncodeHex(nonce), sealed);
    SplitWhole(sealed);
  }

  /**
    A password opens an encrypted value, and gives the text back, exactly when it derives the same key from the
    value's salt.
   */
  lemma {:induction false} EncryptedOpensIff<Key(!new)>(c: Crypto<Key>, plaintext: string, password: string,
                                                        salt: Bytes, nonce: Bytes, other: string)
    requires Authentic(c) && IsText(plaintext)
    ensures DecryptWithPassword(c, EncryptWithPassword(c, plaintext, password, salt, nonce), other)
            == if c.deriveKey(other, salt) == c.deriveKey(password, salt) then Ok(plaintext) else Err(Rejected)
  {
    var key, otherKey := c.deriveKey(password, salt), c.deriveKey(other, salt);
    var bytes := c.seal(key, nonce, TextBytes(plaintext));
    SplitEncrypted(c, plaintext, password, salt, nonce);
    SplitHead2(EncodeHex(nonce), EncodeHex(bytes), nonce, bytes);
    HexRoundTrip(salt);
    HexRoundTrip(nonce);
    HexRoundTrip(bytes);
    TextRoundTrip(plaintext);
    assert c.open(otherKey, nonce, c.seal(key, nonce, TextBytes(plaintext))) == if otherKey == key then Some(TextBytes(plaintext)) else None;
  }

  lemma SplitHead2(first: string, second: string, a: Bytes, b: Bytes)
    requires first == EncodeHex(a) && second == EncodeHex(b)
    ensures Split(first + "-" + second) == [first, second]
  {
    HexHasNoDash(a);
    HexHasNoDash(b);
    SplitHead(first, second);
    SplitWhole(second);
  }

  // How an encrypted value begins.
  predicate StartsInHex(s: string) {
    s != "" && (s[0] == '-' || HexValue(s[0]).Some?)
  }

  lemma EncryptedStartsInHex<Key>(c: Crypto<Key>, plaintext: string, password: string, salt: Bytes, nonce: Bytes)
    ensures StartsInHex(EncryptWithPassword(c, plaintext, password, salt, nonce))
  {
    if salt == [] {
      assert EncryptWithPassword(c, plaintext, password, salt, nonce)[0] == '-';
    } else {
      HexDigitValue(salt[0] / 16);
      assert EncryptWithPassword(c, plaintext, password, salt, nonce)[0] == EncodeHex(salt)[0];
    }
  }

  // ---------------------------------------------------------------- the assumption can be met

  // A toy cipher with two keys that writes its key in front of the text.
  function KeyByte(key: bool): Byte {
    if key then 1 else 0
  }

  function Toy(): Crypto<bool> {
    Crypto((password: string, salt: Bytes) => password == "",
           (key: bool, nonce: Bytes, plain: Bytes) => [KeyByte(key)] + plain,
           (key: bool, nonce: Bytes, data: Bytes) => if data != [] && data[0] == KeyByte(key) then Some(data[1..]) else None)
  }

  lemma AuthenticCanBeMet()
    ensures Authentic(Toy())
  {
    forall k, other, nonce: Bytes, plain: Bytes
      ensures Toy().open(other, nonce, Toy().seal(k, nonce, plain)) == if other == k then Some(plain) else None
    {
      assert ([KeyByte(k)] + plain)[1..] == plain;
    }
  }
}
