/**
  The two stream ciphers of backup files: counter mode and output feedback, sections
  6.5 and 6.4 of NIST SP 800-38A, as streams that keep a register between calls.
 */
module Keystreams {

  type Bytes = seq<bv8>

  const BLOCK_SIZE := 16

  // The current scheme (counter mode) and the legacy one (output feedback).
  datatype Scheme = Current | Legacy

  // Key derivation for each scheme and the bytes of an enciphered block, given from outside.
  datatype Aes<!Key> = Aes(deriveKey: (Scheme, string, Bytes) -> Key, blockByte: (Key, Bytes, nat) -> bv8)

  function Encipher<Key>(aes: Aes<Key>, key: Key, block: Bytes): (enciphered: Bytes)
    ensures |enciphered| == 16 && forall i :: 0 <= i < 16 ==> enciphered[i] == aes.blockByte(key, block, i)
  {
    seq(BLOCK_SIZE, i requires 0 <= i < BLOCK_SIZE => aes.blockByte(key, block, i))
  }

  // ---------------------------------------------------------------- counters

  // A block read as a number, its first byte the most significant.
  function BlockValue(block: Bytes): nat {
    if block == [] then 0 else BlockValue(block[..|block| - 1]) * 256 + block[|block| - 1] as nat
  }

  // How many blocks of a size there are.
  function BlockCount(size: nat): (count: nat)
    ensures count > 0
  {
    if size == 0 then 1 else 256 * BlockCount(size - 1)
  }

  // One more, with carry from the last byte on; the greatest block is followed by the least.
  function Incremented(block: Bytes): (next: Bytes)
    ensures |next| == |block|
  {
    if block == [] then []
    else
      var front, last := block[..|block| - 1], block[|block| - 1];
      if last == 255 then Incremented(front) + [0] else front + [last + 1]
  }

  lemma {:induction false} IncrementedAddsOne(block: Bytes)
    ensures BlockValue(block) < BlockCount(|block|)
    ensures BlockValue(Incremented(block)) == if BlockValue(block) + 1 == BlockCount(|block|) then 0
                                              else BlockValue(block) + 1
  {
    if block != [] {
      var front, last := block[..|block| - 1], block[|block| - 1];
      IncrementedAddsOne(front);
      LastByte(Incremented(front), 0);
      if last != 255 {
        LastByte(front, last + 1);
        NextByteValue(last);
      }
    }
  }

  lemma {:induction false} LastByte(front: Bytes, last: bv8)
    ensures BlockValue(front + [last]) == BlockValue(front) * 256 + last as nat
  {
    assert (front + [last])[..|front|] == front;
  }

  lemma {:induction false} NextByteValue(b: bv8)
    requires b != 255
    ensures (b + 1) as nat == b as nat + 1
  {
  }

  lemma {:induction false} ValueTellsBlocksApart(a: Bytes, b: Bytes)
    requires |a| == |b| && BlockValue(a) == BlockValue(b)
    ensures a == b
  {
    if a != [] {
      var n := |a| - 1;
      assert a[n] as nat < 256 && b[n] as nat < 256;
      ValueTellsBlocksApart(a[..n], b[..n]);
      assert a == a[..n] + [a[n]] && b == b[..n] + [b[n]];
    }
  }

  // What the loop leaves of a counter whose bytes from i on have been carried over, if the byte before takes the carry.
  lemma {:induction false} CarryRipples(block: Bytes, i: nat)
    requires i < |block| && block[i] != 255 && forall k :: i < k < |block| ==> block[k] == 255
    ensures Incremented(block) == block[..i] + [block[i] + 1] + seq(|block| - i - 1, _ => 0)
  {
    if i < |block| - 1 {
      var front := block[..|block| - 1];
      CarryRipples(front, i);
      assert front[..i] == block[..i];
      assert seq(|block| - i - 1, _ => 0 as bv8) == seq(|front| - i - 1, _ => 0 as bv8) + [0];
    } else {
      assert block[..i] + [block[i] + 1] + seq(0, _ => 0 as bv8) == block[..i] + [block[i] + 1];
    }
  }

  lemma {:induction false} CarryWraps(block: Bytes)
    requires forall k :: 0 <= k < |block| ==> block[k] == 255
    ensures Incremented(block) == seq(|block|, _ => 0)
  {
    if block != [] {
      CarryWraps(block[..|block| - 1]);
      assert seq(|block|, _ => 0 as bv8) == seq(|block| - 1, _ => 0 as bv8) + [0];
    }
  }

  method Increment(counter: array<bv8>)
    modifies counter
    ensures counter[..] == Incremented(old(counter[..]))
  {
    ghost var before := counter[..];
    var i := counter.Length;
    while i > 0
      invariant 0 <= i <= counter.Length
      invariant forall k :: 0 <= k < i ==> counter[k] == before[k]
      invariant forall k :: i <= k < counter.Length ==> before[k] == 255 && counter[k] == 0
    {
      i := i - 1;
      counter[i] := counter[i] + 1;
      if counter[i] != 0 {
        OnlyLastWraps(before[i]);
        CarryRipples(before, i);
        return;
      }
      OnlyLastWraps(before[i]);
    }
    CarryWraps(before);
  }

  lemma {:induction false} OnlyLastWraps(b: bv8)
    ensures b + 1 == 0 <==> b == 255
  {
  }

  // ---------------------------------------------------------------- keystreams

  // What the register holds when the j-th block of the keystream is made from it.
  function Register<Key>(aes: Aes<Key>, scheme: Scheme, key: Key, iv: Bytes, j: nat): (register: Bytes)
    ensures |iv| == BLOCK_SIZE ==> |register| == BLOCK_SIZE
  {
    if j == 0 then iv
    else
      var last := Register(aes, scheme, key, iv, j - 1);
      match scheme
      case Current => Incremented(last)
      case Legacy => Encipher(aes, key, last)
  }

  function KeyByte<Key>(aes: Aes<Key>, scheme: Scheme, key: Key, iv: Bytes, i: nat): bv8 {
    Encipher(aes, key, Register(aes, scheme, key, iv, i / BLOCK_SIZE))[i % BLOCK_SIZE]
  }

  // The data exclusive-ored with the keystream from a position on.
  function Xor<Key>(aes: Aes<Key>, scheme: Scheme, key: Key, iv: Bytes, pos: nat, data: Bytes): (r: Bytes)
    ensures |r| == |data|
  {
    seq(|data|, i requires 0 <= i < |data| => data[i] ^ KeyByte(aes, scheme, key, iv, pos + i))
  }

  lemma {:induction false} CounterValue<Key>(aes: Aes<Key>, key: Key, iv: Bytes, j: nat)
    ensures |Register(aes, Current, key, iv, j)| == |iv|
    ensures BlockValue(Register(aes, Current, key, iv, j)) == (BlockValue(iv) + j) % BlockCount(|iv|)
  {
    if j == 0 {
      IncrementedAddsOne(iv);
      QuotientIs(BlockValue(iv), BlockCount(|iv|), 0, BlockValue(iv));
    } else {
      CounterValue(aes, key, iv, j - 1);
      NextValue(Register(aes, Current, key, iv, j - 1), BlockValue(iv) + (j - 1));
    }
  }

  lemma {:induction false} NextValue(block: Bytes, x: nat)
    requires BlockValue(block) == x % BlockCount(|block|)
    ensures BlockValue(Incremented(block)) == (x + 1) % BlockCount(|block|)
  {
    IncrementedAddsOne(block);
    ModNext(x, BlockCount(|block|));
  }

  lemma {:induction false} SixteenBytes()
    ensures BlockCount(16) == 0x1_0000_0000_0000_0000_0000_0000_0000_0000
  {
    assert BlockCount(4) == 0x1_0000_0000;
    assert BlockCount(8) == 0x1_0000_0000_0000_0000;
    assert BlockCount(12) == 0x1_0000_0000_0000_0000_0000_0000;
  }

  lemma {:induction false} ModNext(x: nat, m: nat)
    requires m > 0
    ensures (x + 1) % m == if x % m + 1 == m then 0 else x % m + 1
  {
    var q := x / m;
    if x % m + 1 == m {
      QuotientIs(x + 1, m, q + 1, 0);
    } else {
      QuotientIs(x + 1, m, q, x % m + 1);
    }
  }

  lemma {:induction false} QuotientIs(x: nat, m: nat, q: nat, r: nat)
    requires x == q * m + r && r < m
    ensures x % m == r
  {
    var d := q - x / m;
    assert d * m == x % m - r;
  }

  /**
    Byte by byte, the current scheme enciphers the counter that is as far past the IV as the block is into the file.
   */
  lemma {:induction false} CurrentBytes<Key>(aes: Aes<Key>, key: Key, iv: Bytes, pos: nat, data: Bytes, i: nat,
                                             counter: Bytes)
    requires |iv| == 16 && |counter| == 16 && i < |data|
    requires BlockValue(counter) == (BlockValue(iv) + (pos + i) / 16) % 0x1_0000_0000_0000_0000_0000_0000_0000_0000
    ensures Xor(aes, Current, key, iv, pos, data)[i] == data[i] ^ aes.blockByte(key, counter, (pos + i) % 16)
  {
    SixteenBytes();
    CounterValue(aes, key, iv, (pos + i) / 16);
    ValueTellsBlocksApart(counter, Register(aes, Current, key, iv, (pos + i) / 16));
    assert KeyByte(aes, Current, key, iv, pos + i) == aes.blockByte(key, counter, (pos + i) % 16);
  }

  /** Byte by byte, the legacy scheme takes the IV enciphered once, twice and so on. */
  lemma {:induction false} LegacyBytes<Key>(aes: Aes<Key>, key: Key, iv: Bytes, pos: nat, data: Bytes, i: nat,
                                            registers: seq<Bytes>)
    requires i < |data| && |registers| == (pos + i) / 16 + 2 && registers[0] == iv
    requires forall j :: 0 <= j < |registers| ==> |registers[j]| == 16
    requires forall j, b :: 0 < j < |registers| && 0 <= b < 16 ==>
               registers[j][b] == aes.blockByte(key, registers[j - 1], b)
    ensures Xor(aes, Legacy, key, iv, pos, data)[i] == data[i] ^ registers[(pos + i) / 16 + 1][(pos + i) % 16]
  {
    var j, b := (pos + i) / 16, (pos + i) % 16;
    RegistersFeedBack(aes, key, iv, registers, j);
    assert KeyByte(aes, Legacy, key, iv, pos + i) == aes.blockByte(key, registers[j + 1 - 1], b);
  }

  lemma {:induction false} RegistersFeedBack<Key>(aes: Aes<Key>, key: Key, iv: Bytes, registers: seq<Bytes>, j: nat)
    requires j < |registers| && registers[0] == iv
    requires forall j :: 0 <= j < |registers| ==> |registers[j]| == 16
    requires forall j, b :: 0 < j < |registers| && 0 <= b < 16 ==>
               registers[j][b] == aes.blockByte(key, registers[j - 1], b)
    ensures Register(aes, Legacy, key, iv, j) == registers[j]
  {
    if j > 0 {
      RegistersFeedBack(aes, key, iv, registers, j - 1);
      assert Encipher(aes, key, registers[j - 1]) == registers[j];
    }
  }

  /** No two blocks of a file are enciphered with the same counter unless 2^128 blocks lie between them. */
  lemma {:induction false} CountersDiffer<Key>(aes: Aes<Key>, key: Key, iv: Bytes, j: nat, k: nat)
    requires |iv| == 16 && j < k < j + 0x1_0000_0000_0000_0000_0000_0000_0000_0000
    ensures Register(aes, Current, key, iv, j) != Register(aes, Current, key, iv, k)
  {
    SixteenBytes();
    CounterValue(aes, key, iv, j);
    CounterValue(aes, key, iv, k);
    RemaindersDiffer(BlockValue(iv) + j, k - j, BlockCount(16));
  }

  lemma {:induction false} RemaindersDiffer(x: nat, d: nat, m: nat)
    requires 0 < d < m
    ensures (x + d) % m != x % m
  {
    var q, r := x / m, x % m;
    if r + d < m {
      QuotientIs(x + d, m, q, r + d);
    } else {
      QuotientIs(x + d, m, q + 1, r + d - m);
    }
  }

  lemma {:induction false} XorTwice<Key>(aes: Aes<Key>, scheme: Scheme, key: Key, iv: Bytes, pos: nat, data: Bytes)
    ensures Xor(aes, scheme, key, iv, pos, Xor(aes, scheme, key, iv, pos, data)) == data
  {
    forall i | 0 <= i < |data|
      ensures (data[i] ^ KeyByte(aes, scheme, key, iv, pos + i)) ^ KeyByte(aes, scheme, key, iv, pos + i) == data[i]
    {
      XorCancels(data[i], KeyByte(aes, scheme, key, iv, pos + i));
    }
  }

  lemma {:induction false} XorCancels(a: bv8, b: bv8)
    ensures (a ^ b) ^ b == a
  {
  }

  lemma {:induction false} XorSplit<Key>(aes: Aes<Key>, scheme: Scheme, key: Key, iv: Bytes, pos: nat, a: Bytes,
                                         b: Bytes)
    ensures Xor(aes, scheme, key, iv, pos, a + b)
            == Xor(aes, scheme, key, iv, pos, a) + Xor(aes, scheme, key, iv, pos + |a|, b)
  {
  }

  // ---------------------------------------------------------------- the stream

  // A register, the block of keystream last made from it, and how much of that is used up.
  class Stream<Key> {
    const aes: Aes<Key>
    const scheme: Scheme
    const key: Key
    ghost const iv: Bytes
    const register: array<bv8>
    var block: Bytes
    var used: nat
    ghost var made: nat
    ghost var pos: nat

    ghost predicate Valid()
      reads this, register
    {
      && |iv| == register.Length == |block| == BLOCK_SIZE
      && used <= BLOCK_SIZE
      && pos + BLOCK_SIZE == made * BLOCK_SIZE + used
      && register[..] == Register(aes, scheme, key, iv, made)
      && (made > 0 ==> block == Encipher(aes, key, Register(aes, scheme, key, iv, made - 1)))
    }

    constructor (aes: Aes<Key>, scheme: Scheme, key: Key, iv: Bytes)
      requires |iv| == 16
      ensures Valid() && fresh(register)
      ensures this.aes == aes && this.scheme == scheme && this.key == key && this.iv == iv && pos == 0
    {
      this.aes, this.scheme, this.key, this.iv := aes, scheme, key, iv;
      register := new bv8[BLOCK_SIZE](i requires 0 <= i < BLOCK_SIZE && |iv| == BLOCK_SIZE => iv[i]);
      block, used := iv, BLOCK_SIZE;
      made, pos := 0, 0;
    }

    // Makes the next block: the counter moves on by one, the feedback register takes the block itself.
    method Refill()
      requires Valid() && used == BLOCK_SIZE
      modifies this, register
      ensures Valid() && used == 0 && pos == old(pos)
    {
      block := Encipher(aes, key, register[..]);
      ghost var last := register[..];
      match scheme {
        case Current =>
          Increment(register);
        case Legacy =>
          forall i | 0 <= i < BLOCK_SIZE {
            register[i] := block[i];
          }
          assert register[..] == block;
      }
      assert register[..] == Register(aes, scheme, key, iv, made + 1);
      made, used := made + 1, 0;
    }

    method NextByte() returns (b: bv8)
      requires Valid()
      modifies this, register
      ensures Valid() && b == KeyByte(aes, scheme, key, iv, old(pos)) && pos == old(pos) + 1
    {
      if used == BLOCK_SIZE {
        Refill();
      }
      ByteOfBlock(aes, scheme, key, iv, made - 1, used, pos);
      b := block[used];
      used, pos := used + 1, pos + 1;
    }

    /** Each call goes on in the keystream where the last one ended. */
    method XorKeyStream(src: Bytes) returns (dst: Bytes)
      requires Valid()
      modifies this, register
      ensures Valid()
      ensures dst == Xor(aes, scheme, key, iv, old(pos), src) && pos == old(pos) + |src|
    {
      dst := [];
      ghost var start := pos;
      for i := 0 to |src|
        invariant Valid() && pos == start + i
        invariant dst == Xor(aes, scheme, key, iv, start, src[..i])
      {
        var b := NextByte();
        dst := dst + [src[i] ^ b];
        XorOneMore(aes, scheme, key, iv, start, src, i);
      }
      assert src[..|src|] == src;
    }
  }

  lemma {:induction false} XorFrom<Key>(aes: Aes<Key>, scheme: Scheme, key: Key, iv: Bytes, pos: nat, data: Bytes,
                                        from: nat, to: nat)
    requires from <= to <= |data|
    ensures Xor(aes, scheme, key, iv, pos, data[from..])
            == Xor(aes, scheme, key, iv, pos, data[from..to]) + Xor(aes, scheme, key, iv, pos + (to - from), data[to..])
  {
    XorSplit(aes, scheme, key, iv, pos, data[from..to], data[to..]);
    assert data[from..] == data[from..to] + data[to..];
  }

  lemma {:induction false} XorOneMore<Key>(aes: Aes<Key>, scheme: Scheme, key: Key, iv: Bytes, pos: nat, data: Bytes,
                                           i: nat)
    requires i < |data|
    ensures Xor(aes, scheme, key, iv, pos, data[..i + 1])
            == Xor(aes, scheme, key, iv, pos, data[..i]) + [data[i] ^ KeyByte(aes, scheme, key, iv, pos + i)]
  {
  }

  lemma {:induction false} ByteOfBlock<Key>(aes: Aes<Key>, scheme: Scheme, key: Key, iv: Bytes, blocks: nat, used: nat,
                                            pos: nat)
    requires pos == blocks * 16 + used && used < 16
    ensures KeyByte(aes, scheme, key, iv, pos) == Encipher(aes, key, Register(aes, scheme, key, iv, blocks))[used]
  {
    PositionInBlock(pos, blocks, used);
  }

  lemma {:induction false} PositionInBlock(pos: nat, blocks: nat, used: nat)
    requires pos == blocks * 16 + used && used < 16
    ensures pos / 16 == blocks && pos % 16 == used
  {
  }
}
