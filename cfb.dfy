/** Cipher feedback mode with full-block feedback, as Go's
    cipher.NewCFBEncrypter / NewCFBDecrypter run it (CFB-128, section 6.3 of
    NIST SP 800-38A): C_i = P_i XOR E(C_{i-1}) with C_0 = IV, the last block
    possibly short. The block function E (AES in the source) is left
    uninterpreted: any function of the key and one block. */
module Cfb {
  import opened Types

  const BlockSize: nat := 16

  type Block = s: seq<Byte> | |s| == BlockSize
    witness [0, 0, 0, 0, 0, 0, 0, 0, 0, 0, 0, 0, 0, 0, 0, 0]

  /** The keyed block function: E(key, block). */
  type BlockCipher = (seq<Byte>, Block) -> Block

  /** `a` XOR the first |a| bytes of the keystream `ks`. */
  function XorPrefix(a: seq<Byte>, ks: seq<Byte>): (r: seq<Byte>)
    requires |a| <= |ks|
    ensures |r| == |a|
  {
    seq(|a|, i requires 0 <= i < |a| => a[i] ^ ks[i])
  }

  lemma XorPrefixTwice(a: seq<Byte>, ks: seq<Byte>)
    requires |a| <= |ks|
    ensures XorPrefix(XorPrefix(a, ks), ks) == a
  {
    var b := XorPrefix(XorPrefix(a, ks), ks);
    forall i | 0 <= i < |a| ensures b[i] == a[i] {
      assert XorPrefix(a, ks)[i] == a[i] ^ ks[i];
    }
  }

  /** CFB encryption of `p` with feedback register `reg` (the IV at the start). */
  function Encrypt(e: BlockCipher, key: seq<Byte>, reg: Block, p: seq<Byte>): (c: seq<Byte>)
    ensures |c| == |p|
    decreases |p|
  {
    if |p| <= BlockSize then XorPrefix(p, e(key, reg))
    else
      var c0 := XorPrefix(p[..BlockSize], e(key, reg));
      c0 + Encrypt(e, key, c0, p[BlockSize..])
  }

  /** CFB decryption: the feedback is the ciphertext block just read. */
  function Decrypt(e: BlockCipher, key: seq<Byte>, reg: Block, c: seq<Byte>): (p: seq<Byte>)
    ensures |p| == |c|
    decreases |c|
  {
    if |c| <= BlockSize then XorPrefix(c, e(key, reg))
    else XorPrefix(c[..BlockSize], e(key, reg)) + Decrypt(e, key, c[..BlockSize], c[BlockSize..])
  }

  /** Decryption undoes encryption under the same key and IV. */
  lemma {:induction false} DecryptEncrypt(e: BlockCipher, key: seq<Byte>, reg: Block, p: seq<Byte>)
    ensures Decrypt(e, key, reg, Encrypt(e, key, reg, p)) == p
    decreases |p|
  {
    var ks := e(key, reg);
    if |p| <= BlockSize {
      XorPrefixTwice(p, ks);
    } else {
      var c0 := XorPrefix(p[..BlockSize], ks);
      var c := Encrypt(e, key, reg, p);
      assert c[..BlockSize] == c0 && c[BlockSize..] == Encrypt(e, key, c0, p[BlockSize..]);
      XorPrefixTwice(p[..BlockSize], ks);
      DecryptEncrypt(e, key, c0, p[BlockSize..]);
      assert p == p[..BlockSize] + p[BlockSize..];
    }
  }

  /** And encryption undoes decryption: for a fixed key and IV the mode is a
      bijection on byte strings of each length. */
  lemma {:induction false} EncryptDecrypt(e: BlockCipher, key: seq<Byte>, reg: Block, c: seq<Byte>)
    ensures Encrypt(e, key, reg, Decrypt(e, key, reg, c)) == c
    decreases |c|
  {
    var ks := e(key, reg);
    if |c| <= BlockSize {
      XorPrefixTwice(c, ks);
    } else {
      var c0: Block := c[..BlockSize];
      var p := Decrypt(e, key, reg, c);
      var p0 := XorPrefix(c0, ks);
      assert p[..BlockSize] == p0 && p[BlockSize..] == Decrypt(e, key, c0, c[BlockSize..]);
      XorPrefixTwice(c0, ks);
      EncryptDecrypt(e, key, c0, c[BlockSize..]);
      assert c == c0 + c[BlockSize..];
    }
  }

  /** dst[at..at + |src|] := src XOR ks, byte by byte; nothing else changes. */
  method XorInto(dst: array<Byte>, at: nat, src: seq<Byte>, ks: seq<Byte>)
    requires |src| <= |ks| && at + |src| <= dst.Length
    modifies dst
    ensures dst[..] == old(dst[..at]) + XorPrefix(src, ks) + old(dst[at + |src|..])
  {
    var i := 0;
    while i < |src|
      invariant 0 <= i <= |src|
      invariant forall j :: 0 <= j < i ==> dst[at + j] == src[j] ^ ks[j]
      invariant forall j :: 0 <= j < dst.Length && !(at <= j < at + i) ==> dst[j] == old(dst[j])
    {
      dst[at + i] := src[i] ^ ks[i];
      i := i + 1;
    }
    assert dst[..] == old(dst[..at]) + XorPrefix(src, ks) + old(dst[at + |src|..]);
  }

  /** One step of Encrypt: the first (possibly short) block, then the rest
      with that block as the register. */
  lemma EncryptUnfold(e: BlockCipher, key: seq<Byte>, reg: Block, p: seq<Byte>, m: nat)
    requires 0 < |p| && m == if |p| < BlockSize then |p| else BlockSize
    ensures var c0 := XorPrefix(p[..m], e(key, reg));
      Encrypt(e, key, reg, p) == c0 + (if m == BlockSize then Encrypt(e, key, c0, p[m..]) else [])
  {
    if |p| <= BlockSize {
      assert p[..m] == p;
      if m == BlockSize {
        var c0 := XorPrefix(p[..m], e(key, reg));
        assert Encrypt(e, key, c0, p[m..]) == [];
      }
    }
  }

  /** One step of Decrypt, the same way round. */
  lemma DecryptUnfold(e: BlockCipher, key: seq<Byte>, reg: Block, c: seq<Byte>, m: nat)
    requires 0 < |c| && m == if |c| < BlockSize then |c| else BlockSize
    ensures Decrypt(e, key, reg, c) ==
      XorPrefix(c[..m], e(key, reg)) + (if m == BlockSize then Decrypt(e, key, c[..m], c[m..]) else [])
  {
    if |c| <= BlockSize {
      assert c[..m] == c;
      if m == BlockSize {
        assert Decrypt(e, key, c[..m], c[m..]) == [];
      }
    }
  }

  /** The buffer pre + done + o[from..] after x is written right after
      done: done has grown by x and o has lost its first |x| bytes. */
  lemma WriteStep(pre: seq<Byte>, done: seq<Byte>, o: seq<Byte>, from: nat, x: seq<Byte>, d1: seq<Byte>)
    requires from + |x| <= |o|
    requires var d0 := pre + done + o[from..];
      d1 == d0[..|pre| + |done|] + x + d0[|pre| + |done| + |x|..]
    ensures d1 == pre + (done + x) + o[from + |x|..]
    ensures d1[|pre| + |done|..|pre| + |done| + |x|] == x
    ensures o[from..][|x|..] == o[from + |x|..]
  {
    var d0 := pre + done + o[from..];
    assert d0[..|pre| + |done|] == pre + done;
    assert d0[|pre| + |done| + |x|..] == o[from + |x|..];
    Assoc(pre, done, x);
  }

  /** The k bytes that follow pre in pre + o[from..]. */
  lemma Peek(pre: seq<Byte>, o: seq<Byte>, from: nat, k: nat)
    requires from + k <= |o|
    ensures (pre + o[from..])[|pre|..|pre| + k] == o[from..][..k] == o[from..from + k]
  {
  }

  lemma Assoc(a: seq<Byte>, b: seq<Byte>, c: seq<Byte>)
    ensures (a + b) + c == a + (b + c)
  {
  }

  /** The loop step of EncryptInto: with `done` written so far, writing the
      ciphertext c0 of the next block and taking it as the register keeps
      `done + rest` equal to the whole. */
  lemma EncryptAdvance(e: BlockCipher, key: seq<Byte>, reg: Block, src: seq<Byte>, pos: nat, m: nat,
                       done: seq<Byte>, total: seq<Byte>, c0: seq<Byte>, reg': Block)
    requires pos < |src| && m == if |src| - pos < BlockSize then |src| - pos else BlockSize
    requires done + Encrypt(e, key, reg, src[pos..]) == total
    requires c0 == XorPrefix(src[pos..pos + m], e(key, reg))
    requires m == BlockSize ==> reg' == c0
    ensures (done + c0) + Encrypt(e, key, reg', src[pos + m..]) == total
  {
    var p := src[pos..];
    assert p[..m] == src[pos..pos + m] && p[m..] == src[pos + m..];
    EncryptUnfold(e, key, reg, p, m);
    if m == BlockSize {
      Assoc(done, c0, Encrypt(e, key, c0, p[m..]));
    } else {
      assert src[pos + m..] == [];
      assert c0 + [] == c0;
    }
  }

  /** The loop step of DecryptInPlace: `next` is the ciphertext block saved
      before it is overwritten, `after` what has been written once it is. */
  lemma DecryptAdvance(e: BlockCipher, key: seq<Byte>, reg: Block, c: seq<Byte>, m: nat,
                       done: seq<Byte>, total: seq<Byte>, next: seq<Byte>, after: seq<Byte>)
    requires 0 < |c| && m == if |c| < BlockSize then |c| else BlockSize
    requires done + Decrypt(e, key, reg, c) == total
    requires next == c[..m] && after == done + XorPrefix(next, e(key, reg))
    ensures m == BlockSize ==> |next| == BlockSize && after + Decrypt(e, key, next, c[m..]) == total
    ensures m < BlockSize ==> after == total && m == |c|
  {
    DecryptUnfold(e, key, reg, c, m);
    var x := XorPrefix(next, e(key, reg));
    if m == BlockSize {
      Assoc(done, x, Decrypt(e, key, next, c[m..]));
    } else {
      assert x + [] == x;
    }
  }

  /** One block of EncryptInto at dst[off + pos..]: XOR the next plaintext
      block with E(reg) into place; the ciphertext block written is the next
      register. `done` is the ciphertext written so far. */
  method EncryptBlock(e: BlockCipher, key: seq<Byte>, reg: Block, dst: array<Byte>, off: nat, src: seq<Byte>, pos: nat,
                      ghost orig: seq<Byte>, ghost done: seq<Byte>, ghost total: seq<Byte>)
    returns (reg': Block, pos': nat, ghost done': seq<Byte>)
    requires pos < |src| && off + |src| <= dst.Length && |orig| == dst.Length && |done| == pos
    requires dst[..] == orig[..off] + done + orig[off + pos..]
    requires done + Encrypt(e, key, reg, src[pos..]) == total
    modifies dst
    ensures pos < pos' <= |src| && |done'| == pos'
    ensures dst[..] == orig[..off] + done' + orig[off + pos'..]
    ensures done' + Encrypt(e, key, reg', src[pos'..]) == total
  {
    var n := |src|;
    var ks := e(key, reg);
    var m := if n - pos < BlockSize then n - pos else BlockSize;
    pos' := pos + m;
    ghost var c0 := XorPrefix(src[pos..pos + m], ks);
    XorInto(dst, off + pos, src[pos..pos + m], ks);
    WriteStep(orig[..off], done, orig, off + pos, c0, dst[..]);
    done' := done + c0;
    reg' := if m == BlockSize then dst[off + pos..off + pos + BlockSize] else reg;
    EncryptAdvance(e, key, reg, src, pos, m, done, total, c0, reg');
  }

  /** XORKeyStream of an encrypter whose register starts at `iv`: writes the
      ciphertext of `src` into dst[off..off + |src|] and nothing else. */
  method EncryptInto(e: BlockCipher, key: seq<Byte>, iv: Block, dst: array<Byte>, off: nat, src: seq<Byte>)
    requires off + |src| <= dst.Length
    modifies dst
    ensures dst[..] == old(dst[..off]) + Encrypt(e, key, iv, src) + old(dst[off + |src|..])
  {
    var n := |src|;
    ghost var orig := dst[..];
    ghost var total := Encrypt(e, key, iv, src);
    ghost var done: seq<Byte> := [];
    var pos := 0;
    var reg: Block := iv;
    assert dst[..] == orig[..off] + done + orig[off..];
    while pos < n
      invariant pos <= n && |done| == pos
      invariant dst[..] == orig[..off] + done + orig[off + pos..]
      invariant done + Encrypt(e, key, reg, src[pos..]) == total
      decreases n - pos
    {
      reg, pos, done := EncryptBlock(e, key, reg, dst, off, src, pos, orig, done, total);
    }
    assert src[pos..] == [];
    assert done == total;
    assert orig[..off] == old(dst[..off]) && orig[off + n..] == old(dst[off + n..]);
  }

  /** One block of DecryptInPlace at buf[off + pos..]: save the ciphertext
      block as the next register, then XOR it with E(reg) in place. `done`
      is the plaintext written so far. */
  method DecryptBlock(e: BlockCipher, key: seq<Byte>, reg: Block, buf: array<Byte>, off: nat, pos: nat,
                      ghost head: seq<Byte>, ghost c: seq<Byte>, ghost done: seq<Byte>, ghost total: seq<Byte>)
    returns (reg': Block, pos': nat, ghost done': seq<Byte>)
    requires pos < |c| && off + |c| == buf.Length && |head| == off && |done| == pos
    requires buf[..] == head + done + c[pos..]
    requires done + Decrypt(e, key, reg, c[pos..]) == total
    modifies buf
    ensures pos < pos' <= |c| && |done'| == pos'
    ensures buf[..] == head + done' + c[pos'..]
    ensures done' + Decrypt(e, key, reg', c[pos'..]) == total
  {
    var n := buf.Length - off;
    var ks := e(key, reg);
    var m := if n - pos < BlockSize then n - pos else BlockSize;
    pos' := pos + m;
    Peek(head + done, c, pos, m);
    var next := buf[off + pos..off + pos + m];
    XorInto(buf, off + pos, next, ks);
    WriteStep(head, done, c, pos, XorPrefix(next, ks), buf[..]);
    done' := done + XorPrefix(next, ks);
    DecryptAdvance(e, key, reg, c[pos..], m, done, total, next, done');
    if m == BlockSize {
      reg' := next;
    } else {
      reg' := reg;
      assert c[pos + m..] == [];
    }
  }

  /** XORKeyStream of a decrypter whose register starts at `iv`, run in
      place over buf[off..]: each ciphertext block is kept as the next
      register before it is overwritten with plaintext. */
  method DecryptInPlace(e: BlockCipher, key: seq<Byte>, iv: Block, buf: array<Byte>, off: nat)
    requires off <= buf.Length
    modifies buf
    ensures buf[..] == old(buf[..off]) + Decrypt(e, key, iv, old(buf[off..]))
  {
    var n := buf.Length - off;
    ghost var head, c := buf[..off], buf[off..];
    ghost var total := Decrypt(e, key, iv, c);
    ghost var done: seq<Byte> := [];
    var pos := 0;
    var reg: Block := iv;
    assert buf[..] == head + done + c[0..];
    while pos < n
      invariant pos <= n && |done| == pos
      invariant buf[..] == head + done + c[pos..]
      invariant done + Decrypt(e, key, reg, c[pos..]) == total
      decreases n - pos
    {
      reg, pos, done := DecryptBlock(e, key, reg, buf, off, pos, head, c, done, total);
    }
    assert c[pos..] == [];
  }
}
