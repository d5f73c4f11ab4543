/** Cipher block chaining, section 6.2 of NIST SP 800-38A, over any block cipher. */
module Cbc {
  import opened Aes

  const BLOCK_SIZE := 16

  type Block = b: seq<bv8> | |b| == BLOCK_SIZE witness seq(BLOCK_SIZE, i => 0)

  function XorBytes(a: Block, b: Block): Block {
    seq(BLOCK_SIZE, i requires 0 <= i < BLOCK_SIZE => Xor(a[i], b[i]))
  }

  lemma XorBytesCancel(a: Block, b: Block)
    ensures XorBytes(XorBytes(a, b), b) == a
  {
    hide Xor;
    forall i | 0 <= i < |a| ensures XorBytes(XorBytes(a, b), b)[i] == a[i] {
      XorCancel(a[i], b[i]);
    }
  }

  /** A last block that is cut short counts as filled up with zeros. */
  function Pad(p: seq<bv8>): Block
    requires |p| <= BLOCK_SIZE
  {
    p + seq(BLOCK_SIZE - |p|, i => 0)
  }

  lemma PadTake(p: seq<bv8>)
    requires |p| <= BLOCK_SIZE
    ensures Pad(p)[..|p|] == p
  {
  }

  function First(len: nat): nat { if len < BLOCK_SIZE then len else BLOCK_SIZE }

  /** The length rounded up to whole blocks. */
  function Rounded(len: nat): (n: nat)
    ensures len <= n < len + BLOCK_SIZE
  {
    if len == 0 then 0 else BLOCK_SIZE + Rounded(len - First(len))
  }

  /** Whole blocks only. */
  predicate Whole(len: nat) { Rounded(len) == len }

  lemma {:induction false} WholeBlocks(len: nat)
    ensures Whole(len) <==> len % BLOCK_SIZE == 0
  {
    if len >= BLOCK_SIZE {
      WholeBlocks(len - BLOCK_SIZE);
    }
  }

  function Encrypted(cipher: Block -> Block, iv: Block, p: seq<bv8>): (c: seq<bv8>)
    ensures |c| == Rounded(|p|)
    decreases |p|
  {
    hide XorBytes, Pad;
    if p == [] then []
    else
      var b := cipher(XorBytes(Pad(p[..First(|p|)]), iv));
      b + Encrypted(cipher, b, p[First(|p|)..])
  }

  function Decrypted(inverse: Block -> Block, iv: Block, c: seq<bv8>, len: nat): (p: seq<bv8>)
    requires |c| >= Rounded(len)
    ensures |p| == len
    decreases len
  {
    hide XorBytes;
    if len == 0 then []
    else
      XorBytes(inverse(c[..BLOCK_SIZE]), iv)[..First(len)]
      + Decrypted(inverse, c[..BLOCK_SIZE], c[BLOCK_SIZE..], len - First(len))
  }

  /** The vector to go on with: the last block of the cipher text. */
  function Last(iv: Block, c: seq<bv8>): Block { if |c| < BLOCK_SIZE then iv else c[|c| - BLOCK_SIZE..] }

  /** What decryption leaves in the vector: after a block cut short it is the plain block. */
  function LastDecrypted(inverse: Block -> Block, iv: Block, c: seq<bv8>, len: nat): Block {
    if Whole(len) then Last(iv, c) else inverse(Last(iv, c))
  }

  ghost predicate Undoes(inverse: Block -> Block, cipher: Block -> Block) {
    forall b: Block :: inverse(cipher(b)) == b
  }

  /** Decryption gives back the plain text, of whatever length. */
  lemma {:induction false} RoundTrip(cipher: Block -> Block, inverse: Block -> Block, iv: Block, p: seq<bv8>)
    requires Undoes(inverse, cipher)
    ensures Decrypted(inverse, iv, Encrypted(cipher, iv, p), |p|) == p
    decreases |p|
  {
    hide XorBytes, Pad;
    if p != [] {
      var f := First(|p|);
      var x := XorBytes(Pad(p[..f]), iv);
      var b: Block := cipher(x);
      var rest: seq<bv8> := Encrypted(cipher, b, p[f..]);
      assert (b + rest)[..BLOCK_SIZE] == b && (b + rest)[BLOCK_SIZE..] == rest;
      XorBytesCancel(Pad(p[..f]), iv);
      PadTake(p[..f]);
      RoundTrip(cipher, inverse, b, p[f..]);
      assert p[..f] + p[f..] == p;
    }
  }

  lemma LastJoin(iv: Block, b: Block, c: seq<bv8>)
    requires c == [] || |c| >= BLOCK_SIZE
    ensures Last(iv, b + c) == Last(b, c)
  {
  }

  lemma WholeRest(len: nat)
    requires Whole(len) && len > 0
    ensures len >= BLOCK_SIZE && Whole(len - BLOCK_SIZE)
  {
  }

  lemma {:induction false} WholeSum(whole: nat, len: nat)
    requires Whole(whole)
    ensures Rounded(whole + len) == whole + Rounded(len)
  {
    if whole > 0 {
      WholeSum(whole - BLOCK_SIZE, len);
    }
  }

  lemma Joins(a: seq<bv8>, b: seq<bv8>, c: seq<bv8>)
    ensures a + (b + c) == a + b + c
  {
  }

  lemma DecryptFirst(inverse: Block -> Block, iv: Block, b: Block, rest: seq<bv8>, len: nat)
    requires |rest| >= Rounded(len)
    ensures Rounded(BLOCK_SIZE + len) == BLOCK_SIZE + Rounded(len)
    ensures Decrypted(inverse, iv, b + rest, BLOCK_SIZE + len) == XorBytes(inverse(b), iv) + Decrypted(inverse, b, rest, len)
  {
    hide XorBytes;
    assert (b + rest)[..BLOCK_SIZE] == b && (b + rest)[BLOCK_SIZE..] == rest;
  }

  /** Two calls that split the text at a block boundary do what one call does. */
  lemma {:induction false} EncryptSplit(cipher: Block -> Block, iv: Block, p: seq<bv8>, q: seq<bv8>)
    requires Whole(|p|)
    ensures Encrypted(cipher, iv, p + q)
         == Encrypted(cipher, iv, p) + Encrypted(cipher, Last(iv, Encrypted(cipher, iv, p)), q)
    decreases |p|
  {
    hide XorBytes, Pad;
    if p == [] {
      assert p + q == q;
    } else {
      WholeRest(|p|);
      assert (p + q)[..BLOCK_SIZE] == p[..BLOCK_SIZE] && (p + q)[BLOCK_SIZE..] == p[BLOCK_SIZE..] + q;
      var b: Block := cipher(XorBytes(Pad(p[..BLOCK_SIZE]), iv));
      var rest := Encrypted(cipher, b, p[BLOCK_SIZE..]);
      EncryptSplit(cipher, b, p[BLOCK_SIZE..], q);
      LastJoin(iv, b, rest);
    }
  }

  lemma {:induction false} DecryptSplit(inverse: Block -> Block, iv: Block, c: seq<bv8>, d: seq<bv8>, len: nat)
    requires Whole(|c|) && |d| == Rounded(len)
    ensures |c| + Rounded(len) == Rounded(|c| + len)
    ensures Decrypted(inverse, iv, c + d, |c| + len) == Decrypted(inverse, iv, c, |c|) + Decrypted(inverse, Last(iv, c), d, len)
    decreases |c|
  {
    hide XorBytes, Decrypted, Last, Whole, Rounded;
    WholeSum(|c|, len);
    if c == [] {
      NothingFirst(inverse, iv, d, len);
      return;
    }
    WholeRest(|c|);
    var b: Block, rest: seq<bv8> := c[..BLOCK_SIZE], c[BLOCK_SIZE..];
    assert b + rest == c;
    DecryptSplit(inverse, b, rest, d, len);
    DecryptStep(inverse, iv, b, rest, d, len);
  }

  lemma NothingFirst(inverse: Block -> Block, iv: Block, d: seq<bv8>, len: nat)
    requires |d| == Rounded(len)
    ensures Decrypted(inverse, iv, [] + d, 0 + len) == Decrypted(inverse, iv, [], 0) + Decrypted(inverse, Last(iv, []), d, len)
  {
    hide XorBytes;
    assert [] + d == d;
  }

  lemma DecryptStep(inverse: Block -> Block, iv: Block, b: Block, rest: seq<bv8>, d: seq<bv8>, len: nat)
    requires Whole(|rest|) && |d| == Rounded(len) && |rest| + Rounded(len) == Rounded(|rest| + len)
    requires Decrypted(inverse, b, rest + d, |rest| + len)
          == Decrypted(inverse, b, rest, |rest|) + Decrypted(inverse, Last(b, rest), d, len)
    ensures |b + rest + d| == Rounded(|b + rest| + len) && Whole(|b + rest|)
    ensures Decrypted(inverse, iv, b + rest + d, |b + rest| + len)
         == Decrypted(inverse, iv, b + rest, |b + rest|) + Decrypted(inverse, Last(iv, b + rest), d, len)
  {
    hide XorBytes, Decrypted, Last;
    DecryptFirst(inverse, iv, b, rest, |rest|);
    DecryptFirst(inverse, iv, b, rest + d, |rest| + len);
    Joins(b, rest, d);
    LastJoin(iv, b, rest);
    Joins(XorBytes(inverse(b), iv), Decrypted(inverse, b, rest, |rest|), Decrypted(inverse, Last(b, rest), d, len));
  }

  /** Each cipher block is the encryption of its plain block plus the cipher block before it, or the vector. */
  lemma BlockOf(cipher: Block -> Block, iv: Block, p: seq<bv8>, q: seq<bv8>)
    requires Whole(|p|) && q != []
    ensures |p| + BLOCK_SIZE <= |Encrypted(cipher, iv, p + q)|
    ensures Encrypted(cipher, iv, p + q)[..|p|] == Encrypted(cipher, iv, p)
    ensures Encrypted(cipher, iv, p + q)[|p|..|p| + BLOCK_SIZE]
         == cipher(XorBytes(Pad(q[..First(|q|)]), Last(iv, Encrypted(cipher, iv, p))))
  {
    hide XorBytes, Pad;
    EncryptSplit(cipher, iv, p, q);
    assert Encrypted(cipher, Last(iv, Encrypted(cipher, iv, p)), q)[..BLOCK_SIZE]
        == cipher(XorBytes(Pad(q[..First(|q|)]), Last(iv, Encrypted(cipher, iv, p))));
  }

  /** What goes into the cipher for block i: the text, filled up with zeros, plus the cipher block before it or the vector. */
  ghost predicate Chained(x: Block, iv: Block, p: seq<bv8>, c: seq<bv8>, i: nat)
    requires 16 * i <= |c|
  {
    forall k :: 0 <= k < 16 ==>
      x[k] == (if 16 * i + k < |p| then p[16 * i + k] else 0) ^ (if i == 0 then iv[k] else c[16 * i - 16 + k])
  }

  lemma {:induction false} BlockBytes(cipher: Block -> Block, iv: Block, p: seq<bv8>, i: nat, x: Block)
    requires 16 * i < |p|
    ensures 16 * i + 16 <= |Encrypted(cipher, iv, p)|
    ensures var c := Encrypted(cipher, iv, p); Chained(x, iv, p, c, i) ==> c[16 * i..16 * i + 16] == cipher(x)
    decreases i
  {
    hide XorBytes, Pad, Rounded, Chained;
    var b := cipher(XorBytes(Pad(p[..First(|p|)]), iv));
    var rest := p[First(|p|)..];
    var c, d := Encrypted(cipher, iv, p), Encrypted(cipher, b, rest);
    assert c == b + d && c[..16] == b;
    if i == 0 {
      if Chained(x, iv, p, c, 0) { FirstBytes(x, p, iv, c); }
    } else {
      BlockBytes(cipher, b, rest, i - 1, x);
      assert d[16 * (i - 1)..16 * (i - 1) + 16] == c[16 * i..16 * i + 16];
      if Chained(x, iv, p, c, i) { ChainedRest(x, iv, p, b, d, i); }
    }
  }

  lemma ChainedRest(x: Block, iv: Block, p: seq<bv8>, b: Block, d: seq<bv8>, i: nat)
    requires 1 <= i && 16 * i < |p| && 16 * i <= 16 + |d| && Chained(x, iv, p, b + d, i)
    ensures Chained(x, b, p[16..], d, i - 1)
  {
    var q, c := p[16..], b + d;
    forall k | 0 <= k < 16
      ensures x[k] == (if 16 * (i - 1) + k < |q| then q[16 * (i - 1) + k] else 0) ^ (if i == 1 then b[k] else d[16 * (i - 1) - 16 + k])
    {
      assert 16 * i + k < |p| ==> p[16 * i + k] == q[16 * (i - 1) + k];
      assert c[16 * i - 16 + k] == if i == 1 then b[k] else d[16 * i - 32 + k];
    }
  }

  lemma FirstBytes(x: Block, p: seq<bv8>, iv: Block, c: seq<bv8>)
    requires p != [] && Chained(x, iv, p, c, 0)
    ensures x == XorBytes(Pad(p[..First(|p|)]), iv)
  {
  }
}
