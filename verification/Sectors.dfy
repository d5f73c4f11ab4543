/** AES in the chaining mode over buffers, and the encryption of disk sectors. */
module Sectors {
  import Aes
  import opened AesKey
  import opened ByteAccess
  import opened Cbc

  function Cipher(rk: seq<Aes.Word>, n: nat): Block -> Block
    requires n >= 1 && 4 * n + 4 <= |rk|
  {
    (b: Block) => EncryptedBlock(rk, n, b)
  }

  function Inverse(dk: seq<Aes.Word>, n: nat): Block -> Block
    requires n >= 1 && 4 * n + 4 <= |dk|
  {
    (b: Block) => DecryptedBlock(dk, n, b)
  }

  /** The two ciphers of a key of 128, 192 or 256 bits. */
  lemma CiphersUndo(rk: seq<Aes.Word>, dk: seq<Aes.Word>, key: seq<bv8>, n: nat)
    requires n >= 1 && 4 * n + 4 <= |rk| && 4 * n + 4 <= |dk|
    requires Schedule(rk, key, n) && InverseSchedule(dk, key, n)
    ensures Undoes(Inverse(dk, n), Cipher(rk, n))
  {
    hide Schedule, InverseSchedule, EncryptedBlock, DecryptedBlock;
    forall b: Block ensures Inverse(dk, n)(Cipher(rk, n)(b)) == b {
      BlockRoundTrip(rk, dk, key, n, b);
    }
  }

  ghost function CipherOf(key: Key): Block -> Block
    requires key.Ready()
    reads key, key.rdKey
  {
    Cipher(key.rdKey[..], key.rounds)
  }

  ghost function InverseOf(key: Key): Block -> Block
    requires key.Ready()
    reads key, key.rdKey
  {
    Inverse(key.rdKey[..], key.rounds)
  }

  /** The buffers are the same one, at the same place, or different ones; the vector is apart from both. */
  ghost predicate Usable(input: array<bv8>, i: nat, output: array<bv8>, o: nat, key: Key, ivec: array<bv8>)
    reads key
  {
    && key.Ready() && key.Apart(output) && key.Apart(ivec)
    && ivec.Length == BLOCK_SIZE && ivec != input && ivec != output && (input == output ==> i == o)
  }

  method Copy(output: array<bv8>, o: nat, input: array<bv8>, i: nat)
    requires output != input && o + BLOCK_SIZE <= output.Length && i + BLOCK_SIZE <= input.Length
    modifies output
    ensures output[..] == Replaced(old(output[..]), o, input[i..i + BLOCK_SIZE])
  {
    hide Replaced;
    forall n | 0 <= n < BLOCK_SIZE { output[o + n] := input[i + n]; }
  }

  /** A whole block is copied to a buffer of that size. */
  method CopyBlock(block: array<bv8>, input: array<bv8>, i: nat)
    requires block != input && block.Length == BLOCK_SIZE && i + BLOCK_SIZE <= input.Length
    modifies block
    ensures block[..] == input[i..i + BLOCK_SIZE]
  {
    ghost var before := block[..];
    Copy(block, 0, input, i);
    ReplacedPart(before, 0, input[i..i + BLOCK_SIZE]);
  }

  /** One block through the cipher. */
  method EncryptTo(tmp: array<bv8>, output: array<bv8>, o: nat, key: Key)
    requires key.Ready() && key.Apart(output) && tmp.Length == BLOCK_SIZE && o + BLOCK_SIZE <= output.Length
    modifies output
    ensures output[..] == Replaced(old(output[..]), o, CipherOf(key)(old(tmp[..])))
    ensures output[o..o + BLOCK_SIZE] == CipherOf(key)(old(tmp[..]))
  {
    hide EncryptedBlock, Replaced;
    ghost var before, x := output[..], tmp[..];
    assert tmp[0..0 + BLOCK_SIZE] == x;
    key.Encrypt(tmp, 0, output, o);
    ReplacedPart(before, o, CipherOf(key)(x));
  }

  method DecryptTo(input: array<bv8>, i: nat, output: array<bv8>, o: nat, key: Key)
    requires key.Ready() && key.Apart(output) && i + BLOCK_SIZE <= input.Length && o + BLOCK_SIZE <= output.Length
    modifies output
    ensures output[..] == Replaced(old(output[..]), o, InverseOf(key)(old(input[i..i + BLOCK_SIZE])))
    ensures output[o..o + BLOCK_SIZE] == InverseOf(key)(old(input[i..i + BLOCK_SIZE]))
  {
    hide DecryptedBlock, Replaced;
    ghost var before, x := output[..], input[i..i + BLOCK_SIZE];
    key.Decrypt(input, i, output, o);
    ReplacedPart(before, o, InverseOf(key)(x));
  }

  /** The sum of the text and the vector; past the text, the vector alone. */
  method MixIn(tmp: array<bv8>, input: array<bv8>, i: nat, len: nat, ivec: array<bv8>)
    requires tmp.Length == ivec.Length == BLOCK_SIZE && tmp != input && tmp != ivec
    requires len <= BLOCK_SIZE && i + len <= input.Length
    modifies tmp
    ensures tmp[..] == XorBytes(Pad(input[i..i + len]), ivec[..])
  {
    hide Aes.Xor;
    var n := 0;
    while n < len
      invariant n <= len && forall k :: 0 <= k < n ==> tmp[k] == Aes.Xor(input[i + k], ivec[k])
    {
      tmp[n] := Aes.Xor(input[i + n], ivec[n]);
      n := n + 1;
    }
    while n < BLOCK_SIZE
      invariant len <= n <= BLOCK_SIZE
      invariant forall k :: 0 <= k < len ==> tmp[k] == Aes.Xor(input[i + k], ivec[k])
      invariant forall k :: len <= k < n ==> tmp[k] == Aes.Xor(0, ivec[k])
    {
      Aes.XorCancel(ivec[n], 0);
      tmp[n] := ivec[n];
      n := n + 1;
    }
  }

  method EncryptWhole(tmp: array<bv8>, input: array<bv8>, i: nat, output: array<bv8>, o: nat, key: Key, ivec: array<bv8>)
    requires Usable(input, i, output, o, key, ivec) && key.Apart(tmp)
    requires tmp.Length == BLOCK_SIZE && tmp != input && tmp != output && tmp != ivec
    requires i + BLOCK_SIZE <= input.Length && o + BLOCK_SIZE <= output.Length
    modifies tmp, output, ivec
    ensures ivec[..] == CipherOf(key)(XorBytes(Pad(old(input[i..i + BLOCK_SIZE])), old(ivec[..])))
    ensures output[..] == Replaced(old(output[..]), o, ivec[..])
  {
    hide XorBytes, Pad, Replaced, Cipher;
    MixIn(tmp, input, i, BLOCK_SIZE, ivec);
    EncryptTo(tmp, output, o, key);
    CopyBlock(ivec, output, o);
  }

  method EncryptTail(tmp: array<bv8>, input: array<bv8>, i: nat, output: array<bv8>, o: nat, len: nat, key: Key, ivec: array<bv8>)
    requires Usable(input, i, output, o, key, ivec) && key.Apart(tmp)
    requires tmp.Length == BLOCK_SIZE && tmp != input && tmp != output && tmp != ivec
    requires len < BLOCK_SIZE && i + len <= input.Length && o + BLOCK_SIZE <= output.Length
    modifies tmp, output, ivec
    ensures ivec[..] == CipherOf(key)(XorBytes(Pad(old(input[i..i + len])), old(ivec[..])))
    ensures output[..] == Replaced(old(output[..]), o, ivec[..])
  {
    hide XorBytes, Pad, Replaced, Cipher;
    MixIn(tmp, input, i, len, ivec);
    EncryptTo(tmp, tmp, 0, key);
    assert tmp[0..0 + BLOCK_SIZE] == tmp[..];
    Copy(output, o, tmp, 0);
    CopyBlock(ivec, tmp, 0);
  }

  method DecryptWhole(tmp: array<bv8>, input: array<bv8>, i: nat, output: array<bv8>, o: nat, key: Key, ivec: array<bv8>)
    requires Usable(input, i, output, o, key, ivec) && key.Apart(tmp)
    requires tmp.Length == BLOCK_SIZE && tmp != input && tmp != output && tmp != ivec
    requires i + BLOCK_SIZE <= input.Length && o + BLOCK_SIZE <= output.Length
    modifies tmp, output, ivec
    ensures ivec[..] == old(input[i..i + BLOCK_SIZE])
    ensures output[..] == Replaced(old(output[..]), o,
                                   XorBytes(InverseOf(key)(old(input[i..i + BLOCK_SIZE])), old(ivec[..])))
  {
    hide Replaced, Aes.Xor, Inverse;
    ghost var before, c, v := output[..], input[i..i + BLOCK_SIZE], ivec[..];
    CopyBlock(tmp, input, i);
    DecryptTo(input, i, output, o, key);
    ghost var p, middle := InverseOf(key)(c), output[..];
    forall n | 0 <= n < BLOCK_SIZE { output[o + n] := Aes.Xor(output[o + n], ivec[n]); }
    Mixed(before, middle, output[..], o, p, v);
    CopyBlock(ivec, tmp, 0);
    assert tmp[0..0 + BLOCK_SIZE] == tmp[..];
  }

  lemma Mixed(before: seq<bv8>, middle: seq<bv8>, after: seq<bv8>, o: nat, p: Block, v: Block)
    requires o + BLOCK_SIZE <= |before| && middle == Replaced(before, o, p) && |after| == |middle|
    requires forall k :: 0 <= k < |after| ==>
      after[k] == if o <= k < o + BLOCK_SIZE then Aes.Xor(middle[k], v[k - o]) else middle[k]
    ensures after == Replaced(before, o, XorBytes(p, v))
  {
    hide Aes.Xor;
  }

  method DecryptTail(tmp: array<bv8>, input: array<bv8>, i: nat, output: array<bv8>, o: nat, len: nat, key: Key, ivec: array<bv8>)
    requires Usable(input, i, output, o, key, ivec) && key.Apart(tmp)
    requires tmp.Length == BLOCK_SIZE && tmp != input && tmp != output && tmp != ivec
    requires len < BLOCK_SIZE && i + BLOCK_SIZE <= input.Length && o + len <= output.Length
    modifies tmp, output, ivec
    ensures ivec[..] == InverseOf(key)(old(input[i..i + BLOCK_SIZE]))
    ensures output[..] == Replaced(old(output[..]), o,
                                   XorBytes(InverseOf(key)(old(input[i..i + BLOCK_SIZE])), old(ivec[..]))[..len])
  {
    hide Replaced, Aes.Xor, Inverse;
    ghost var before, c, v := output[..], input[i..i + BLOCK_SIZE], ivec[..];
    CopyBlock(tmp, input, i);
    assert tmp[0..0 + BLOCK_SIZE] == tmp[..];
    DecryptTo(tmp, 0, tmp, 0, key);
    ghost var p := InverseOf(key)(c);
    assert tmp[..] == tmp[0..0 + BLOCK_SIZE] == p;
    forall n | 0 <= n < len { output[o + n] := Aes.Xor(tmp[n], ivec[n]); }
    Cut(before, output[..], o, len, p, v);
    CopyBlock(ivec, tmp, 0);
    assert tmp[0..0 + BLOCK_SIZE] == tmp[..];
  }

  lemma Cut(before: seq<bv8>, after: seq<bv8>, o: nat, len: nat, p: Block, v: Block)
    requires len < BLOCK_SIZE && o + len <= |before| == |after|
    requires forall k :: 0 <= k < |after| ==> after[k] == if o <= k < o + len then Aes.Xor(p[k - o], v[k - o]) else before[k]
    ensures after == Replaced(before, o, XorBytes(p, v)[..len])
  {
    hide Aes.Xor;
  }

  /** Writing after what is written: the text grows. */
  lemma Grows(before: seq<bv8>, o: nat, done: seq<bv8>, b: seq<bv8>)
    requires o + |done| + |b| <= |before|
    ensures Replaced(Replaced(before, o, done), o + |done|, b) == Replaced(before, o, done + b)
  {
  }

  /** So far done has come out, v is the vector and rest is still to be encrypted. */
  ghost predicate Encrypting(cipher: Block -> Block, iv: Block, p: seq<bv8>, done: seq<bv8>, v: Block, rest: seq<bv8>) {
    && Encrypted(cipher, iv, p) == done + Encrypted(cipher, v, rest)
    && v == Last(iv, done) && |done| + Rounded(|rest|) == Rounded(|p|)
  }

  lemma EncryptingStart(cipher: Block -> Block, iv: Block, p: seq<bv8>)
    ensures Encrypting(cipher, iv, p, [], iv, p)
  {
    hide Encrypted, Rounded;
    assert [] + Encrypted(cipher, iv, p) == Encrypted(cipher, iv, p);
  }

  lemma EncryptingStep(cipher: Block -> Block, iv: Block, p: seq<bv8>, done: seq<bv8>, v: Block, rest: seq<bv8>, b: Block)
    requires Encrypting(cipher, iv, p, done, v, rest) && rest != []
    requires b == cipher(XorBytes(Pad(rest[..First(|rest|)]), v))
    ensures Encrypting(cipher, iv, p, done + b, b, rest[First(|rest|)..])
  {
    hide XorBytes, Pad;
    var more := Encrypted(cipher, b, rest[First(|rest|)..]);
    assert done + (b + more) == done + b + more;
  }

  lemma EncryptingRoom(cipher: Block -> Block, iv: Block, p: seq<bv8>, done: seq<bv8>, v: Block, rest: seq<bv8>)
    requires Encrypting(cipher, iv, p, done, v, rest) && rest != []
    ensures |done| + BLOCK_SIZE <= Rounded(|p|)
  {
    hide Encrypted, Last;
  }

  lemma EncryptingEnd(cipher: Block -> Block, iv: Block, p: seq<bv8>, done: seq<bv8>, v: Block)
    requires Encrypting(cipher, iv, p, done, v, [])
    ensures done == Encrypted(cipher, iv, p) && v == Last(iv, done)
  {
    assert Encrypted(cipher, v, []) == [] && done + [] == done;
  }

  /** The same for decryption, with len bytes to come from the rest of c. */
  ghost predicate Decrypting(inverse: Block -> Block, iv: Block, c: seq<bv8>, length: nat, done: seq<bv8>, v: Block, len: nat) {
    && |c| == Rounded(length) == |done| + Rounded(len) && |done| + len == length && Whole(|done|)
    && Decrypted(inverse, iv, c, length) == done + Decrypted(inverse, v, c[|done|..], len)
    && v == Last(iv, c[..|done|])
  }

  lemma DecryptingStart(inverse: Block -> Block, iv: Block, c: seq<bv8>, length: nat)
    requires |c| == Rounded(length)
    ensures Decrypting(inverse, iv, c, length, [], iv, length)
  {
    hide Decrypted;
    assert c[0..] == c && [] + Decrypted(inverse, iv, c, length) == Decrypted(inverse, iv, c, length);
  }

  function BlockAt(c: seq<bv8>, at: nat): Block
    requires at + BLOCK_SIZE <= |c|
  {
    c[at..at + BLOCK_SIZE]
  }

  lemma DecryptingRoom(inverse: Block -> Block, iv: Block, c: seq<bv8>, length: nat, done: seq<bv8>, v: Block, len: nat)
    requires Decrypting(inverse, iv, c, length, done, v, len) && len > 0
    ensures |done| + BLOCK_SIZE <= |c|
  {
    hide Decrypted;
  }

  lemma DecryptingStep(inverse: Block -> Block, iv: Block, c: seq<bv8>, length: nat, done: seq<bv8>, v: Block, len: nat, b: Block)
    requires Decrypting(inverse, iv, c, length, done, v, len) && len >= BLOCK_SIZE && |done| + BLOCK_SIZE <= |c|
    requires b == BlockAt(c, |done|)
    ensures Decrypting(inverse, iv, c, length, done + XorBytes(inverse(b), v), b, len - BLOCK_SIZE)
  {
    hide XorBytes, Decrypted, Rounded, Whole, Last;
    var rest := c[|done| + BLOCK_SIZE..];
    assert c[|done|..] == b + rest;
    RoundedNext(len);
    DecryptFirst(inverse, v, b, rest, len - BLOCK_SIZE);
    Joins(done, XorBytes(inverse(b), v), Decrypted(inverse, b, rest, len - BLOCK_SIZE));
    WholeNext(|done|);
    LastBlock(iv, c, |done|);
  }

  lemma RoundedNext(len: nat)
    requires len >= BLOCK_SIZE
    ensures Rounded(len) == BLOCK_SIZE + Rounded(len - BLOCK_SIZE)
  {
  }

  lemma WholeNext(n: nat)
    requires Whole(n)
    ensures Whole(n + BLOCK_SIZE)
  {
    WholeSum(n, BLOCK_SIZE);
  }

  lemma LastBlock(iv: Block, c: seq<bv8>, n: nat)
    requires n + BLOCK_SIZE <= |c|
    ensures Last(iv, c[..n + BLOCK_SIZE]) == BlockAt(c, n)
  {
    assert c[..n + BLOCK_SIZE][n..] == c[n..n + BLOCK_SIZE];
  }

  lemma DecryptingTail(inverse: Block -> Block, iv: Block, c: seq<bv8>, length: nat, done: seq<bv8>, v: Block, len: nat, b: Block)
    requires Decrypting(inverse, iv, c, length, done, v, len) && 0 < len < BLOCK_SIZE && |done| + BLOCK_SIZE <= |c|
    requires b == BlockAt(c, |done|)
    ensures done + XorBytes(inverse(b), v)[..len] == Decrypted(inverse, iv, c, length)
    ensures inverse(b) == LastDecrypted(inverse, iv, c, length)
  {
    hide XorBytes;
    var rest := c[|done|..];
    assert Rounded(len) == BLOCK_SIZE + Rounded(len - First(len)) && First(len) == len;
    assert Rounded(0) == 0;
    assert rest[..BLOCK_SIZE] == b && rest == b;
    var x := XorBytes(inverse(b), v)[..len];
    assert Decrypted(inverse, b, rest[BLOCK_SIZE..], 0) == [] && x + [] == x;
  }

  lemma DecryptingEnd(inverse: Block -> Block, iv: Block, c: seq<bv8>, length: nat, done: seq<bv8>, v: Block)
    requires Decrypting(inverse, iv, c, length, done, v, 0)
    ensures done == Decrypted(inverse, iv, c, length) && v == LastDecrypted(inverse, iv, c, length)
  {
    assert Decrypted(inverse, v, c[|done|..], 0) == [] && done + [] == done && c[..|done|] == c;
  }

  /** The buffer with the text at its place. */
  ghost predicate Holds(after: seq<bv8>, before: seq<bv8>, o: nat, text: seq<bv8>) {
    o + |text| <= |before| && after == Replaced(before, o, text)
  }

  /** One block; the text after it is still there. */
  method EncryptNext(tmp: array<bv8>, input: array<bv8>, at: nat, output: array<bv8>, to: nat, key: Key, ivec: array<bv8>, ghost end: nat)
    requires Usable(input, at, output, to, key, ivec) && key.Apart(tmp)
    requires tmp.Length == BLOCK_SIZE && tmp != input && tmp != output && tmp != ivec
    requires at + BLOCK_SIZE <= end <= input.Length && to + BLOCK_SIZE <= output.Length
    modifies tmp, output, ivec
    ensures ivec[..] == CipherOf(key)(XorBytes(Pad(old(input[at..end])[..BLOCK_SIZE]), old(ivec[..])))
    ensures output[..] == Replaced(old(output[..]), to, ivec[..])
    ensures input[at + BLOCK_SIZE..end] == old(input[at..end])[BLOCK_SIZE..]
  {
    hide XorBytes, Pad, EncryptedBlock, Replaced, Cipher;
    ghost var before, rest := output[..], input[at..end];
    assert input[at..at + BLOCK_SIZE] == rest[..BLOCK_SIZE];
    EncryptWhole(tmp, input, at, output, to, key, ivec);
    if input == output {
      Unwritten(before, to, ivec[..], at + BLOCK_SIZE, end);
    }
  }

  /** The buffer, the vector and the text still to come while encryption is on its way. */
  ghost predicate Underway(cipher: Block -> Block, iv: Block, p: seq<bv8>, before: seq<bv8>, o: nat,
                           after: seq<bv8>, v: Block, rest: seq<bv8>, done: seq<bv8>) {
    Holds(after, before, o, done) && Encrypting(cipher, iv, p, done, v, rest)
  }

  lemma UnderwayStart(cipher: Block -> Block, iv: Block, p: seq<bv8>, before: seq<bv8>, o: nat)
    requires o <= |before|
    ensures Underway(cipher, iv, p, before, o, before, iv, p, [])
  {
    hide Holds, Encrypting;
    HoldsNothing(before, o);
    EncryptingStart(cipher, iv, p);
  }

  lemma UnderwayRoom(cipher: Block -> Block, iv: Block, p: seq<bv8>, before: seq<bv8>, o: nat,
                     after: seq<bv8>, v: Block, rest: seq<bv8>, done: seq<bv8>)
    requires Underway(cipher, iv, p, before, o, after, v, rest, done) && rest != []
    ensures |done| + BLOCK_SIZE <= Rounded(|p|)
  {
    hide Holds, Encrypting;
    EncryptingRoom(cipher, iv, p, done, v, rest);
  }

  lemma UnderwayStep(cipher: Block -> Block, iv: Block, p: seq<bv8>, before: seq<bv8>, o: nat,
                     middle: seq<bv8>, v: Block, rest: seq<bv8>, done: seq<bv8>, after: seq<bv8>, b: Block)
    requires Underway(cipher, iv, p, before, o, middle, v, rest, done) && rest != []
    requires b == cipher(XorBytes(Pad(rest[..First(|rest|)]), v))
    requires o + |done| + |b| <= |before| == |middle| && after == Replaced(middle, o + |done|, b)
    ensures Underway(cipher, iv, p, before, o, after, b, rest[First(|rest|)..], done + b)
  {
    hide Holds, Encrypting, XorBytes, Pad, Replaced;
    EncryptingStep(cipher, iv, p, done, v, rest, b);
    HoldsMore(middle, after, before, o, done, b);
  }

  lemma UnderwayEnd(cipher: Block -> Block, iv: Block, p: seq<bv8>, before: seq<bv8>, o: nat,
                    after: seq<bv8>, v: Block, rest: seq<bv8>, done: seq<bv8>)
    requires Underway(cipher, iv, p, before, o, after, v, rest, done) && rest == []
    ensures Holds(after, before, o, Encrypted(cipher, iv, p)) && v == Last(iv, Encrypted(cipher, iv, p))
  {
    hide Holds, Encrypting;
    EncryptingEnd(cipher, iv, p, done, v);
  }

  method EncryptBlocks(input: array<bv8>, i: nat, output: array<bv8>, o: nat, length: nat, key: Key, ivec: array<bv8>, tmp: array<bv8>)
    returns (len: nat, at: nat, to: nat, ghost done: seq<bv8>)
    requires Usable(input, i, output, o, key, ivec) && key.Apart(tmp)
    requires tmp.Length == BLOCK_SIZE && tmp != input && tmp != output && tmp != ivec
    requires i + length <= input.Length && o + Rounded(length) <= output.Length
    modifies tmp, output, ivec
    ensures len < BLOCK_SIZE && len <= length && at == i + (length - len) && to == o + (length - len) && |done| == length - len
    ensures Underway(CipherOf(key), old(ivec[..]), old(input[i..i + length]), old(output[..]), o,
                     output[..], ivec[..], input[at..i + length], done)
  {
    hide XorBytes, Pad, EncryptedBlock, Replaced, Rounded, Cipher, Underway;
    ghost var cipher, before, iv, p, end := CipherOf(key), output[..], ivec[..], input[i..i + length], i + length;
    done := [];
    len, at, to := length, i, o;
    UnderwayStart(cipher, iv, p, before, o);
    while len >= BLOCK_SIZE
      invariant len <= length && at == i + (length - len) && to == o + (length - len) && |done| == length - len
      invariant Underway(cipher, iv, p, before, o, output[..], ivec[..], input[at..end], done)
    {
      ghost var v, rest, middle := ivec[..], input[at..end], output[..];
      UnderwayRoom(cipher, iv, p, before, o, middle, v, rest, done);
      EncryptNext(tmp, input, at, output, to, key, ivec, end);
      UnderwayStep(cipher, iv, p, before, o, middle, v, rest, done, output[..], ivec[..]);
      done := done + ivec[..];
      len, at, to := len - BLOCK_SIZE, at + BLOCK_SIZE, to + BLOCK_SIZE;
    }
  }

  lemma HoldsNothing(before: seq<bv8>, o: nat)
    requires o <= |before|
    ensures Holds(before, before, o, [])
  {
    ReplacedNothing(before, o, []);
  }

  lemma HoldsMore(middle: seq<bv8>, after: seq<bv8>, before: seq<bv8>, o: nat, done: seq<bv8>, b: seq<bv8>)
    requires Holds(middle, before, o, done) && o + |done| + |b| <= |before| && after == Replaced(middle, o + |done|, b)
    ensures Holds(after, before, o, done + b)
  {
    Grows(before, o, done, b);
  }

  lemma Unwritten(s: seq<bv8>, at: nat, b: seq<bv8>, from: nat, to: nat)
    requires at + |b| <= from <= to <= |s|
    ensures Replaced(s, at, b)[from..to] == s[from..to]
  {
  }

  method EncryptText(input: array<bv8>, i: nat, output: array<bv8>, o: nat, length: nat, key: Key, ivec: array<bv8>)
    requires Usable(input, i, output, o, key, ivec)
    requires i + length <= input.Length && o + Rounded(length) <= output.Length
    modifies output, ivec
    ensures Holds(output[..], old(output[..]), o, Encrypted(CipherOf(key), old(ivec[..]), old(input[i..i + length])))
    ensures ivec[..] == Last(old(ivec[..]), Encrypted(CipherOf(key), old(ivec[..]), old(input[i..i + length])))
  {
    hide XorBytes, Pad, EncryptedBlock, Replaced, Encrypted, Last, Rounded, Cipher, Underway, Holds;
    ghost var cipher, before, iv, p, end := CipherOf(key), output[..], ivec[..], input[i..i + length], i + length;
    var tmp := new bv8[BLOCK_SIZE];
    var len, at, to, done := EncryptBlocks(input, i, output, o, length, key, ivec, tmp);
    ghost var v, rest, middle := ivec[..], input[at..end], output[..];
    if len > 0 {
      assert rest[..len] == rest && rest[len..] == [];
      UnderwayRoom(cipher, iv, p, before, o, middle, v, rest, done);
      EncryptTail(tmp, input, at, output, to, len, key, ivec);
      UnderwayStep(cipher, iv, p, before, o, middle, v, rest, done, output[..], ivec[..]);
      done, rest := done + ivec[..], [];
    }
    UnderwayEnd(cipher, iv, p, before, o, output[..], ivec[..], rest, done);
  }

  /** One block; the text after it is still there. */
  method DecryptNext(tmp: array<bv8>, input: array<bv8>, at: nat, output: array<bv8>, to: nat, key: Key, ivec: array<bv8>, ghost end: nat)
    requires Usable(input, at, output, to, key, ivec) && key.Apart(tmp)
    requires tmp.Length == BLOCK_SIZE && tmp != input && tmp != output && tmp != ivec
    requires at + BLOCK_SIZE <= end <= input.Length && to + BLOCK_SIZE <= output.Length
    modifies tmp, output, ivec
    ensures ivec[..] == BlockAt(old(input[..]), at)
    ensures output[..] == Replaced(old(output[..]), to, XorBytes(InverseOf(key)(BlockAt(old(input[..]), at)), old(ivec[..])))
    ensures input[at + BLOCK_SIZE..end] == old(input[at..end])[BLOCK_SIZE..]
  {
    hide XorBytes, DecryptedBlock, Replaced, Inverse;
    ghost var before, x: Block := output[..], XorBytes(InverseOf(key)(BlockAt(input[..], at)), ivec[..]);
    assert input[at..at + BLOCK_SIZE] == BlockAt(input[..], at);
    DecryptWhole(tmp, input, at, output, to, key, ivec);
    if input == output {
      Unwritten(before, to, x, at + BLOCK_SIZE, end);
    }
  }

  /** The same while decryption is on its way. */
  ghost predicate Returning(inverse: Block -> Block, iv: Block, c: seq<bv8>, length: nat, before: seq<bv8>, o: nat,
                            after: seq<bv8>, v: Block, rest: seq<bv8>, len: nat, done: seq<bv8>) {
    Holds(after, before, o, done) && Decrypting(inverse, iv, c, length, done, v, len) && rest == c[|done|..]
  }

  lemma ReturningStart(inverse: Block -> Block, iv: Block, c: seq<bv8>, length: nat, before: seq<bv8>, o: nat)
    requires |c| == Rounded(length) && o <= |before|
    ensures Returning(inverse, iv, c, length, before, o, before, iv, c, length, [])
  {
    hide Holds, Decrypting;
    HoldsNothing(before, o);
    DecryptingStart(inverse, iv, c, length);
    assert c[0..] == c;
  }

  lemma ReturningRoom(inverse: Block -> Block, iv: Block, c: seq<bv8>, length: nat, before: seq<bv8>, o: nat,
                      after: seq<bv8>, v: Block, rest: seq<bv8>, len: nat, done: seq<bv8>)
    requires Returning(inverse, iv, c, length, before, o, after, v, rest, len, done) && len > 0
    ensures |rest| >= BLOCK_SIZE
  {
    hide Holds, Decrypting;
    DecryptingRoom(inverse, iv, c, length, done, v, len);
  }

  lemma ReturningStep(inverse: Block -> Block, iv: Block, c: seq<bv8>, length: nat, before: seq<bv8>, o: nat,
                      middle: seq<bv8>, v: Block, rest: seq<bv8>, len: nat, done: seq<bv8>, after: seq<bv8>, b: Block)
    requires Returning(inverse, iv, c, length, before, o, middle, v, rest, len, done) && len >= BLOCK_SIZE
    requires |rest| >= BLOCK_SIZE && b == rest[..BLOCK_SIZE]
    requires o + |done| + BLOCK_SIZE <= |before| == |middle| && after == Replaced(middle, o + |done|, XorBytes(inverse(b), v))
    ensures Returning(inverse, iv, c, length, before, o, after, b, rest[BLOCK_SIZE..], len - BLOCK_SIZE, done + XorBytes(inverse(b), v))
  {
    hide Holds, Decrypting, XorBytes, Replaced;
    DecryptingRoom(inverse, iv, c, length, done, v, len);
    assert b == BlockAt(c, |done|);
    DecryptingStep(inverse, iv, c, length, done, v, len, b);
    HoldsMore(middle, after, before, o, done, XorBytes(inverse(b), v));
    Dropped(c, |done|, BLOCK_SIZE);
  }

  lemma ReturningTail(inverse: Block -> Block, iv: Block, c: seq<bv8>, length: nat, before: seq<bv8>, o: nat,
                      middle: seq<bv8>, v: Block, rest: seq<bv8>, len: nat, done: seq<bv8>, after: seq<bv8>, b: Block)
    requires Returning(inverse, iv, c, length, before, o, middle, v, rest, len, done) && 0 < len < BLOCK_SIZE
    requires |rest| >= BLOCK_SIZE && b == rest[..BLOCK_SIZE]
    requires o + |done| + len <= |before| == |middle| && after == Replaced(middle, o + |done|, XorBytes(inverse(b), v)[..len])
    ensures |c| >= Rounded(length) && Holds(after, before, o, Decrypted(inverse, iv, c, length))
    ensures inverse(b) == LastDecrypted(inverse, iv, c, length)
  {
    hide Holds, XorBytes, Replaced, LastDecrypted;
    DecryptingRoom(inverse, iv, c, length, done, v, len);
    assert b == BlockAt(c, |done|);
    DecryptingTail(inverse, iv, c, length, done, v, len, b);
    HoldsMore(middle, after, before, o, done, XorBytes(inverse(b), v)[..len]);
  }

  lemma ReturningEnd(inverse: Block -> Block, iv: Block, c: seq<bv8>, length: nat, before: seq<bv8>, o: nat,
                     after: seq<bv8>, v: Block, rest: seq<bv8>, done: seq<bv8>)
    requires Returning(inverse, iv, c, length, before, o, after, v, rest, 0, done)
    ensures |c| >= Rounded(length) && Holds(after, before, o, Decrypted(inverse, iv, c, length))
    ensures v == LastDecrypted(inverse, iv, c, length)
  {
    hide Holds, LastDecrypted;
    DecryptingEnd(inverse, iv, c, length, done, v);
  }

  method DecryptBlocks(input: array<bv8>, i: nat, output: array<bv8>, o: nat, length: nat, key: Key, ivec: array<bv8>, tmp: array<bv8>)
    returns (len: nat, at: nat, to: nat, ghost done: seq<bv8>)
    requires Usable(input, i, output, o, key, ivec) && key.Apart(tmp)
    requires tmp.Length == BLOCK_SIZE && tmp != input && tmp != output && tmp != ivec
    requires i + Rounded(length) <= input.Length && o + length <= output.Length
    modifies tmp, output, ivec
    ensures len < BLOCK_SIZE && len <= length && at == i + (length - len) && to == o + (length - len) && |done| == length - len
    ensures at <= i + Rounded(length)
    ensures Returning(InverseOf(key), old(ivec[..]), old(input[i..i + Rounded(length)]), length, old(output[..]), o,
                      output[..], ivec[..], input[at..i + Rounded(length)], len, done)
  {
    hide XorBytes, DecryptedBlock, Replaced, Rounded, Inverse, Returning;
    ghost var end := i + Rounded(length);
    ghost var inverse, before, iv, c := InverseOf(key), output[..], ivec[..], input[i..end];
    done := [];
    len, at, to := length, i, o;
    ReturningStart(inverse, iv, c, length, before, o);
    while len >= BLOCK_SIZE
      invariant len <= length && at == i + (length - len) <= end && to == o + (length - len) && |done| == length - len
      invariant Returning(inverse, iv, c, length, before, o, output[..], ivec[..], input[at..end], len, done)
    {
      ghost var v: Block, rest, middle := ivec[..], input[at..end], output[..];
      ReturningRoom(inverse, iv, c, length, before, o, middle, v, rest, len, done);
      ghost var b: Block := BlockAt(input[..], at);
      DecryptNext(tmp, input, at, output, to, key, ivec, end);
      ReturningStep(inverse, iv, c, length, before, o, middle, v, rest, len, done, output[..], b);
      done := done + XorBytes(inverse(b), v);
      len, at, to := len - BLOCK_SIZE, at + BLOCK_SIZE, to + BLOCK_SIZE;
    }
  }

  lemma Dropped(c: seq<bv8>, n: nat, m: nat)
    requires n + m <= |c|
    ensures c[n..][m..] == c[n + m..]
  {
  }

  method DecryptText(input: array<bv8>, i: nat, output: array<bv8>, o: nat, length: nat, key: Key, ivec: array<bv8>)
    requires Usable(input, i, output, o, key, ivec)
    requires i + Rounded(length) <= input.Length && o + length <= output.Length
    modifies output, ivec
    ensures Holds(output[..], old(output[..]), o,
                  Decrypted(InverseOf(key), old(ivec[..]), old(input[i..i + Rounded(length)]), length))
    ensures ivec[..] == LastDecrypted(InverseOf(key), old(ivec[..]), old(input[i..i + Rounded(length)]), length)
  {
    hide XorBytes, DecryptedBlock, Replaced, Decrypted, Last, Rounded, Inverse, Returning, Holds, LastDecrypted;
    ghost var end := i + Rounded(length);
    ghost var inverse, before, iv, c := InverseOf(key), output[..], ivec[..], input[i..end];
    var tmp := new bv8[BLOCK_SIZE];
    var len, at, to, done := DecryptBlocks(input, i, output, o, length, key, ivec, tmp);
    ghost var v: Block, rest, middle := ivec[..], input[at..end], output[..];
    if len > 0 {
      ReturningRoom(inverse, iv, c, length, before, o, middle, v, rest, len, done);
      ghost var b: Block := BlockAt(rest, 0);
      assert b == rest[..BLOCK_SIZE] == input[at..at + BLOCK_SIZE];
      DecryptTail(tmp, input, at, output, to, len, key, ivec);
      ReturningTail(inverse, iv, c, length, before, o, middle, v, rest, len, done, output[..], b);
    } else {
      ReturningEnd(inverse, iv, c, length, before, o, middle, v, rest, done);
    }
  }

  /** Chaining over a buffer, in place or not, of any length; encryption fills up the last block. */
  method CbcEncrypt(input: array<bv8>, i: nat, output: array<bv8>, o: nat, length: nat, key: Key, ivec: array<bv8>, enc: bool)
    requires Usable(input, i, output, o, key, ivec)
    requires i + (if enc then length else Rounded(length)) <= input.Length
    requires o + (if enc then Rounded(length) else length) <= output.Length
    modifies output, ivec
    ensures enc ==> Holds(output[..], old(output[..]), o, Encrypted(CipherOf(key), old(ivec[..]), old(input[i..i + length])))
    ensures enc ==> ivec[..] == Last(old(ivec[..]), Encrypted(CipherOf(key), old(ivec[..]), old(input[i..i + length])))
    ensures !enc ==> Holds(output[..], old(output[..]), o,
                           Decrypted(InverseOf(key), old(ivec[..]), old(input[i..i + Rounded(length)]), length))
    ensures !enc ==> ivec[..] == LastDecrypted(InverseOf(key), old(ivec[..]), old(input[i..i + Rounded(length)]), length)
  {
    hide EncryptedBlock, DecryptedBlock, Replaced, Encrypted, Decrypted, Last, Rounded, Cipher, Inverse, Holds, LastDecrypted;
    if enc {
      EncryptText(input, i, output, o, length, key, ivec);
    } else {
      DecryptText(input, i, output, o, length, key, ivec);
    }
  }

  // ---------------------------------------------------------------------------------------
  // Sectors

  function ByteOf(s: nat): bv8 { (s % 256) as bv8 }

  function Digit(c: bv8): nat { c as nat }

  function Limit(n: nat): (p: nat)
    ensures p > 0
  {
    if n == 0 then 1 else 256 * Limit(n - 1)
  }

  lemma SmallDigit(y: nat)
    requires y < 256
    ensures Digit(y as bv8) == y
  {
  }

  lemma ByteDigit(x: nat)
    ensures Digit(ByteOf(x)) == x % 256
  {
    hide Digit;
    SmallDigit(x % 256);
  }

  lemma DigitByte(x: nat, c: bv8)
    ensures Digit(c) < 256 && ByteOf(x * 256 + Digit(c)) == c
  {
    assert (x * 256 + Digit(c)) % 256 == Digit(c);
  }

  /** The n low bytes of a number, lowest first. */
  function LittleEndian(s: nat, n: nat): (b: seq<bv8>)
    ensures |b| == n
  {
    if n == 0 then [] else [ByteOf(s)] + LittleEndian(s / 256, n - 1)
  }

  /** The initial vector of a sector is its number in 64 bits. */
  function Vector(s: nat): Block { LittleEndian(s, 8) + LittleEndian(0, 8) }

  /** Eight bytes, the lowest first, are the number modulo 2^64; eight zeros follow. */
  ghost predicate NumberAndZeros(v: Block, s: nat) {
    && (v[0] as int) + 0x100 * (v[1] as int) + 0x1_0000 * (v[2] as int) + 0x100_0000 * (v[3] as int)
       + 0x1_0000_0000 * (v[4] as int) + 0x100_0000_0000 * (v[5] as int)
       + 0x1_0000_0000_0000 * (v[6] as int) + 0x100_0000_0000_0000 * (v[7] as int) == s % 0x1_0000_0000_0000_0000
    && forall k :: 8 <= k < 16 ==> v[k] == 0
  }

  /** The value of little-endian bytes. */
  function Value(b: seq<bv8>): (v: nat) {
    if b == [] then 0 else Digit(b[0]) + 256 * Value(b[1..])
  }

  lemma {:induction false} LittleEndianValue(s: nat, n: nat)
    ensures Value(LittleEndian(s, n)) == s % Limit(n)
  {
    hide ByteOf, Digit;
    if n > 0 {
      LittleEndianValue(s / 256, n - 1);
      var b := LittleEndian(s, n);
      assert b[0] == ByteOf(s) && b[1..] == LittleEndian(s / 256, n - 1);
      ByteDigit(s);
      LowDigit(s, Limit(n - 1));
    }
  }

  lemma LowDigit(s: nat, p: nat)
    requires p > 0
    ensures s % 256 + 256 * (s / 256 % p) == s % (256 * p)
  {
    var q, r := s / 256 / p, s / 256 % p;
    assert s == 256 * (q * p + r) + s % 256 == q * (256 * p) + (256 * r + s % 256);
    Remainder(s, 256 * p, q, 256 * r + s % 256);
  }

  lemma Remainder(s: nat, m: nat, q: nat, r: nat)
    requires m > 0 && s == q * m + r && r < m
    ensures s % m == r
  {
    var t := s / m;
    assert s == t * m + s % m;
    if t > q {
      Further(q, t, m);
    } else if t < q {
      Further(t, q, m);
    }
  }

  lemma Further(a: nat, b: nat, m: nat)
    requires a < b
    ensures a * m + m <= b * m
  {
    var k := b - a - 1;
    assert b * m == (a + 1 + k) * m == a * m + m + k * m;
  }

  lemma ValueOfEight(b: seq<bv8>)
    requires |b| == 8
    ensures Value(b) == (b[0] as int) + 0x100 * (b[1] as int) + 0x1_0000 * (b[2] as int) + 0x100_0000 * (b[3] as int)
       + 0x1_0000_0000 * (b[4] as int) + 0x100_0000_0000 * (b[5] as int)
       + 0x1_0000_0000_0000 * (b[6] as int) + 0x100_0000_0000_0000 * (b[7] as int)
  {
    ValueOfFour(b);
    ValueOfFour(b[4..]);
    assert Value(b[8..]) == 0 && b[4..][4..] == b[8..];
  }

  lemma ValueOfFour(b: seq<bv8>)
    requires |b| >= 4
    ensures Value(b) == (b[0] as int) + 0x100 * (b[1] as int) + 0x1_0000 * (b[2] as int) + 0x100_0000 * (b[3] as int)
       + 0x1_0000_0000 * Value(b[4..])
  {
    assert b[1..][1..] == b[2..] && b[2..][1..] == b[3..] && b[3..][1..] == b[4..];
  }

  lemma VectorMeans(s: nat)
    ensures NumberAndZeros(Vector(s), s)
  {
    hide LittleEndian;
    var low, v := LittleEndian(s, 8), Vector(s);
    LittleEndianValue(s, 8);
    ValueOfEight(low);
    assert Limit(8) == 0x1_0000_0000_0000_0000;
    Zeros(8);
    assert forall k :: 0 <= k < 8 ==> v[k] == low[k] && v[8 + k] == LittleEndian(0, 8)[k];
    forall k | 8 <= k < 16 ensures v[k] == 0 { assert v[8 + (k - 8)] == 0; }
  }

  /** Sectors share a vector only if their numbers are equal modulo 2^64. */
  lemma VectorsDiffer(s: nat, t: nat)
    ensures Vector(s) == Vector(t) ==> s % 0x1_0000_0000_0000_0000 == t % 0x1_0000_0000_0000_0000
  {
    hide Vector;
    VectorMeans(s);
    VectorMeans(t);
  }

  lemma SectorWhole()
    ensures Whole(SECTOR_SIZE)
  {
    WholeBlocks(SECTOR_SIZE);
  }

  function SectorsEncrypted(cipher: Block -> Block, start: nat, n: nat, data: seq<bv8>): (c: seq<bv8>)
    requires |data| == SECTOR_SIZE * n
    ensures |c| == |data|
    decreases n
  {
    hide Encrypted, Vector, Rounded;
    SectorWhole();
    if n == 0 then []
    else Encrypted(cipher, Vector(start), data[..SECTOR_SIZE]) + SectorsEncrypted(cipher, start + 1, n - 1, data[SECTOR_SIZE..])
  }

  function SectorsDecrypted(inverse: Block -> Block, start: nat, n: nat, data: seq<bv8>): (p: seq<bv8>)
    requires |data| == SECTOR_SIZE * n
    ensures |p| == |data|
    decreases n
  {
    hide Decrypted, Vector, Rounded;
    SectorWhole();
    if n == 0 then []
    else Decrypted(inverse, Vector(start), data[..SECTOR_SIZE], SECTOR_SIZE) + SectorsDecrypted(inverse, start + 1, n - 1, data[SECTOR_SIZE..])
  }

  lemma {:induction false} SectorsRoundTrip(cipher: Block -> Block, inverse: Block -> Block, start: nat, n: nat, data: seq<bv8>)
    requires Undoes(inverse, cipher) && |data| == SECTOR_SIZE * n
    ensures SectorsDecrypted(inverse, start, n, SectorsEncrypted(cipher, start, n, data)) == data
    decreases n
  {
    hide Encrypted, Decrypted, Vector, Rounded, Undoes;
    if n > 0 {
      SectorWhole();
      var first, rest := data[..SECTOR_SIZE], data[SECTOR_SIZE..];
      assert first + rest == data;
      RoundTrip(cipher, inverse, Vector(start), first);
      SectorsRoundTrip(cipher, inverse, start + 1, n - 1, rest);
      var c, d := Encrypted(cipher, Vector(start), first), SectorsEncrypted(cipher, start + 1, n - 1, rest);
      assert (c + d)[..SECTOR_SIZE] == c && (c + d)[SECTOR_SIZE..] == d;
    }
  }

  lemma {:induction false} SectorsSplit(cipher: Block -> Block, start: nat, m: nat, d: seq<bv8>, n: nat, e: seq<bv8>)
    requires |d| == SECTOR_SIZE * m && |e| == SECTOR_SIZE * n
    ensures |d + e| == SECTOR_SIZE * (m + n)
    ensures SectorsEncrypted(cipher, start, m + n, d + e) == SectorsEncrypted(cipher, start, m, d) + SectorsEncrypted(cipher, start + m, n, e)
    decreases m
  {
    hide Encrypted, Vector, Rounded;
    if m == 0 {
      assert d + e == e;
    } else {
      SectorWhole();
      assert (d + e)[..SECTOR_SIZE] == d[..SECTOR_SIZE] && (d + e)[SECTOR_SIZE..] == d[SECTOR_SIZE..] + e;
      SectorsSplit(cipher, start + 1, m - 1, d[SECTOR_SIZE..], n, e);
    }
  }

  /** Sector k of an encrypted run is chained on its own, from the number of the sector. */
  lemma SectorOfRun(cipher: Block -> Block, start: nat, n: nat, data: seq<bv8>, k: nat, v: Block)
    requires |data| == SECTOR_SIZE * n && k < n && NumberAndZeros(v, start + k)
    ensures SectorsEncrypted(cipher, start, n, data)[SECTOR_SIZE * k..SECTOR_SIZE * (k + 1)]
         == Encrypted(cipher, v, data[SECTOR_SIZE * k..SECTOR_SIZE * (k + 1)])
  {
    hide SectorsEncrypted, Encrypted, Vector, Rounded;
    var x, y, z := data[..SECTOR_SIZE * k], data[SECTOR_SIZE * k..SECTOR_SIZE * (k + 1)], data[SECTOR_SIZE * (k + 1)..];
    assert data == x + (y + z);
    SectorsSplit(cipher, start, k, x, n - k, y + z);
    SectorsSplit(cipher, start + k, 1, y, n - k - 1, z);
    SectorWhole();
    OneSector(cipher, start + k, y);
    SameVector(v, start + k);
    var c := Encrypted(cipher, v, y);
    assert SectorsEncrypted(cipher, start, n, data)[SECTOR_SIZE * k..SECTOR_SIZE * (k + 1)] == c;
  }

  lemma OneSector(cipher: Block -> Block, s: nat, y: seq<bv8>)
    requires |y| == SECTOR_SIZE
    ensures SectorsEncrypted(cipher, s, 1, y) == Encrypted(cipher, Vector(s), y)
  {
    hide Encrypted, Vector, Rounded;
    SectorWhole();
    assert y[..SECTOR_SIZE] == y;
    assert SectorsEncrypted(cipher, s + 1, 0, y[SECTOR_SIZE..]) == [];
  }

  /** The condition leaves no choice. */
  lemma SameVector(v: Block, s: nat)
    requires NumberAndZeros(v, s)
    ensures v == Vector(s)
  {
    VectorMeans(s);
    SameNumber(v, Vector(s), s);
  }

  lemma SameNumber(v: Block, w: Block, s: nat)
    requires NumberAndZeros(v, s) && NumberAndZeros(w, s)
    ensures v == w
  {
    ValueOfEight(v[..8]);
    ValueOfEight(w[..8]);
    assert forall k :: 0 <= k < 8 ==> v[..8][k] == v[k] && w[..8][k] == w[k];
    assert 0 <= Value(v[..8]) == Value(w[..8]);
    ValueSame(v[..8], w[..8]);
  }

  lemma {:induction false} ValueSame(a: seq<bv8>, b: seq<bv8>)
    requires |a| == |b| && Value(a) == Value(b)
    ensures a == b
  {
    hide Digit, ByteOf;
    if a != [] {
      FirstSame(a[0], b[0], Value(a[1..]), Value(b[1..]));
      ValueSame(a[1..], b[1..]);
      assert a == [a[0]] + a[1..] && b == [b[0]] + b[1..];
    }
  }

  lemma FirstSame(a: bv8, b: bv8, x: nat, y: nat)
    requires Digit(a) + 256 * x == Digit(b) + 256 * y
    ensures a == b && x == y
  {
    hide Digit, ByteOf;
    DigitByte(x, a);
    DigitByte(y, b);
    assert x * 256 + Digit(a) == y * 256 + Digit(b);
  }

  /** Any run of sectors out of encrypted ones decrypts on its own. */
  lemma SubRun(cipher: Block -> Block, inverse: Block -> Block, start: nat, n: nat, data: seq<bv8>, a: nat, b: nat)
    requires Undoes(inverse, cipher) && |data| == SECTOR_SIZE * n && a <= b <= n
    ensures SectorsDecrypted(inverse, start + a, b - a, SectorsEncrypted(cipher, start, n, data)[SECTOR_SIZE * a..SECTOR_SIZE * b])
         == data[SECTOR_SIZE * a..SECTOR_SIZE * b]
  {
    hide SectorsEncrypted, SectorsDecrypted, Undoes;
    var x, y, z := data[..SECTOR_SIZE * a], data[SECTOR_SIZE * a..SECTOR_SIZE * b], data[SECTOR_SIZE * b..];
    assert data == x + (y + z);
    SectorsSplit(cipher, start, a, x, n - a, y + z);
    SectorsSplit(cipher, start + a, b - a, y, n - b, z);
    var c := SectorsEncrypted(cipher, start + a, b - a, y);
    assert SectorsEncrypted(cipher, start, n, data)[SECTOR_SIZE * a..SECTOR_SIZE * b] == c;
    SectorsRoundTrip(cipher, inverse, start + a, b - a, y);
  }

  method SetVector(ivec: array<bv8>, sectorNum: nat)
    requires ivec.Length == BLOCK_SIZE
    modifies ivec
    ensures ivec[..] == Vector(sectorNum) && NumberAndZeros(ivec[..], sectorNum)
  {
    hide LittleEndian, NumberAndZeros;
    SetNumber(ivec, sectorNum);
    ghost var low := ivec[..8];
    var n := 8;
    while n < BLOCK_SIZE
      invariant 8 <= n <= BLOCK_SIZE && ivec[..8] == low && forall k :: 8 <= k < n ==> ivec[k] == 0
    {
      ivec[n] := 0;
      n := n + 1;
    }
    Zeros(8);
    assert ivec[..] == low + LittleEndian(0, 8);
    VectorMeans(sectorNum);
  }

  method SetNumber(ivec: array<bv8>, sectorNum: nat)
    requires ivec.Length == BLOCK_SIZE
    modifies ivec
    ensures ivec[..8] == LittleEndian(sectorNum, 8)
  {
    hide LittleEndian, ByteOf;
    var n, rest := 0, sectorNum;
    while n < 8
      invariant n <= 8 && ivec[..n] + LittleEndian(rest, 8 - n) == LittleEndian(sectorNum, 8)
    {
      ghost var before := ivec[..n];
      NextByte(before, rest, 8 - n);
      ivec[n] := ByteOf(rest);
      assert ivec[..n + 1] == before + [ByteOf(rest)];
      rest := rest / 256;
      n := n + 1;
    }
    NextByte(ivec[..8], rest, 0);
  }

  lemma NextByte(before: seq<bv8>, rest: nat, n: nat)
    ensures n > 0 ==> before + LittleEndian(rest, n) == before + [ByteOf(rest)] + LittleEndian(rest / 256, n - 1)
    ensures n == 0 ==> before + LittleEndian(rest, n) == before
  {
    hide ByteOf;
  }

  lemma {:induction false} Zeros(n: nat)
    ensures forall k :: 0 <= k < n ==> LittleEndian(0, n)[k] == 0
  {
    if n > 0 {
      Zeros(n - 1);
    }
  }

  /** One sector, in either direction. */
  function SectorCrypted(enc: bool, f: Block -> Block, sector: nat, data: seq<bv8>): (r: seq<bv8>)
    requires |data| == SECTOR_SIZE
    ensures |r| == SECTOR_SIZE
  {
    hide Encrypted, Decrypted, Vector;
    SectorWhole();
    if enc then Encrypted(f, Vector(sector), data) else Decrypted(f, Vector(sector), data, SECTOR_SIZE)
  }

  function SectorsCrypted(enc: bool, f: Block -> Block, start: nat, n: nat, data: seq<bv8>): (r: seq<bv8>)
    requires |data| == SECTOR_SIZE * n
    ensures |r| == |data|
  {
    if enc then SectorsEncrypted(f, start, n, data) else SectorsDecrypted(f, start, n, data)
  }

  ghost function Direction(key: Key, enc: bool): Block -> Block
    requires key.Ready()
    reads key, key.rdKey
  {
    if enc then CipherOf(key) else InverseOf(key)
  }

  /** So far done has come out; the rest of the n sectors are still to come. */
  ghost predicate Crypting(enc: bool, f: Block -> Block, start: nat, n: nat, data: seq<bv8>, k: nat, done: seq<bv8>) {
    && k <= n && |data| == SECTOR_SIZE * n && |done| == SECTOR_SIZE * k
    && SectorsCrypted(enc, f, start, n, data) == done + SectorsCrypted(enc, f, start + k, n - k, data[|done|..])
  }

  lemma CryptingStart(enc: bool, f: Block -> Block, start: nat, n: nat, data: seq<bv8>)
    requires |data| == SECTOR_SIZE * n
    ensures Crypting(enc, f, start, n, data, 0, [])
  {
    hide SectorsCrypted;
    assert data[0..] == data && [] + SectorsCrypted(enc, f, start, n, data) == SectorsCrypted(enc, f, start, n, data);
  }

  lemma NextSector(enc: bool, f: Block -> Block, start: nat, n: nat, data: seq<bv8>)
    requires n > 0 && |data| == SECTOR_SIZE * n
    ensures SectorsCrypted(enc, f, start, n, data)
         == SectorCrypted(enc, f, start, data[..SECTOR_SIZE]) + SectorsCrypted(enc, f, start + 1, n - 1, data[SECTOR_SIZE..])
  {
    hide Encrypted, Decrypted, Vector;
  }

  lemma CryptingStep(enc: bool, f: Block -> Block, start: nat, n: nat, data: seq<bv8>, k: nat, done: seq<bv8>, r: seq<bv8>)
    requires k < n && Crypting(enc, f, start, n, data, k, done)
    requires |data[|done|..]| >= SECTOR_SIZE && r == SectorCrypted(enc, f, start + k, data[|done|..][..SECTOR_SIZE])
    ensures Crypting(enc, f, start, n, data, k + 1, done + r)
  {
    hide SectorCrypted, SectorsCrypted;
    var rest := data[|done|..];
    NextSector(enc, f, start + k, n - k, rest);
    Dropped(data, |done|, SECTOR_SIZE);
    GrowsSum(done, r, SectorsCrypted(enc, f, start + k + 1, n - k - 1, rest[SECTOR_SIZE..]));
  }

  lemma GrowsSum(done: seq<bv8>, b: seq<bv8>, rest: seq<bv8>)
    ensures done + (b + rest) == done + b + rest
  {
  }

  lemma CryptingEnd(enc: bool, f: Block -> Block, start: nat, n: nat, data: seq<bv8>, done: seq<bv8>)
    requires Crypting(enc, f, start, n, data, n, done)
    ensures done == SectorsCrypted(enc, f, start, n, data)
  {
    hide SectorsCrypted;
    var none := SectorsCrypted(enc, f, start + n, 0, data[|done|..]);
    assert none == [] && done + none == done;
  }

  method CryptSector(ivec: array<bv8>, sector: nat, output: array<bv8>, o: nat, input: array<bv8>, i: nat, enc: bool, key: Key, ghost end: nat)
    requires Usable(input, i, output, o, key, ivec)
    requires i + SECTOR_SIZE <= end <= input.Length && o + SECTOR_SIZE <= output.Length
    modifies output, ivec
    ensures output[..] == Replaced(old(output[..]), o,
                                   SectorCrypted(enc, Direction(key, enc), sector, old(input[i..end])[..SECTOR_SIZE]))
    ensures input[i + SECTOR_SIZE..end] == old(input[i..end])[SECTOR_SIZE..]
  {
    hide Encrypted, Decrypted, Last, LastDecrypted, Vector, Replaced, Cipher, Inverse, Rounded;
    ghost var before, f, data := output[..], Direction(key, enc), input[i..end];
    assert data[..SECTOR_SIZE] == input[i..i + SECTOR_SIZE];
    SectorWhole();
    SetVector(ivec, sector);
    CbcEncrypt(input, i, output, o, SECTOR_SIZE, key, ivec, enc);
    ghost var r := SectorCrypted(enc, f, sector, data[..SECTOR_SIZE]);
    if input == output {
      Unwritten(before, o, r, i + SECTOR_SIZE, end);
    }
  }

  /** The buffer after n sectors, and the text still to come. */
  ghost predicate Midway(enc: bool, f: Block -> Block, start: nat, nb: nat, data: seq<bv8>, before: seq<bv8>, o: nat,
                         after: seq<bv8>, rest: seq<bv8>, n: nat, done: seq<bv8>) {
    && |data| == SECTOR_SIZE * nb && |done| == SECTOR_SIZE * n && n <= nb && rest == data[|done|..]
    && Holds(after, before, o, done) && Crypting(enc, f, start, nb, data, n, done)
  }

  lemma MidwayStep(enc: bool, f: Block -> Block, start: nat, nb: nat, data: seq<bv8>, before: seq<bv8>, o: nat,
                   middle: seq<bv8>, rest: seq<bv8>, n: nat, done: seq<bv8>, after: seq<bv8>)
    requires Midway(enc, f, start, nb, data, before, o, middle, rest, n, done) && n < nb && |rest| >= SECTOR_SIZE
    requires o + SECTOR_SIZE * n + SECTOR_SIZE <= |before| == |middle|
    requires after == Replaced(middle, o + SECTOR_SIZE * n, SectorCrypted(enc, f, start + n, rest[..SECTOR_SIZE]))
    ensures Midway(enc, f, start, nb, data, before, o, after, rest[SECTOR_SIZE..], n + 1,
                   done + SectorCrypted(enc, f, start + n, rest[..SECTOR_SIZE]))
  {
    hide SectorCrypted, Replaced, Holds, Crypting;
    var r := SectorCrypted(enc, f, start + n, rest[..SECTOR_SIZE]);
    CryptingStep(enc, f, start, nb, data, n, done, r);
    HoldsMore(middle, after, before, o, done, r);
    Dropped(data, |done|, SECTOR_SIZE);
  }

  /** Each sector is chained on its own, in place or not. */
  method EncryptSectors(sectorNum: nat, output: array<bv8>, o: nat, input: array<bv8>, i: nat, nbSectors: nat, enc: bool, key: Key)
    requires key.Ready() && key.Apart(output) && (input == output ==> i == o)
    requires i + SECTOR_SIZE * nbSectors <= input.Length && o + SECTOR_SIZE * nbSectors <= output.Length
    modifies output
    ensures Holds(output[..], old(output[..]), o, SectorsCrypted(enc, Direction(key, enc), sectorNum, nbSectors,
                                                                 old(input[i..i + SECTOR_SIZE * nbSectors])))
  {
    hide SectorsCrypted, SectorCrypted, Replaced, Holds, Cipher, Inverse, Crypting, Midway;
    ghost var before, f, data, end := output[..], Direction(key, enc), input[i..i + SECTOR_SIZE * nbSectors], i + SECTOR_SIZE * nbSectors;
    ghost var done: seq<bv8> := [];
    var ivec := new bv8[BLOCK_SIZE];
    var n, at: nat, to: nat := 0, i, o;
    MidwayStart(enc, f, sectorNum, nbSectors, data, before, o);
    while n < nbSectors
      modifies output, ivec
      invariant n <= nbSectors && at == i + SECTOR_SIZE * n && to == o + SECTOR_SIZE * n
      invariant Midway(enc, f, sectorNum, nbSectors, data, before, o, output[..], input[at..end], n, done)
    {
      ghost var middle, rest := output[..], input[at..end];
      CryptSector(ivec, sectorNum + n, output, to, input, at, enc, key, end);
      MidwayStep(enc, f, sectorNum, nbSectors, data, before, o, middle, rest, n, done, output[..]);
      done := done + SectorCrypted(enc, f, sectorNum + n, rest[..SECTOR_SIZE]);
      n, at, to := n + 1, at + SECTOR_SIZE, to + SECTOR_SIZE;
    }
    MidwayEnd(enc, f, sectorNum, nbSectors, data, before, o, output[..], input[at..end], done);
  }

  lemma MidwayStart(enc: bool, f: Block -> Block, start: nat, nb: nat, data: seq<bv8>, before: seq<bv8>, o: nat)
    requires |data| == SECTOR_SIZE * nb && o <= |before|
    ensures Midway(enc, f, start, nb, data, before, o, before, data, 0, [])
  {
    hide Holds, Crypting;
    HoldsNothing(before, o);
    CryptingStart(enc, f, start, nb, data);
    assert data[0..] == data;
  }

  lemma MidwayEnd(enc: bool, f: Block -> Block, start: nat, nb: nat, data: seq<bv8>, before: seq<bv8>, o: nat,
                  after: seq<bv8>, rest: seq<bv8>, done: seq<bv8>)
    requires Midway(enc, f, start, nb, data, before, o, after, rest, nb, done)
    ensures |data| == SECTOR_SIZE * nb && Holds(after, before, o, SectorsCrypted(enc, f, start, nb, data))
  {
    hide Holds, Crypting, SectorsCrypted;
    CryptingEnd(enc, f, start, nb, data, done);
  }

  /** What encryption wrote with the key, decryption with the same key reads back, whichever run of sectors is asked for. */
  lemma KeySubRun(rk: seq<Aes.Word>, dk: seq<Aes.Word>, key: seq<bv8>, rounds: nat, start: nat, n: nat, data: seq<bv8>, a: nat, b: nat)
    requires rounds >= 1 && 4 * rounds + 4 <= |rk| && 4 * rounds + 4 <= |dk|
    requires Schedule(rk, key, rounds) && InverseSchedule(dk, key, rounds)
    requires |data| == SECTOR_SIZE * n && a <= b <= n
    ensures SectorsCrypted(false, Inverse(dk, rounds), start + a, b - a,
              SectorsCrypted(true, Cipher(rk, rounds), start, n, data)[SECTOR_SIZE * a..SECTOR_SIZE * b])
         == data[SECTOR_SIZE * a..SECTOR_SIZE * b]
  {
    hide Cipher, Inverse, Schedule, InverseSchedule, SectorsEncrypted, SectorsDecrypted;
    CiphersUndo(rk, dk, key, rounds);
    SubRun(Cipher(rk, rounds), Inverse(dk, rounds), start, n, data, a, b);
  }
}
