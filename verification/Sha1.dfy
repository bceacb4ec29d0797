/** The streaming SHA-1 of sha.c: a context that buffers input, compresses whole blocks and pads at the end. */
module Sha1 {
  import opened Sha1Spec

  // The round functions as the code writes them.
  function F_0_19(x: Word, y: Word, z: Word): Word { z ^ (x & (y ^ z)) }

  function F_20_39(x: Word, y: Word, z: Word): Word { x ^ y ^ z }

  function F_40_59(x: Word, y: Word, z: Word): Word { (x & (y | z)) | (y & z) }

  function F_60_79(x: Word, y: Word, z: Word): Word { x ^ y ^ z }

  /** In each stage the code's round function is that of FIPS 180-4, section 4.1.1. */
  lemma RoundFunctionsAgree(t: nat, x: Word, y: Word, z: Word)
    requires t < 80
    ensures t < 20 ==> F_0_19(x, y, z) == F(t, x, y, z)
    ensures 20 <= t < 40 ==> F_20_39(x, y, z) == F(t, x, y, z)
    ensures 40 <= t < 60 ==> F_40_59(x, y, z) == F(t, x, y, z)
    ensures 60 <= t ==> F_60_79(x, y, z) == F(t, x, y, z)
  {
    if t < 20 {
      ChAgrees(x, y, z);
    } else if 40 <= t < 60 {
      MajAgrees(x, y, z);
    }
  }

  lemma ChAgrees(x: Word, y: Word, z: Word)
    ensures F_0_19(x, y, z) == Ch(x, y, z)
  {
    BitwiseCh(x, y, z);
  }

  lemma MajAgrees(x: Word, y: Word, z: Word)
    ensures F_40_59(x, y, z) == Maj(x, y, z)
  {
    BitwiseMaj(x, y, z);
  }

  lemma BitwiseCh(x: Word, y: Word, z: Word)
    ensures z ^ (x & (y ^ z)) == (x & y) ^ (!x & z)
  {
  }

  lemma BitwiseMaj(x: Word, y: Word, z: Word)
    ensures (x & (y | z)) | (y & z) == (x & y) ^ (x & z) ^ (y & z)
  {
  }

  function Rotr(x: Word, n: bv6): Word
    requires n <= 32
  {
    (x >> n) | (x << (32 - n))
  }

  // BYTESWAP on a little-endian machine
  function ByteSwap(x: Word): Word { (Rotr(x, 8) & 0xff00ff00) | (Rotl(x, 8) & 0x00ff00ff) }

  /** The word a little-endian machine loads from four bytes. */
  function Load(b0: bv8, b1: bv8, b2: bv8, b3: bv8): Word {
    b0 as bv32 | (b1 as bv32 << 8) | (b2 as bv32 << 16) | (b3 as bv32 << 24)
  }

  lemma LoadSwapped(b0: bv8, b1: bv8, b2: bv8, b3: bv8)
    ensures ByteSwap(Load(b0, b1, b2, b3)) == BigEndian(b0, b1, b2, b3)
  {
  }

  // _byteswap64
  function ByteSwap64(x: bv64): bv64 {
    var a := ((x >> 32) & 0xffff_ffff) as bv32;
    var b := (x & 0xffff_ffff) as bv32;
    (ByteSwap(b) as bv64 << 32) | ByteSwap(a) as bv64
  }

  /** The eight bytes of a 64-bit number in the memory of a little-endian machine. */
  function Store64(x: bv64): (b: seq<bv8>)
    ensures |b| == 8
  {
    [(x & 0xff) as bv8, ((x >> 8) & 0xff) as bv8, ((x >> 16) & 0xff) as bv8, ((x >> 24) & 0xff) as bv8,
     ((x >> 32) & 0xff) as bv8, ((x >> 40) & 0xff) as bv8, ((x >> 48) & 0xff) as bv8, (x >> 56) as bv8]
  }

  lemma StoreSwapped(x: bv64)
    ensures Store64(ByteSwap64(x)) == BigEndian64(x)
  {
  }

  // DO_ROUND
  function DoRound(v: Hash, f: Word, w: Word, k: Word): Hash {
    Hash(Rotl(v.h0, 5) + f + v.h4 + w + k, v.h0, Rotl(v.h1, 30), v.h2, v.h3)
  }

  lemma AddSwapped(p: Word, w: Word, k: Word)
    ensures p + w + k == p + k + w
  {
  }

  lemma DoRoundIsRound(v: Hash, f: Word, w: Word, k: Word)
    ensures DoRound(v, f, w, k) == Round(v, f, k, w)
  {
    AddSwapped(Rotl(v.h0, 5) + f + v.h4, w, k);
  }

  /** A round of the code is a round of section 6.1.2. */
  lemma RoundAgrees(h: Hash, block: seq<bv8>, t: nat, v: Hash, f: Word, w: Word, k: Word)
    requires |block| == 64 && t < 80 && v == Rounds(h, block, t)
    requires f == F(t, v.h1, v.h2, v.h3) && k == K(t) && w == W(block, t)
    ensures DoRound(v, f, w, k) == Rounds(h, block, t + 1)
  {
    DoRoundIsRound(v, f, w, k);
  }

  /** SHA1Guts: the hash value after one more block.  v holds the working variables a..e, and the pointers
      W, W3, W8, W14 and W16 are indexes. */
  method Guts(h: Hash, cbuf: seq<bv8>) returns (r: Hash)
    requires |cbuf| == 64
    ensures r == Compress(h, cbuf)
  {
    var words := Schedule(cbuf);
    var v := h;
    var w := 0;
    while w < 20
      invariant 0 <= w <= 20 && v == Rounds(h, cbuf, w)
    {
      RoundFunctionsAgree(w, v.h1, v.h2, v.h3);
      RoundAgrees(h, cbuf, w, v, F_0_19(v.h1, v.h2, v.h3), words[w], 0x5a827999);
      v := DoRound(v, F_0_19(v.h1, v.h2, v.h3), words[w], 0x5a827999);
      w := w + 1;
    }
    while w < 40
      invariant 20 <= w <= 40 && v == Rounds(h, cbuf, w)
    {
      RoundFunctionsAgree(w, v.h1, v.h2, v.h3);
      RoundAgrees(h, cbuf, w, v, F_20_39(v.h1, v.h2, v.h3), words[w], 0x6ed9eba1);
      v := DoRound(v, F_20_39(v.h1, v.h2, v.h3), words[w], 0x6ed9eba1);
      w := w + 1;
    }
    while w < 60
      invariant 40 <= w <= 60 && v == Rounds(h, cbuf, w)
    {
      RoundFunctionsAgree(w, v.h1, v.h2, v.h3);
      RoundAgrees(h, cbuf, w, v, F_40_59(v.h1, v.h2, v.h3), words[w], 0x8f1bbcdc);
      v := DoRound(v, F_40_59(v.h1, v.h2, v.h3), words[w], 0x8f1bbcdc);
      w := w + 1;
    }
    while w < 80
      invariant 60 <= w <= 80 && v == Rounds(h, cbuf, w)
    {
      RoundFunctionsAgree(w, v.h1, v.h2, v.h3);
      RoundAgrees(h, cbuf, w, v, F_60_79(v.h1, v.h2, v.h3), words[w], 0xca62c1d6);
      v := DoRound(v, F_60_79(v.h1, v.h2, v.h3), words[w], 0xca62c1d6);
      w := w + 1;
    }
    r := Sum(h, v);
  }

  /** The first half of SHA1Guts: the 80 words of the message schedule. */
  method Schedule(cbuf: seq<bv8>) returns (words: seq<Word>)
    requires |cbuf| == 64
    ensures |words| == 80
    ensures forall t :: 0 <= t < 80 ==> words[t] == W(cbuf, t)
  {
    var buf := new Word[80];
    var w := 0;
    for i := 0 to 16
      invariant w == i
      invariant forall t :: 0 <= t < w ==> buf[t] == W(cbuf, t)
    {
      LoadSwapped(cbuf[4 * i], cbuf[4 * i + 1], cbuf[4 * i + 2], cbuf[4 * i + 3]);
      buf[w] := ByteSwap(Load(cbuf[4 * i], cbuf[4 * i + 1], cbuf[4 * i + 2], cbuf[4 * i + 3]));
      w := w + 1;
    }
    var w16, w14, w8, w3 := 0, 2, 8, 13;
    for i := 0 to 64
      invariant w == i + 16 && w16 == i && w14 == i + 2 && w8 == i + 8 && w3 == i + 13
      invariant forall t :: 0 <= t < w ==> buf[t] == W(cbuf, t)
    {
      buf[w] := Mix(buf[w3], buf[w8], buf[w14], buf[w16]);
      w, w3, w8, w14, w16 := w + 1, w3 + 1, w8 + 1, w14 + 1, w16 + 1;
    }
    words := buf[..];
  }

  /** The bytes of m's whole blocks, and the bytes after them. */
  function Whole(m: seq<bv8>): (w: seq<bv8>)
    ensures |w| % 64 == 0
  {
    m[..|m| - |m| % 64]
  }

  function Tail(m: seq<bv8>): seq<bv8> { m[|m| - |m| % 64..] }

  // What a context holds: the hash words, the bytes waiting in the buffer and the 64-bit count of bits.
  datatype Stream = Stream(hash: Hash, buffered: seq<bv8>, bufferLength: nat, totalLength: nat)

  /** The state that a message leaves, however it was cut into pieces. */
  function After(m: seq<bv8>): Stream {
    Stream(Absorb(Whole(m)), Tail(m), |m| % 64, 8 * |m| % WIDTH)
  }

  lemma AfterNothing()
    ensures After([]) == Stream(INITIAL, [], 0, 0)
  {
    assert Whole([]) == [] && Tail([]) == [];
  }

  const WIDTH := 0x1_0000_0000_0000_0000

  lemma CountWraps(a: nat, b: nat)
    ensures (8 * a % WIDTH + 8 * b) % WIDTH == 8 * (a + b) % WIDTH
  {
    var q := 8 * a / WIDTH;
    assert 8 * (a + b) == (8 * a % WIDTH + 8 * b) + q * WIDTH;
    ModPlusMultiple(8 * a % WIDTH + 8 * b, q);
  }

  lemma {:induction false} ModPlusMultiple(x: nat, q: nat)
    ensures (x + q * WIDTH) % WIDTH == x % WIDTH
  {
    if q > 0 {
      ModPlusMultiple(x, q - 1);
      assert (x + q * WIDTH) % WIDTH == (x + (q - 1) * WIDTH + WIDTH) % WIDTH;
    }
  }

  /** Lengths after a piece that fits into the buffer of a message. */
  lemma LengthAfter(m: nat, k: nat)
    requires m % 64 + k <= 64
    ensures (m + k) % 64 == if m % 64 + k == 64 then 0 else m % 64 + k
  {
  }

  /** What memcpy into the buffer does to the state, with one compression if the buffer becomes full. */
  function Stepped(s: Stream, piece: seq<bv8>): Stream
    requires s.bufferLength == |s.buffered| && |s.buffered| + |piece| <= 64
  {
    var total := (s.totalLength + 8 * |piece|) % WIDTH;
    if |s.buffered| + |piece| == 64 then
      Stream(Compress(s.hash, s.buffered + piece), [], 0, total)
    else
      Stream(s.hash, s.buffered + piece, s.bufferLength + |piece|, total)
  }

  lemma AllWhole(m: seq<bv8>)
    requires |m| % 64 == 0
    ensures Whole(m) == m && Tail(m) == []
  {
  }

  lemma WholeAndTail(m: seq<bv8>, piece: seq<bv8>)
    ensures m + piece == Whole(m) + (Tail(m) + piece)
    ensures |Tail(m)| == |m| % 64
  {
  }

  /** A piece that completes a block. */
  lemma WholeBlock(m: seq<bv8>, piece: seq<bv8>)
    requires |m| % 64 + |piece| == 64
    ensures |m + piece| % 64 == 0
    ensures Absorb(m + piece) == Compress(Absorb(Whole(m)), Tail(m) + piece)
  {
    LengthAfter(|m|, |piece|);
    WholeAndTail(m, piece);
    LastBlock(m + piece, Whole(m), Tail(m) + piece);
  }

  lemma LastBlock(m: seq<bv8>, before: seq<bv8>, block: seq<bv8>)
    requires m == before + block && |block| == 64 && |before| % 64 == 0 && |m| % 64 == 0
    ensures Absorb(m) == Compress(Absorb(before), block)
  {
    assert m[..|m| - 64] == before && m[|m| - 64..] == block;
  }

  /** A piece that leaves room in its block. */
  lemma PartBlock(m: seq<bv8>, piece: seq<bv8>)
    requires |m| % 64 + |piece| < 64
    ensures Whole(m + piece) == Whole(m) && Tail(m + piece) == Tail(m) + piece
    ensures |m + piece| % 64 == |m| % 64 + |piece|
  {
    LengthAfter(|m|, |piece|);
  }

  lemma AfterWholeBlock(m: seq<bv8>, piece: seq<bv8>)
    requires |m| % 64 + |piece| == 64
    ensures After(m + piece) == Stepped(After(m), piece)
  {
    CountWraps(|m|, |piece|);
    WholeBlock(m, piece);
    AllWhole(m + piece);
  }

  lemma AfterPartBlock(m: seq<bv8>, piece: seq<bv8>)
    requires |m| % 64 + |piece| < 64
    ensures After(m + piece) == Stepped(After(m), piece)
  {
    CountWraps(|m|, |piece|);
    WholeAndTail(m, piece);
    PartBlock(m, piece);
    var stepped := Stepped(After(m), piece);
    assert stepped.hash == Absorb(Whole(m));
    assert stepped.buffered == Tail(m) + piece;
    assert stepped.bufferLength == |m| % 64 + |piece|;
    assert stepped.totalLength == 8 * |m + piece| % WIDTH;
  }

  /** The state of a message follows the steps of the buffer. */
  lemma AfterPiece(m: seq<bv8>, piece: seq<bv8>)
    requires |m| % 64 + |piece| <= 64
    ensures After(m + piece) == Stepped(After(m), piece)
  {
    if |m| % 64 + |piece| == 64 {
      AfterWholeBlock(m, piece);
    } else {
      AfterPartBlock(m, piece);
    }
  }

  lemma ExtendSlice(m: seq<bv8>, data: seq<bv8>, from: nat, at: nat, to: nat)
    requires from <= at <= to <= |data|
    ensures m + data[from..at] + data[at..to] == m + data[from..to]
  {
  }

  class Context {
    var totalLength: nat
    var hash: Hash
    var bufferLength: nat
    const buffer: array<bv8>
    ghost var message: seq<bv8>

    ghost function State(): Stream
      requires bufferLength <= buffer.Length
      reads this, buffer
    {
      Stream(hash, buffer[..bufferLength], bufferLength, totalLength)
    }

    ghost predicate Valid()
      reads this, buffer
    {
      buffer.Length == 64 && bufferLength < 64 && State() == After(message)
    }

    // SHA1Init
    constructor ()
      ensures Valid() && message == [] && fresh(buffer)
    {
      totalLength, hash, bufferLength, buffer := 0, INITIAL, 0, new bv8[64];
      message := [];
      AfterNothing();
    }

    /** Appends a piece that fits into the buffer, and compresses the buffer once it is full. */
    method Fill(piece: seq<bv8>)
      requires buffer.Length == 64 && bufferLength < 64 && bufferLength + |piece| <= 64
      modifies this, buffer
      ensures bufferLength < 64 && State() == Stepped(old(State()), piece)
      ensures message == old(message)
    {
      ghost var block := buffer[..bufferLength] + piece;
      forall i | 0 <= i < |piece| {
        buffer[bufferLength + i] := piece[i];
      }
      assert buffer[..bufferLength + |piece|] == block;
      totalLength := (totalLength + 8 * |piece|) % WIDTH;
      bufferLength := bufferLength + |piece|;
      if bufferLength == 64 {
        assert buffer[..] == block;
        hash := Guts(hash, buffer[..]);
        bufferLength := 0;
      }
    }

    method Append(piece: seq<bv8>)
      requires Valid() && bufferLength + |piece| <= 64
      modifies this, buffer
      ensures Valid() && message == old(message) + piece
    {
      AfterPiece(message, piece);
      Fill(piece);
      message := message + piece;
    }

    /** Compresses a whole block where it lies; the buffer is empty and stays so. */
    method CompressBlock(block: seq<bv8>)
      requires buffer.Length == 64 && bufferLength == 0 && |block| == 64
      modifies this
      ensures bufferLength == 0 && State() == Stepped(old(State()), block)
      ensures message == old(message)
    {
      assert buffer[..0] + block == block;
      totalLength := (totalLength + 512) % WIDTH;
      hash := Guts(hash, block);
    }

    method AppendBlock(block: seq<bv8>)
      requires Valid() && bufferLength == 0 && |block| == 64
      modifies this
      ensures Valid() && bufferLength == 0 && message == old(message) + block
    {
      AfterPiece(message, block);
      CompressBlock(block);
      message := message + block;
    }

    /** Moves the next bytes of data into the buffer, as many as it has room for. */
    method Copy(data: seq<bv8>, at: nat) returns (next: nat)
      requires Valid() && at <= |data|
      modifies this, buffer
      ensures next == if 64 - old(bufferLength) > |data| - at then |data| else at + 64 - old(bufferLength)
      ensures Valid() && message == old(message) + data[at..next]
      ensures next < |data| ==> bufferLength == 0
    {
      var bytesToCopy := 64 - bufferLength;
      if bytesToCopy > |data| - at {
        bytesToCopy := |data| - at;
      }
      LengthAfter(|message|, bytesToCopy);
      next := at + bytesToCopy;
      Append(data[at..next]);
    }

    /** SHA1Update, the loop that moves all input through the buffer. */
    method Update(data: seq<bv8>)
      requires Valid() && |data| < 0x1_0000_0000
      modifies this, buffer
      ensures Valid() && message == old(message) + data
    {
      var at := 0;
      while at < |data|
        invariant at <= |data| && Valid() && message == old(message) + data[0..at]
      {
        var next := Copy(data, at);
        ExtendSlice(old(message), data, 0, at, next);
        at := next;
      }
      assert data[0..at] == data;
    }

    /** Compresses the whole blocks that follow position from. */
    method Blocks(data: seq<bv8>, from: nat) returns (at: nat)
      requires Valid() && from <= |data| && (from < |data| ==> bufferLength == 0)
      modifies this
      ensures from <= at <= |data| && |data| - at <= 63
      ensures Valid() && message == old(message) + data[from..at] && (at < |data| ==> bufferLength == 0)
    {
      at := from;
      assert message + data[from..from] == message;
      while |data| - at > 63
        invariant from <= at <= |data| && (at < |data| ==> bufferLength == 0)
        invariant Valid() && message == old(message) + data[from..at]
      {
        AppendBlock(data[at..at + 64]);
        ExtendSlice(old(message), data, from, at, at + 64);
        at := at + 64;
      }
    }

    /** SHA1Update under SHA1_FAST_COPY: once the buffer is empty, whole blocks are compressed where they lie. */
    method UpdateFast(data: seq<bv8>)
      requires Valid() && |data| < 0x1_0000_0000
      modifies this, buffer
      ensures Valid() && message == old(message) + data
    {
      var from := 0;
      if bufferLength > 0 {
        from := Copy(data, 0);
      }
      assert message == old(message) + data[0..from];
      var at := Blocks(data, from);
      ExtendSlice(old(message), data, 0, from, at);
      if at < |data| {
        Append(data[at..]);
      }
      ExtendSlice(old(message), data, 0, at, |data|);
      assert data[0..|data|] == data && data[at..|data|] == data[at..];
    }

    /** SHA1Final: padding, then the length, then the hash words as bytes. */
    method Final() returns (digest: seq<bv8>)
      requires Valid() && |message| < 0x2000_0000_0000_0000
      modifies this, buffer
      ensures digest == Digest(old(message))
      ensures Valid() && message == Pad(old(message))
    {
      var bytesToPad := 120 - bufferLength;
      if bytesToPad > 64 {
        bytesToPad := bytesToPad - 64;
      }
      var lengthPad := LengthBytes(totalLength, message);
      FinalAppendsPad(message, bytesToPad, lengthPad);
      Update(Padding()[..bytesToPad]);
      Update(lengthPad);
      digest := HashBytes(hash);
    }
  }

  /** The bytes of BYTESWAP64(totalLength), which are the length of section 5.1.1. */
  function LengthBytes(totalLength: nat, ghost m: seq<bv8>): (b: seq<bv8>)
    requires |m| < 0x2000_0000_0000_0000 && totalLength == After(m).totalLength
    ensures |b| == 8 && Pad(m) == PadWith(m, b)
  {
    NoWrap(|m|);
    StoreSwapped(totalLength as bv64);
    Store64(ByteSwap64(totalLength as bv64))
  }

  // padding
  function Padding(): (p: seq<bv8>)
    ensures |p| == 64
  {
    [0x80] + Zeros(63)
  }

  // bytesToPad, for a buffer that holds length % 64 bytes
  function BytesToPad(length: nat): nat {
    if 120 - length % 64 > 64 then 120 - length % 64 - 64 else 120 - length % 64
  }

  /** The code's padding is the 0x80 byte and the fewest zeros that section 5.1.1 allows. */
  lemma FewestBytes(length: nat)
    ensures BytesToPad(length) == 1 + ZeroBytes(length) && BytesToPad(length) <= 64
  {
    var r := length % 64;
    assert (119 - r) % 64 == if r <= 55 then 55 - r else 119 - r;
  }

  lemma NoWrap(length: nat)
    requires length < 0x2000_0000_0000_0000
    ensures 8 * length % WIDTH == 8 * length
  {
  }

  lemma PaddingCompletes(m: seq<bv8>, lengthPad: seq<bv8>)
    requires |lengthPad| == 8
    ensures BytesToPad(|m|) <= 64
    ensures PadWith(m, lengthPad) == m + Padding()[..BytesToPad(|m|)] + lengthPad
  {
    FewestBytes(|m|);
    assert Padding()[..BytesToPad(|m|)] == [0x80] + Zeros(ZeroBytes(|m|));
    assert m + ([0x80] + Zeros(ZeroBytes(|m|))) == m + [0x80] + Zeros(ZeroBytes(|m|));
  }

  /** What SHA1Final appends completes the padded message of section 5.1.1, so that nothing stays buffered. */
  lemma FinalAppendsPad(m: seq<bv8>, bytesToPad: nat, lengthPad: seq<bv8>)
    requires |m| < 0x2000_0000_0000_0000
    requires bytesToPad == BytesToPad(|m|)
    requires |lengthPad| == 8 && Pad(m) == PadWith(m, lengthPad)
    ensures bytesToPad <= 64
    ensures m + Padding()[..bytesToPad] + lengthPad == Pad(m)
    ensures HashBytes(After(Pad(m)).hash) == Digest(m)
  {
    PaddingCompletes(m, lengthPad);
    assert Whole(Pad(m)) == Pad(m);
  }

  /** shahash: the digest of a whole string. */
  method ShaHash(str: seq<bv8>) returns (digest: seq<bv8>)
    requires |str| < 0x1_0000_0000
    ensures digest == Digest(str)
  {
    var sha := new Context();
    sha.Update(str);
    assert [] + str == str;
    digest := sha.Final();
  }

  function Concat(pieces: seq<seq<bv8>>): seq<bv8> {
    if pieces == [] then [] else Concat(pieces[..|pieces| - 1]) + pieces[|pieces| - 1]
  }

  /** Any sequence of updates, by either body of SHA1Update, leaves the state of one update with everything. */
  method UpdatePieces(sha: Context, pieces: seq<seq<bv8>>, fast: seq<bool>)
    requires sha.Valid()
    requires |fast| == |pieces| && forall i :: 0 <= i < |pieces| ==> |pieces[i]| < 0x1_0000_0000
    modifies sha, sha.buffer
    ensures sha.Valid() && sha.message == old(sha.message) + Concat(pieces)
    ensures sha.State() == After(old(sha.message) + Concat(pieces))
  {
    ghost var m := sha.message;
    assert m + Concat(pieces[..0]) == m;
    for i := 0 to |pieces|
      invariant sha.Valid() && sha.message == m + Concat(pieces[..i])
    {
      if fast[i] {
        sha.UpdateFast(pieces[i]);
      } else {
        sha.Update(pieces[i]);
      }
      ConcatStep(m, pieces, i);
    }
    assert pieces[..|pieces|] == pieces;
  }

  lemma ConcatStep(m: seq<bv8>, pieces: seq<seq<bv8>>, i: nat)
    requires i < |pieces|
    ensures m + Concat(pieces[..i]) + pieces[i] == m + Concat(pieces[..i + 1])
  {
    assert pieces[..i + 1][..i] == pieces[..i];
  }

  /** SHA1Init, any updates and SHA1Final: the digest of the concatenation. */
  method HashPieces(pieces: seq<seq<bv8>>, fast: seq<bool>) returns (digest: seq<bv8>)
    requires |fast| == |pieces| && forall i :: 0 <= i < |pieces| ==> |pieces[i]| < 0x1_0000_0000
    requires |Concat(pieces)| < 0x2000_0000_0000_0000
    ensures digest == Digest(Concat(pieces))
  {
    var sha := new Context();
    UpdatePieces(sha, pieces, fast);
    assert [] + Concat(pieces) == Concat(pieces);
    digest := sha.Final();
  }
}
