/** The first sample message of sha.c's self-test: the digest of "abc" is the one that its comment promises.  The words
    of the schedule and the values that the rounds give to a are written out; each follows from those before it. */
module Sha1Sample {
  import opened Sha1Spec

  const ABC: seq<bv8> := [97, 98, 99]

  function Block(): (b: seq<bv8>)
    ensures |b| == 64
  {
    ABC + [0x80] + Zeros(52) + [0, 0, 0, 0, 0, 0, 0, 24]
  }

  lemma OneBlock()
    ensures Pad(ABC) == Block()
  {
  }

  // The words of the schedule, and the working variables before and after each round
  datatype Trace = Trace(words: seq<Word>, states: seq<Hash>)

  ghost predicate Mixes(s: Trace, t: nat)
    requires |s.words| == 80 && 16 <= t < 80
  {
    s.words[t] == Mix(s.words[t - 3], s.words[t - 8], s.words[t - 14], s.words[t - 16])
  }

  ghost predicate Turns(s: Trace, t: nat)
    requires |s.words| == 80 && |s.states| == 81 && t < 80
  {
    var v := s.states[t];
    s.states[t + 1] == Round(v, F(t, v.h1, v.h2, v.h3), K(t), s.words[t])
  }

  /** s is the trace of the block that holds abc. */
  ghost predicate IsTrace(s: Trace) {
    && |s.words| == 80 && |s.states| == 81
    && s.words[0] == 0x61626380 && s.words[15] == 24 && (forall t :: 1 <= t < 15 ==> s.words[t] == 0)
    && s.states[0] == INITIAL
    && (forall t: nat {:trigger Mixes(s, t)} :: 16 <= t < 80 ==> Mixes(s, t))
    && forall t: nat {:trigger Turns(s, t)} :: t < 80 ==> Turns(s, t)
  }

  lemma NextWord(s: Trace, t: nat, w: Word)
    requires IsTrace(s) && 16 <= t < 80
    requires Mix(s.words[t - 3], s.words[t - 8], s.words[t - 14], s.words[t - 16]) == w
    ensures s.words[t] == w
  {
    assert Mixes(s, t);
  }

  /** Round t, where a is the value that it computes. */
  lemma Next(s: Trace, t: nat, a: Word)
    requires IsTrace(s) && t < 80
    requires var v := s.states[t]; Round(v, F(t, v.h1, v.h2, v.h3), K(t), s.words[t]).h0 == a
    ensures var v := s.states[t]; s.states[t + 1] == Hash(a, v.h0, Rotl(v.h1, 30), v.h2, v.h3)
  {
    assert Turns(s, t);
  }

  lemma Words16(s: Trace)
    requires IsTrace(s)
    ensures s.words[16] == 0xc2c4c700 && s.words[17] == 0x00000000 && s.words[18] == 0x00000030
    ensures s.words[19] == 0x85898e01 && s.words[20] == 0x00000000 && s.words[21] == 0x00000060
    ensures s.words[22] == 0x0b131c03 && s.words[23] == 0x00000030 && s.words[24] == 0x85898ec1
    ensures s.words[25] == 0x16263806 && s.words[26] == 0x00000000 && s.words[27] == 0x00000180
    ensures s.words[28] == 0x2c4c700c && s.words[29] == 0x000000f0 && s.words[30] == 0x93afb507
    ensures s.words[31] == 0x5898e048 && s.words[32] == 0x8e9a9202 && s.words[33] == 0x00000600
    ensures s.words[34] == 0xb131c0f0 && s.words[35] == 0x16263bc6 && s.words[36] == 0x4ebed41e
    ensures s.words[37] == 0x626380a1 && s.words[38] == 0x16263806 && s.words[39] == 0x000018c0
    ensures s.words[40] == 0xd2e138c4 && s.words[41] == 0x00000f00 && s.words[42] == 0x3afb5079
    ensures s.words[43] == 0x898e04e5 && s.words[44] == 0xe2ba3c2b && s.words[45] == 0x000060c0
    ensures s.words[46] == 0x053a37cd && s.words[47] == 0x74458547
  {
    NextWord(s, 16, 0xc2c4c700); NextWord(s, 17, 0x00000000); NextWord(s, 18, 0x00000030); NextWord(s, 19, 0x85898e01);
    NextWord(s, 20, 0x00000000); NextWord(s, 21, 0x00000060); NextWord(s, 22, 0x0b131c03); NextWord(s, 23, 0x00000030);
    NextWord(s, 24, 0x85898ec1); NextWord(s, 25, 0x16263806); NextWord(s, 26, 0x00000000); NextWord(s, 27, 0x00000180);
    NextWord(s, 28, 0x2c4c700c); NextWord(s, 29, 0x000000f0); NextWord(s, 30, 0x93afb507); NextWord(s, 31, 0x5898e048);
    NextWord(s, 32, 0x8e9a9202); NextWord(s, 33, 0x00000600); NextWord(s, 34, 0xb131c0f0); NextWord(s, 35, 0x16263bc6);
    NextWord(s, 36, 0x4ebed41e); NextWord(s, 37, 0x626380a1); NextWord(s, 38, 0x16263806); NextWord(s, 39, 0x000018c0);
    NextWord(s, 40, 0xd2e138c4); NextWord(s, 41, 0x00000f00); NextWord(s, 42, 0x3afb5079); NextWord(s, 43, 0x898e04e5);
    NextWord(s, 44, 0xe2ba3c2b); NextWord(s, 45, 0x000060c0); NextWord(s, 46, 0x053a37cd); NextWord(s, 47, 0x74458547);
  }

  lemma Words48(s: Trace)
    requires IsTrace(s)
    ensures s.words[48] == 0xda9415ed && s.words[49] == 0x26380a16 && s.words[50] == 0x626383a1
    ensures s.words[51] == 0x4ebf54de && s.words[52] == 0x3835b44b && s.words[53] == 0x0000f600
    ensures s.words[54] == 0x1e84c7a3 && s.words[55] == 0x98e04d98 && s.words[56] == 0x651d16a0
    ensures s.words[57] == 0x62658ca1 && s.words[58] == 0x458544d6 && s.words[59] == 0x44584cb7
    ensures s.words[60] == 0x7ba06619 && s.words[61] == 0x6380aea2 && s.words[62] == 0x0ae55269
    ensures s.words[63] == 0x627b49a1 && s.words[64] == 0x7cd45c9d && s.words[65] == 0x000f0000
    ensures s.words[66] == 0xfb50753a && s.words[67] == 0xec6765e8 && s.words[68] == 0xba3c2be2
    ensures s.words[69] == 0x0060c000 && s.words[70] == 0x3a37cd05 && s.words[71] == 0x458546f4
    ensures s.words[72] == 0xb8599dd6 && s.words[73] == 0x380a1a26 && s.words[74] == 0x01e02203
    ensures s.words[75] == 0xe7cc3456 && s.words[76] == 0xe6e60b69 && s.words[77] == 0x00f60a00
    ensures s.words[78] == 0x5795ef4f && s.words[79] == 0x822e0879
  {
    Words16(s);
    NextWord(s, 48, 0xda9415ed); NextWord(s, 49, 0x26380a16); NextWord(s, 50, 0x626383a1); NextWord(s, 51, 0x4ebf54de);
    NextWord(s, 52, 0x3835b44b); NextWord(s, 53, 0x0000f600); NextWord(s, 54, 0x1e84c7a3); NextWord(s, 55, 0x98e04d98);
    NextWord(s, 56, 0x651d16a0); NextWord(s, 57, 0x62658ca1); NextWord(s, 58, 0x458544d6); NextWord(s, 59, 0x44584cb7);
    NextWord(s, 60, 0x7ba06619); NextWord(s, 61, 0x6380aea2); NextWord(s, 62, 0x0ae55269); NextWord(s, 63, 0x627b49a1);
    NextWord(s, 64, 0x7cd45c9d); NextWord(s, 65, 0x000f0000); NextWord(s, 66, 0xfb50753a); NextWord(s, 67, 0xec6765e8);
    NextWord(s, 68, 0xba3c2be2); NextWord(s, 69, 0x0060c000); NextWord(s, 70, 0x3a37cd05); NextWord(s, 71, 0x458546f4);
    NextWord(s, 72, 0xb8599dd6); NextWord(s, 73, 0x380a1a26); NextWord(s, 74, 0x01e02203); NextWord(s, 75, 0xe7cc3456);
    NextWord(s, 76, 0xe6e60b69); NextWord(s, 77, 0x00f60a00); NextWord(s, 78, 0x5795ef4f); NextWord(s, 79, 0x822e0879);
  }

  lemma Rounds20(s: Trace)
    requires IsTrace(s)
    ensures s.states[20] == Hash(0xfd9e1d7d, 0xdc64901d, 0x20aa99ca, 0xd3a49608, 0xc82f758b)
  {
    Words16(s);
    Next(s, 0, 0x0116fc33); Next(s, 1, 0x8990536d); Next(s, 2, 0xa1390f08); Next(s, 3, 0xcdd8e11b);
    Next(s, 4, 0xcfd499de); Next(s, 5, 0x3fc7ca40); Next(s, 6, 0x993e30c1); Next(s, 7, 0x9e8c07d4);
    Next(s, 8, 0x4b6ae328); Next(s, 9, 0x8351f929); Next(s, 10, 0xfbda9e89); Next(s, 11, 0x63188fe4);
    Next(s, 12, 0x4607b664); Next(s, 13, 0x9128f695); Next(s, 14, 0x196bee77); Next(s, 15, 0x20bdd62f);
    Next(s, 16, 0x4e925823); Next(s, 17, 0x82aa6728); Next(s, 18, 0xdc64901d); Next(s, 19, 0xfd9e1d7d);
  }

  lemma Rounds40(s: Trace)
    requires IsTrace(s)
    ensures s.states[40] == Hash(0x32de1cba, 0x4c986405, 0xf718e5cf, 0x03d447f6, 0xf72eec32)
  {
    Words16(s);
    Rounds20(s);
    Next(s, 20, 0x1a37b0ca); Next(s, 21, 0x33a23bfc); Next(s, 22, 0x21283486); Next(s, 23, 0xd541f12d);
    Next(s, 24, 0xc7567dc6); Next(s, 25, 0x48413ba4); Next(s, 26, 0xbe35fbd5); Next(s, 27, 0x4aa84d97);
    Next(s, 28, 0x8370b52e); Next(s, 29, 0xc5fbaf5d); Next(s, 30, 0x1267b407); Next(s, 31, 0x3b845d33);
    Next(s, 32, 0x046faa0a); Next(s, 33, 0x2c0ebc11); Next(s, 34, 0x21796ad4); Next(s, 35, 0xdcbbb0cb);
    Next(s, 36, 0x0f511fd8); Next(s, 37, 0xdc63973f); Next(s, 38, 0x4c986405); Next(s, 39, 0x32de1cba);
  }

  lemma Rounds60(s: Trace)
    requires IsTrace(s)
    ensures s.states[60] == Hash(0x3f52de5a, 0x09d785fd, 0x3498bfd4, 0xf211824f, 0xd79915ab)
  {
    Words16(s);
    Words48(s);
    Rounds40(s);
    Next(s, 40, 0xfc87dedf); Next(s, 41, 0x970a0d5c); Next(s, 42, 0x7f193dc5); Next(s, 43, 0xee1b1aaf);
    Next(s, 44, 0x40f28e09); Next(s, 45, 0x1c51e1f2); Next(s, 46, 0xa01b846c); Next(s, 47, 0xbead02ca);
    Next(s, 48, 0xbaf39337); Next(s, 49, 0x120731c5); Next(s, 50, 0x641db2ce); Next(s, 51, 0x3847ad66);
    Next(s, 52, 0xe490436d); Next(s, 53, 0x27e9f1d8); Next(s, 54, 0x7b71f76d); Next(s, 55, 0x5e6456af);
    Next(s, 56, 0xc846093f); Next(s, 57, 0xd262ff50); Next(s, 58, 0x09d785fd); Next(s, 59, 0x3f52de5a);
  }

  lemma Rounds80(s: Trace)
    requires IsTrace(s)
    ensures s.states[80] == Hash(0x42541b35, 0x5738d5e1, 0x21834873, 0x681e6df6, 0xd8fdf6ad)
  {
    Words48(s);
    Rounds60(s);
    Next(s, 60, 0xd756c147); Next(s, 61, 0x548c9cb2); Next(s, 62, 0xb66c020b); Next(s, 63, 0x6b61c9e1);
    Next(s, 64, 0x19dfa7ac); Next(s, 65, 0x101655f9); Next(s, 66, 0x0c3df2b4); Next(s, 67, 0x78dd4d2b);
    Next(s, 68, 0x497093c0); Next(s, 69, 0x3f2588c2); Next(s, 70, 0xc199f8c7); Next(s, 71, 0x39859de7);
    Next(s, 72, 0xedb42de4); Next(s, 73, 0x11793f6f); Next(s, 74, 0x5ee76897); Next(s, 75, 0x63f7dab7);
    Next(s, 76, 0xa079b7d9); Next(s, 77, 0x860d21cc); Next(s, 78, 0x5738d5e1); Next(s, 79, 0x42541b35);
  }

  /** s is what the definition makes of the block. */
  ghost predicate Runs(s: Trace, block: seq<bv8>) {
    && |block| == 64 && |s.words| == 80 && |s.states| == 81
    && (forall t: nat {:trigger s.words[t]} :: t < 80 ==> s.words[t] == W(block, t))
    && forall t: nat {:trigger s.states[t]} :: t <= 80 ==> s.states[t] == Rounds(INITIAL, block, t)
  }

  lemma RunMixes(s: Trace, block: seq<bv8>, t: nat)
    requires Runs(s, block) && 16 <= t < 80
    ensures Mixes(s, t)
  {
    assert s.words[t] == W(block, t) && s.words[t - 3] == W(block, t - 3) && s.words[t - 8] == W(block, t - 8);
    assert s.words[t - 14] == W(block, t - 14) && s.words[t - 16] == W(block, t - 16);
  }

  lemma RunTurns(s: Trace, block: seq<bv8>, t: nat)
    requires Runs(s, block) && t < 80
    ensures Turns(s, t)
  {
    assert s.states[t + 1] == Rounds(INITIAL, block, t + 1) && s.states[t] == Rounds(INITIAL, block, t);
    assert s.words[t] == W(block, t);
  }

  lemma RunStarts(s: Trace, block: seq<bv8>, t: nat)
    requires Runs(s, block) && t < 16
    ensures s.words[t] == BigEndian(block[4 * t], block[4 * t + 1], block[4 * t + 2], block[4 * t + 3])
    ensures s.states[0] == INITIAL
  {
    assert s.words[t] == W(block, t) && s.states[0] == Rounds(INITIAL, block, 0);
  }

  lemma StartOfAbc(s: Trace)
    requires Runs(s, Block())
    ensures s.words[0] == 0x61626380 && s.words[15] == 24 && (forall t :: 1 <= t < 15 ==> s.words[t] == 0)
  {
    RunStarts(s, Block(), 0);
    RunStarts(s, Block(), 15);
    forall t | 1 <= t < 15 ensures s.words[t] == 0 {
      RunStarts(s, Block(), t);
    }
  }

  lemma TraceOfAbc(s: Trace)
    requires Runs(s, Block())
    ensures IsTrace(s)
  {
    StartOfAbc(s);
    RunStarts(s, Block(), 0);
    forall t: nat | 16 <= t < 80 ensures Mixes(s, t) {
      RunMixes(s, Block(), t);
    }
    forall t: nat | t < 80 ensures Turns(s, t) {
      RunTurns(s, Block(), t);
    }
  }

  lemma HasTrace(block: seq<bv8>) returns (s: Trace)
    requires |block| == 64
    ensures Runs(s, block)
  {
    s := Trace(seq(80, t requires 0 <= t < 80 => W(block, t)),
               seq(81, t requires 0 <= t <= 80 => Rounds(INITIAL, block, t)));
  }

  lemma RunEnds(s: Trace, block: seq<bv8>)
    requires Runs(s, block)
    ensures Absorb(block) == Sum(INITIAL, s.states[80])
  {
    assert s.states[80] == Rounds(INITIAL, block, 80);
    assert block[64 - 64..] == block && block[..0] == [];
  }

  lemma SumOfAbc(s: Trace)
    requires IsTrace(s)
    ensures Sum(INITIAL, s.states[80]) == Hash(0xa9993e36, 0x4706816a, 0xba3e2571, 0x7850c26c, 0x9cd0d89d)
  {
    Rounds80(s);
  }

  lemma AbsorbedAbc()
    ensures Absorb(Block()) == Hash(0xa9993e36, 0x4706816a, 0xba3e2571, 0x7850c26c, 0x9cd0d89d)
  {
    var s := HasTrace(Block());
    TraceOfAbc(s);
    SumOfAbc(s);
    RunEnds(s, Block());
  }

  lemma BytesOfAbc()
    ensures HashBytes(Hash(0xa9993e36, 0x4706816a, 0xba3e2571, 0x7850c26c, 0x9cd0d89d)) ==
            [0xa9, 0x99, 0x3e, 0x36, 0x47, 0x06, 0x81, 0x6a, 0xba, 0x3e, 0x25, 0x71,
             0x78, 0x50, 0xc2, 0x6c, 0x9c, 0xd0, 0xd8, 0x9d]
  {
  }

  lemma DigestIs(m: seq<bv8>, p: seq<bv8>, h: Hash)
    requires |m| < 100 && |p| % 64 == 0 && Pad(m) == p && Absorb(p) == h
    ensures Digest(m) == HashBytes(h)
  {
  }

  /** a9993e36 4706816a ba3e2571 7850c26c 9cd0d89d */
  lemma DigestOfAbc()
    ensures Digest(ABC) == [0xa9, 0x99, 0x3e, 0x36, 0x47, 0x06, 0x81, 0x6a, 0xba, 0x3e, 0x25, 0x71,
                            0x78, 0x50, 0xc2, 0x6c, 0x9c, 0xd0, 0xd8, 0x9d]
  {
    OneBlock();
    AbsorbedAbc();
    DigestIs(ABC, Block(), Hash(0xa9993e36, 0x4706816a, 0xba3e2571, 0x7850c26c, 0x9cd0d89d));
    BytesOfAbc();
  }
}
