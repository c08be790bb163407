/** The one-block example of FIPS 180-4, worked out: the registers and the schedule through all
    rounds, and the digest of the three octets "abc", as literals. */
module Sha1Example {
  import opened Bytes
  import opened Sha1Spec

  /** The padded message: "abc", a bit, zeros, and the length 24. */
  predicate AbcBlock(b: seq<byte>)
  {
    && |b| == 64 && b[0] == 0x61 && b[1] == 0x62 && b[2] == 0x63 && b[3] == 0x80
    && (forall i :: 4 <= i < 63 ==> b[i] == 0) && b[63] == 24
  }

  lemma PadAbc(m: seq<byte>)
    requires m == [0x61, 0x62, 0x63]
    ensures AbcBlock(Pad(m))
  {
    LengthOfAbc();
    hide ToBe;
    assert ZeroCount(3) == 52;
  }

  lemma LengthOfAbc()
    ensures ToBe(24, 8) == [0, 0, 0, 0, 0, 0, 0, 24]
  {
    assert ToBe(0, 1) == [0] && ToBe(0, 3) == ToBe(0, 2) + [0] && ToBe(0, 5) == ToBe(0, 4) + [0];
    assert ToBe(0, 7) == ToBe(0, 6) + [0];
  }

  lemma FirstWord(b: seq<byte>, t: nat)
    requires AbcBlock(b) && t < 16
    ensures |b| == 64 && W(b, t) == if t == 0 then 0x61626380 else if t == 15 then 0x00000018 else 0
  {
    hide W, BigEndian;
    ItsWord(b, t);
    ThreeWords();
    if 0 < t < 15 {
      assert b[t * 4] == 0 && b[t * 4 + 1] == 0 && b[t * 4 + 2] == 0 && b[t * 4 + 3] == 0;
    }
  }

  lemma ThreeWords()
    ensures BigEndian(0x61, 0x62, 0x63, 0x80) == 0x61626380
    ensures BigEndian(0, 0, 0, 24) == 24 && BigEndian(0, 0, 0, 0) == 0
  {
  }

  lemma ItsWord(b: seq<byte>, t: nat)
    requires |b| == 64 && t < 16
    ensures W(b, t) == BigEndian(b[t * 4], b[t * 4 + 1], b[t * 4 + 2], b[t * 4 + 3])
  {
  }

  lemma NextWord(b: seq<byte>, t: nat)
    requires |b| == 64 && 16 <= t < 80
    ensures W(b, t) == Expand(W(b, t - 3), W(b, t - 8), W(b, t - 14), W(b, t - 16))
  {
  }

  /** The new first register of a round. */
  function Sum(t: nat, a: word, b: word, c: word, d: word, e: word, w: word): word
    requires t < 80
  {
    Round(Regs(a, b, c, d, e), t, w).a
  }

  lemma NextRound(b: seq<byte>, n: nat)
    requires |b| == 64 && n < 80
    ensures var r := Rounds(H0, b, n);
      Rounds(H0, b, n + 1) == Regs(Sum(n, r.a, r.b, r.c, r.d, r.e, W(b, n)), r.a, Rotl(30, r.b), r.c, r.d)
  {
    hide W, F, K, Add;
  }

  /** The registers before round n, and the next sixteen words. */
  datatype Trace = Trace(
    r: Regs, w0: word, w1: word, w2: word, w3: word, w4: word, w5: word, w6: word, w7: word,
    w8: word, w9: word, w10: word, w11: word, w12: word, w13: word, w14: word, w15: word)

  predicate At(b: seq<byte>, n: nat, s: Trace)
  {
    && |b| == 64 && 16 <= n <= 64 && s.r == Rounds(H0, b, n)
    && s.w0 == W(b, n) && s.w1 == W(b, n + 1) && s.w2 == W(b, n + 2) && s.w3 == W(b, n + 3)
    && s.w4 == W(b, n + 4) && s.w5 == W(b, n + 5) && s.w6 == W(b, n + 6) && s.w7 == W(b, n + 7)
    && s.w8 == W(b, n + 8) && s.w9 == W(b, n + 9) && s.w10 == W(b, n + 10) && s.w11 == W(b, n + 11)
    && s.w12 == W(b, n + 12) && s.w13 == W(b, n + 13) && s.w14 == W(b, n + 14) && s.w15 == W(b, n + 15)
  }

  lemma Words0()
    ensures Expand(0x00000000, 0x00000000, 0x00000000, 0x61626380) == 0xc2c4c700
    ensures Expand(0x00000000, 0x00000000, 0x00000000, 0x00000000) == 0x00000000
    ensures Expand(0x00000018, 0x00000000, 0x00000000, 0x00000000) == 0x00000030
    ensures Expand(0xc2c4c700, 0x00000000, 0x00000000, 0x00000000) == 0x85898e01
    ensures Expand(0x00000000, 0x00000000, 0x00000000, 0x00000000) == 0x00000000
    ensures Expand(0x00000030, 0x00000000, 0x00000000, 0x00000000) == 0x00000060
    ensures Expand(0x85898e01, 0x00000000, 0x00000000, 0x00000000) == 0x0b131c03
    ensures Expand(0x00000000, 0x00000018, 0x00000000, 0x00000000) == 0x00000030
    ensures Expand(0x00000060, 0xc2c4c700, 0x00000000, 0x00000000) == 0x85898ec1
    ensures Expand(0x0b131c03, 0x00000000, 0x00000000, 0x00000000) == 0x16263806
    ensures Expand(0x00000030, 0x00000030, 0x00000000, 0x00000000) == 0x00000000
    ensures Expand(0x85898ec1, 0x85898e01, 0x00000000, 0x00000000) == 0x00000180
    ensures Expand(0x16263806, 0x00000000, 0x00000000, 0x00000000) == 0x2c4c700c
    ensures Expand(0x00000000, 0x00000060, 0x00000018, 0x00000000) == 0x000000f0
    ensures Expand(0x00000180, 0x0b131c03, 0xc2c4c700, 0x00000000) == 0x93afb507
    ensures Expand(0x2c4c700c, 0x00000030, 0x00000000, 0x00000018) == 0x5898e048
  {
  }

  lemma Sums16()
    ensures Sum(16, 0x20bdd62f, 0x196bee77, 0x644a3da5, 0x1181ed99, 0x18c623f9, 0xc2c4c700) == 0x4e925823
    ensures Rotl(30, 0x196bee77) == 0xc65afb9d
    ensures Sum(17, 0x4e925823, 0x20bdd62f, 0xc65afb9d, 0x644a3da5, 0x1181ed99, 0x00000000) == 0x82aa6728
    ensures Rotl(30, 0x20bdd62f) == 0xc82f758b
    ensures Sum(18, 0x82aa6728, 0x4e925823, 0xc82f758b, 0xc65afb9d, 0x644a3da5, 0x00000030) == 0xdc64901d
    ensures Rotl(30, 0x4e925823) == 0xd3a49608
    ensures Sum(19, 0xdc64901d, 0x82aa6728, 0xd3a49608, 0xc82f758b, 0xc65afb9d, 0x85898e01) == 0xfd9e1d7d
    ensures Rotl(30, 0x82aa6728) == 0x20aa99ca
    ensures Sum(20, 0xfd9e1d7d, 0xdc64901d, 0x20aa99ca, 0xd3a49608, 0xc82f758b, 0x00000000) == 0x1a37b0ca
    ensures Rotl(30, 0xdc64901d) == 0x77192407
    ensures Sum(21, 0x1a37b0ca, 0xfd9e1d7d, 0x77192407, 0x20aa99ca, 0xd3a49608, 0x00000060) == 0x33a23bfc
    ensures Rotl(30, 0xfd9e1d7d) == 0x7f67875f
    ensures Sum(22, 0x33a23bfc, 0x1a37b0ca, 0x7f67875f, 0x77192407, 0x20aa99ca, 0x0b131c03) == 0x21283486
    ensures Rotl(30, 0x1a37b0ca) == 0x868dec32
    ensures Sum(23, 0x21283486, 0x33a23bfc, 0x868dec32, 0x7f67875f, 0x77192407, 0x00000030) == 0xd541f12d
    ensures Rotl(30, 0x33a23bfc) == 0x0ce88eff
    ensures Sum(24, 0xd541f12d, 0x21283486, 0x0ce88eff, 0x868dec32, 0x7f67875f, 0x85898ec1) == 0xc7567dc6
    ensures Rotl(30, 0x21283486) == 0x884a0d21
    ensures Sum(25, 0xc7567dc6, 0xd541f12d, 0x884a0d21, 0x0ce88eff, 0x868dec32, 0x16263806) == 0x48413ba4
    ensures Rotl(30, 0xd541f12d) == 0x75507c4b
    ensures Sum(26, 0x48413ba4, 0xc7567dc6, 0x75507c4b, 0x884a0d21, 0x0ce88eff, 0x00000000) == 0xbe35fbd5
    ensures Rotl(30, 0xc7567dc6) == 0xb1d59f71
    ensures Sum(27, 0xbe35fbd5, 0x48413ba4, 0xb1d59f71, 0x75507c4b, 0x884a0d21, 0x00000180) == 0x4aa84d97
    ensures Rotl(30, 0x48413ba4) == 0x12104ee9
    ensures Sum(28, 0x4aa84d97, 0xbe35fbd5, 0x12104ee9, 0xb1d59f71, 0x75507c4b, 0x2c4c700c) == 0x8370b52e
    ensures Rotl(30, 0xbe35fbd5) == 0x6f8d7ef5
    ensures Sum(29, 0x8370b52e, 0x4aa84d97, 0x6f8d7ef5, 0x12104ee9, 0xb1d59f71, 0x000000f0) == 0xc5fbaf5d
    ensures Rotl(30, 0x4aa84d97) == 0xd2aa1365
    ensures Sum(30, 0xc5fbaf5d, 0x8370b52e, 0xd2aa1365, 0x6f8d7ef5, 0x12104ee9, 0x93afb507) == 0x1267b407
    ensures Rotl(30, 0x8370b52e) == 0xa0dc2d4b
    ensures Sum(31, 0x1267b407, 0xc5fbaf5d, 0xa0dc2d4b, 0xd2aa1365, 0x6f8d7ef5, 0x5898e048) == 0x3b845d33
    ensures Rotl(30, 0xc5fbaf5d) == 0x717eebd7
  {
  }

  lemma Words16()
    ensures Expand(0x000000f0, 0x85898ec1, 0x00000030, 0xc2c4c700) == 0x8e9a9202
    ensures Expand(0x93afb507, 0x16263806, 0x85898e01, 0x00000000) == 0x00000600
    ensures Expand(0x5898e048, 0x00000000, 0x00000000, 0x00000030) == 0xb131c0f0
    ensures Expand(0x8e9a9202, 0x00000180, 0x00000060, 0x85898e01) == 0x16263bc6
    ensures Expand(0x00000600, 0x2c4c700c, 0x0b131c03, 0x00000000) == 0x4ebed41e
    ensures Expand(0xb131c0f0, 0x000000f0, 0x00000030, 0x00000060) == 0x626380a1
    ensures Expand(0x16263bc6, 0x93afb507, 0x85898ec1, 0x0b131c03) == 0x16263806
    ensures Expand(0x4ebed41e, 0x5898e048, 0x16263806, 0x00000030) == 0x000018c0
    ensures Expand(0x626380a1, 0x8e9a9202, 0x00000000, 0x85898ec1) == 0xd2e138c4
    ensures Expand(0x16263806, 0x00000600, 0x00000180, 0x16263806) == 0x00000f00
    ensures Expand(0x000018c0, 0xb131c0f0, 0x2c4c700c, 0x00000000) == 0x3afb5079
    ensures Expand(0xd2e138c4, 0x16263bc6, 0x000000f0, 0x00000180) == 0x898e04e5
    ensures Expand(0x00000f00, 0x4ebed41e, 0x93afb507, 0x2c4c700c) == 0xe2ba3c2b
    ensures Expand(0x3afb5079, 0x626380a1, 0x5898e048, 0x000000f0) == 0x000060c0
    ensures Expand(0x898e04e5, 0x16263806, 0x8e9a9202, 0x93afb507) == 0x053a37cd
    ensures Expand(0xe2ba3c2b, 0x000018c0, 0x00000600, 0x5898e048) == 0x74458547
  {
  }

  lemma Sums32()
    ensures Sum(32, 0x3b845d33, 0x1267b407, 0x717eebd7, 0xa0dc2d4b, 0xd2aa1365, 0x8e9a9202) == 0x046faa0a
    ensures Rotl(30, 0x1267b407) == 0xc499ed01
    ensures Sum(33, 0x046faa0a, 0x3b845d33, 0xc499ed01, 0x717eebd7, 0xa0dc2d4b, 0x00000600) == 0x2c0ebc11
    ensures Rotl(30, 0x3b845d33) == 0xcee1174c
    ensures Sum(34, 0x2c0ebc11, 0x046faa0a, 0xcee1174c, 0xc499ed01, 0x717eebd7, 0xb131c0f0) == 0x21796ad4
    ensures Rotl(30, 0x046faa0a) == 0x811bea82
    ensures Sum(35, 0x21796ad4, 0x2c0ebc11, 0x811bea82, 0xcee1174c, 0xc499ed01, 0x16263bc6) == 0xdcbbb0cb
    ensures Rotl(30, 0x2c0ebc11) == 0x4b03af04
    ensures Sum(36, 0xdcbbb0cb, 0x21796ad4, 0x4b03af04, 0x811bea82, 0xcee1174c, 0x4ebed41e) == 0x0f511fd8
    ensures Rotl(30, 0x21796ad4) == 0x085e5ab5
    ensures Sum(37, 0x0f511fd8, 0xdcbbb0cb, 0x085e5ab5, 0x4b03af04, 0x811bea82, 0x626380a1) == 0xdc63973f
    ensures Rotl(30, 0xdcbbb0cb) == 0xf72eec32
    ensures Sum(38, 0xdc63973f, 0x0f511fd8, 0xf72eec32, 0x085e5ab5, 0x4b03af04, 0x16263806) == 0x4c986405
    ensures Rotl(30, 0x0f511fd8) == 0x03d447f6
    ensures Sum(39, 0x4c986405, 0xdc63973f, 0x03d447f6, 0xf72eec32, 0x085e5ab5, 0x000018c0) == 0x32de1cba
    ensures Rotl(30, 0xdc63973f) == 0xf718e5cf
    ensures Sum(40, 0x32de1cba, 0x4c986405, 0xf718e5cf, 0x03d447f6, 0xf72eec32, 0xd2e138c4) == 0xfc87dedf
    ensures Rotl(30, 0x4c986405) == 0x53261901
    ensures Sum(41, 0xfc87dedf, 0x32de1cba, 0x53261901, 0xf718e5cf, 0x03d447f6, 0x00000f00) == 0x970a0d5c
    ensures Rotl(30, 0x32de1cba) == 0x8cb7872e
    ensures Sum(42, 0x970a0d5c, 0xfc87dedf, 0x8cb7872e, 0x53261901, 0xf718e5cf, 0x3afb5079) == 0x7f193dc5
    ensures Rotl(30, 0xfc87dedf) == 0xff21f7b7
    ensures Sum(43, 0x7f193dc5, 0x970a0d5c, 0xff21f7b7, 0x8cb7872e, 0x53261901, 0x898e04e5) == 0xee1b1aaf
    ensures Rotl(30, 0x970a0d5c) == 0x25c28357
    ensures Sum(44, 0xee1b1aaf, 0x7f193dc5, 0x25c28357, 0xff21f7b7, 0x8cb7872e, 0xe2ba3c2b) == 0x40f28e09
    ensures Rotl(30, 0x7f193dc5) == 0x5fc64f71
    ensures Sum(45, 0x40f28e09, 0xee1b1aaf, 0x5fc64f71, 0x25c28357, 0xff21f7b7, 0x000060c0) == 0x1c51e1f2
    ensures Rotl(30, 0xee1b1aaf) == 0xfb86c6ab
    ensures Sum(46, 0x1c51e1f2, 0x40f28e09, 0xfb86c6ab, 0x5fc64f71, 0x25c28357, 0x053a37cd) == 0xa01b846c
    ensures Rotl(30, 0x40f28e09) == 0x503ca382
    ensures Sum(47, 0xa01b846c, 0x1c51e1f2, 0x503ca382, 0xfb86c6ab, 0x5fc64f71, 0x74458547) == 0xbead02ca
    ensures Rotl(30, 0x1c51e1f2) == 0x8714787c
  {
  }

  lemma Words32()
    ensures Expand(0x000060c0, 0xd2e138c4, 0xb131c0f0, 0x8e9a9202) == 0xda9415ed
    ensures Expand(0x053a37cd, 0x00000f00, 0x16263bc6, 0x00000600) == 0x26380a16
    ensures Expand(0x74458547, 0x3afb5079, 0x4ebed41e, 0xb131c0f0) == 0x626383a1
    ensures Expand(0xda9415ed, 0x898e04e5, 0x626380a1, 0x16263bc6) == 0x4ebf54de
    ensures Expand(0x26380a16, 0xe2ba3c2b, 0x16263806, 0x4ebed41e) == 0x3835b44b
    ensures Expand(0x626383a1, 0x000060c0, 0x000018c0, 0x626380a1) == 0x0000f600
    ensures Expand(0x4ebf54de, 0x053a37cd, 0xd2e138c4, 0x16263806) == 0x1e84c7a3
    ensures Expand(0x3835b44b, 0x74458547, 0x00000f00, 0x000018c0) == 0x98e04d98
    ensures Expand(0x0000f600, 0xda9415ed, 0x3afb5079, 0xd2e138c4) == 0x651d16a0
    ensures Expand(0x1e84c7a3, 0x26380a16, 0x898e04e5, 0x00000f00) == 0x62658ca1
    ensures Expand(0x98e04d98, 0x626383a1, 0xe2ba3c2b, 0x3afb5079) == 0x458544d6
    ensures Expand(0x651d16a0, 0x4ebf54de, 0x000060c0, 0x898e04e5) == 0x44584cb7
    ensures Expand(0x62658ca1, 0x3835b44b, 0x053a37cd, 0xe2ba3c2b) == 0x7ba06619
    ensures Expand(0x458544d6, 0x0000f600, 0x74458547, 0x000060c0) == 0x6380aea2
    ensures Expand(0x44584cb7, 0x1e84c7a3, 0xda9415ed, 0x053a37cd) == 0x0ae55269
    ensures Expand(0x7ba06619, 0x98e04d98, 0x26380a16, 0x74458547) == 0x627b49a1
  {
  }

  lemma Sums48()
    ensures Sum(48, 0xbead02ca, 0xa01b846c, 0x8714787c, 0x503ca382, 0xfb86c6ab, 0xda9415ed) == 0xbaf39337
    ensures Rotl(30, 0xa01b846c) == 0x2806e11b
    ensures Sum(49, 0xbaf39337, 0xbead02ca, 0x2806e11b, 0x8714787c, 0x503ca382, 0x26380a16) == 0x120731c5
    ensures Rotl(30, 0xbead02ca) == 0xafab40b2
    ensures Sum(50, 0x120731c5, 0xbaf39337, 0xafab40b2, 0x2806e11b, 0x8714787c, 0x626383a1) == 0x641db2ce
    ensures Rotl(30, 0xbaf39337) == 0xeebce4cd
    ensures Sum(51, 0x641db2ce, 0x120731c5, 0xeebce4cd, 0xafab40b2, 0x2806e11b, 0x4ebf54de) == 0x3847ad66
    ensures Rotl(30, 0x120731c5) == 0x4481cc71
    ensures Sum(52, 0x3847ad66, 0x641db2ce, 0x4481cc71, 0xeebce4cd, 0xafab40b2, 0x3835b44b) == 0xe490436d
    ensures Rotl(30, 0x641db2ce) == 0x99076cb3
    ensures Sum(53, 0xe490436d, 0x3847ad66, 0x99076cb3, 0x4481cc71, 0xeebce4cd, 0x0000f600) == 0x27e9f1d8
    ensures Rotl(30, 0x3847ad66) == 0x8e11eb59
    ensures Sum(54, 0x27e9f1d8, 0xe490436d, 0x8e11eb59, 0x99076cb3, 0x4481cc71, 0x1e84c7a3) == 0x7b71f76d
    ensures Rotl(30, 0xe490436d) == 0x792410db
    ensures Sum(55, 0x7b71f76d, 0x27e9f1d8, 0x792410db, 0x8e11eb59, 0x99076cb3, 0x98e04d98) == 0x5e6456af
    ensures Rotl(30, 0x27e9f1d8) == 0x09fa7c76
    ensures Sum(56, 0x5e6456af, 0x7b71f76d, 0x09fa7c76, 0x792410db, 0x8e11eb59, 0x651d16a0) == 0xc846093f
    ensures Rotl(30, 0x7b71f76d) == 0x5edc7ddb
    ensures Sum(57, 0xc846093f, 0x5e6456af, 0x5edc7ddb, 0x09fa7c76, 0x792410db, 0x62658ca1) == 0xd262ff50
    ensures Rotl(30, 0x5e6456af) == 0xd79915ab
    ensures Sum(58, 0xd262ff50, 0xc846093f, 0xd79915ab, 0x5edc7ddb, 0x09fa7c76, 0x458544d6) == 0x09d785fd
    ensures Rotl(30, 0xc846093f) == 0xf211824f
    ensures Sum(59, 0x09d785fd, 0xd262ff50, 0xf211824f, 0xd79915ab, 0x5edc7ddb, 0x44584cb7) == 0x3f52de5a
    ensures Rotl(30, 0xd262ff50) == 0x3498bfd4
    ensures Sum(60, 0x3f52de5a, 0x09d785fd, 0x3498bfd4, 0xf211824f, 0xd79915ab, 0x7ba06619) == 0xd756c147
    ensures Rotl(30, 0x09d785fd) == 0x4275e17f
    ensures Sum(61, 0xd756c147, 0x3f52de5a, 0x4275e17f, 0x3498bfd4, 0xf211824f, 0x6380aea2) == 0x548c9cb2
    ensures Rotl(30, 0x3f52de5a) == 0x8fd4b796
    ensures Sum(62, 0x548c9cb2, 0xd756c147, 0x8fd4b796, 0x4275e17f, 0x3498bfd4, 0x0ae55269) == 0xb66c020b
    ensures Rotl(30, 0xd756c147) == 0xf5d5b051
    ensures Sum(63, 0xb66c020b, 0x548c9cb2, 0xf5d5b051, 0x8fd4b796, 0x4275e17f, 0x627b49a1) == 0x6b61c9e1
    ensures Rotl(30, 0x548c9cb2) == 0x9523272c
  {
  }

  lemma Words48()
    ensures Expand(0x6380aea2, 0x651d16a0, 0x626383a1, 0xda9415ed) == 0x7cd45c9d
    ensures Expand(0x0ae55269, 0x62658ca1, 0x4ebf54de, 0x26380a16) == 0x000f0000
    ensures Expand(0x627b49a1, 0x458544d6, 0x3835b44b, 0x626383a1) == 0xfb50753a
    ensures Expand(0x7cd45c9d, 0x44584cb7, 0x0000f600, 0x4ebf54de) == 0xec6765e8
    ensures Expand(0x000f0000, 0x7ba06619, 0x1e84c7a3, 0x3835b44b) == 0xba3c2be2
    ensures Expand(0xfb50753a, 0x6380aea2, 0x98e04d98, 0x0000f600) == 0x0060c000
    ensures Expand(0xec6765e8, 0x0ae55269, 0x651d16a0, 0x1e84c7a3) == 0x3a37cd05
    ensures Expand(0xba3c2be2, 0x627b49a1, 0x62658ca1, 0x98e04d98) == 0x458546f4
    ensures Expand(0x0060c000, 0x7cd45c9d, 0x458544d6, 0x651d16a0) == 0xb8599dd6
    ensures Expand(0x3a37cd05, 0x000f0000, 0x44584cb7, 0x62658ca1) == 0x380a1a26
    ensures Expand(0x458546f4, 0xfb50753a, 0x7ba06619, 0x458544d6) == 0x01e02203
    ensures Expand(0xb8599dd6, 0xec6765e8, 0x6380aea2, 0x44584cb7) == 0xe7cc3456
    ensures Expand(0x380a1a26, 0xba3c2be2, 0x0ae55269, 0x7ba06619) == 0xe6e60b69
    ensures Expand(0x01e02203, 0x0060c000, 0x627b49a1, 0x6380aea2) == 0x00f60a00
    ensures Expand(0xe7cc3456, 0x3a37cd05, 0x7cd45c9d, 0x0ae55269) == 0x5795ef4f
    ensures Expand(0xe6e60b69, 0x458546f4, 0x000f0000, 0x627b49a1) == 0x822e0879
  {
  }

  lemma Sums64()
    ensures Sum(64, 0x6b61c9e1, 0xb66c020b, 0x9523272c, 0xf5d5b051, 0x8fd4b796, 0x7cd45c9d) == 0x19dfa7ac
    ensures Rotl(30, 0xb66c020b) == 0xed9b0082
    ensures Sum(65, 0x19dfa7ac, 0x6b61c9e1, 0xed9b0082, 0x9523272c, 0xf5d5b051, 0x000f0000) == 0x101655f9
    ensures Rotl(30, 0x6b61c9e1) == 0x5ad87278
    ensures Sum(66, 0x101655f9, 0x19dfa7ac, 0x5ad87278, 0xed9b0082, 0x9523272c, 0xfb50753a) == 0x0c3df2b4
    ensures Rotl(30, 0x19dfa7ac) == 0x0677e9eb
    ensures Sum(67, 0x0c3df2b4, 0x101655f9, 0x0677e9eb, 0x5ad87278, 0xed9b0082, 0xec6765e8) == 0x78dd4d2b
    ensures Rotl(30, 0x101655f9) == 0x4405957e
    ensures Sum(68, 0x78dd4d2b, 0x0c3df2b4, 0x4405957e, 0x0677e9eb, 0x5ad87278, 0xba3c2be2) == 0x497093c0
    ensures Rotl(30, 0x0c3df2b4) == 0x030f7cad
    ensures Sum(69, 0x497093c0, 0x78dd4d2b, 0x030f7cad, 0x4405957e, 0x0677e9eb, 0x0060c000) == 0x3f2588c2
    ensures Rotl(30, 0x78dd4d2b) == 0xde37534a
    ensures Sum(70, 0x3f2588c2, 0x497093c0, 0xde37534a, 0x030f7cad, 0x4405957e, 0x3a37cd05) == 0xc199f8c7
    ensures Rotl(30, 0x497093c0) == 0x125c24f0
    ensures Sum(71, 0xc199f8c7, 0x3f2588c2, 0x125c24f0, 0xde37534a, 0x030f7cad, 0x458546f4) == 0x39859de7
    ensures Rotl(30, 0x3f2588c2) == 0x8fc96230
    ensures Sum(72, 0x39859de7, 0xc199f8c7, 0x8fc96230, 0x125c24f0, 0xde37534a, 0xb8599dd6) == 0xedb42de4
    ensures Rotl(30, 0xc199f8c7) == 0xf0667e31
    ensures Sum(73, 0xedb42de4, 0x39859de7, 0xf0667e31, 0x8fc96230, 0x125c24f0, 0x380a1a26) == 0x11793f6f
    ensures Rotl(30, 0x39859de7) == 0xce616779
    ensures Sum(74, 0x11793f6f, 0xedb42de4, 0xce616779, 0xf0667e31, 0x8fc96230, 0x01e02203) == 0x5ee76897
    ensures Rotl(30, 0xedb42de4) == 0x3b6d0b79
    ensures Sum(75, 0x5ee76897, 0x11793f6f, 0x3b6d0b79, 0xce616779, 0xf0667e31, 0xe7cc3456) == 0x63f7dab7
    ensures Rotl(30, 0x11793f6f) == 0xc45e4fdb
    ensures Sum(76, 0x63f7dab7, 0x5ee76897, 0xc45e4fdb, 0x3b6d0b79, 0xce616779, 0xe6e60b69) == 0xa079b7d9
    ensures Rotl(30, 0x5ee76897) == 0xd7b9da25
    ensures Sum(77, 0xa079b7d9, 0x63f7dab7, 0xd7b9da25, 0xc45e4fdb, 0x3b6d0b79, 0x00f60a00) == 0x860d21cc
    ensures Rotl(30, 0x63f7dab7) == 0xd8fdf6ad
    ensures Sum(78, 0x860d21cc, 0xa079b7d9, 0xd8fdf6ad, 0xd7b9da25, 0xc45e4fdb, 0x5795ef4f) == 0x5738d5e1
    ensures Rotl(30, 0xa079b7d9) == 0x681e6df6
    ensures Sum(79, 0x5738d5e1, 0x860d21cc, 0x681e6df6, 0xd8fdf6ad, 0xd7b9da25, 0x822e0879) == 0x42541b35
    ensures Rotl(30, 0x860d21cc) == 0x21834873
  {
  }

  lemma First4(b: seq<byte>, n: nat)
    requires AbcBlock(b) && n == 4
    ensures |b| == 64 && Rounds(H0, b, n) == Regs(0xcdd8e11b, 0xa1390f08, 0x626414db, 0xc045bf0c, 0x59d148c0)
  {
    NoRounds(b, n - 4);
    hide Rounds, W;
    FirstWord(b, 0);
    NextRound(b, 0);
    assert Rounds(H0, b, 1) == Regs(0x0116fc33, 0x67452301, 0x7bf36ae2, 0x98badcfe, 0x10325476);
    FirstWord(b, 1);
    NextRound(b, 1);
    assert Rounds(H0, b, 2) == Regs(0x8990536d, 0x0116fc33, 0x59d148c0, 0x7bf36ae2, 0x98badcfe);
    FirstWord(b, 2);
    NextRound(b, 2);
    assert Rounds(H0, b, 3) == Regs(0xa1390f08, 0x8990536d, 0xc045bf0c, 0x59d148c0, 0x7bf36ae2);
    FirstWord(b, 3);
    NextRound(b, 3);
  }

  lemma First8(b: seq<byte>, n: nat)
    requires AbcBlock(b) && n == 8
    ensures |b| == 64 && Rounds(H0, b, n) == Regs(0x9e8c07d4, 0x993e30c1, 0x0ff1f290, 0xb3f52677, 0xf3763846)
  {
    First4(b, n - 4);
    hide Rounds, W;
    FirstWord(b, 4);
    NextRound(b, 4);
    assert Rounds(H0, b, 5) == Regs(0xcfd499de, 0xcdd8e11b, 0x284e43c2, 0x626414db, 0xc045bf0c);
    FirstWord(b, 5);
    NextRound(b, 5);
    assert Rounds(H0, b, 6) == Regs(0x3fc7ca40, 0xcfd499de, 0xf3763846, 0x284e43c2, 0x626414db);
    FirstWord(b, 6);
    NextRound(b, 6);
    assert Rounds(H0, b, 7) == Regs(0x993e30c1, 0x3fc7ca40, 0xb3f52677, 0xf3763846, 0x284e43c2);
    FirstWord(b, 7);
    NextRound(b, 7);
  }

  lemma First12(b: seq<byte>, n: nat)
    requires AbcBlock(b) && n == 12
    ensures |b| == 64 && Rounds(H0, b, n) == Regs(0x63188fe4, 0xfbda9e89, 0x60d47e4a, 0x12dab8ca, 0x27a301f5)
  {
    First8(b, n - 4);
    hide Rounds, W;
    FirstWord(b, 8);
    NextRound(b, 8);
    assert Rounds(H0, b, 9) == Regs(0x4b6ae328, 0x9e8c07d4, 0x664f8c30, 0x0ff1f290, 0xb3f52677);
    FirstWord(b, 9);
    NextRound(b, 9);
    assert Rounds(H0, b, 10) == Regs(0x8351f929, 0x4b6ae328, 0x27a301f5, 0x664f8c30, 0x0ff1f290);
    FirstWord(b, 10);
    NextRound(b, 10);
    assert Rounds(H0, b, 11) == Regs(0xfbda9e89, 0x8351f929, 0x12dab8ca, 0x27a301f5, 0x664f8c30);
    FirstWord(b, 11);
    NextRound(b, 11);
  }

  lemma First16(b: seq<byte>, n: nat)
    requires AbcBlock(b) && n == 16
    ensures |b| == 64 && Rounds(H0, b, n) == Regs(0x20bdd62f, 0x196bee77, 0x644a3da5, 0x1181ed99, 0x18c623f9)
  {
    First12(b, n - 4);
    hide Rounds, W;
    FirstWord(b, 12);
    NextRound(b, 12);
    assert Rounds(H0, b, 13) == Regs(0x4607b664, 0x63188fe4, 0x7ef6a7a2, 0x60d47e4a, 0x12dab8ca);
    FirstWord(b, 13);
    NextRound(b, 13);
    assert Rounds(H0, b, 14) == Regs(0x9128f695, 0x4607b664, 0x18c623f9, 0x7ef6a7a2, 0x60d47e4a);
    FirstWord(b, 14);
    NextRound(b, 14);
    assert Rounds(H0, b, 15) == Regs(0x196bee77, 0x9128f695, 0x1181ed99, 0x18c623f9, 0x7ef6a7a2);
    FirstWord(b, 15);
    NextRound(b, 15);
  }

  lemma NoRounds(b: seq<byte>, n: nat)
    requires |b| == 64 && n == 0
    ensures Rounds(H0, b, n) == Regs(0x67452301, 0xefcdab89, 0x98badcfe, 0x10325476, 0xc3d2e1f0)
  {
  }

  lemma After16(b: seq<byte>, n: nat)
    requires AbcBlock(b) && n == 16
    ensures At(b, n,
      Trace(Regs(0x20bdd62f, 0x196bee77, 0x644a3da5, 0x1181ed99, 0x18c623f9),
      0xc2c4c700, 0x00000000, 0x00000030, 0x85898e01, 0x00000000, 0x00000060, 0x0b131c03, 0x00000030,
      0x85898ec1, 0x16263806, 0x00000000, 0x00000180, 0x2c4c700c, 0x000000f0, 0x93afb507, 0x5898e048))
  {
    First16(b, n);
    hide Rounds, W, Expand;
    Words0();
    FirstWord(b, 0); FirstWord(b, 1); FirstWord(b, 2); FirstWord(b, 3);
    FirstWord(b, 4); FirstWord(b, 5); FirstWord(b, 6); FirstWord(b, 7);
    FirstWord(b, 8); FirstWord(b, 9); FirstWord(b, 10); FirstWord(b, 11);
    FirstWord(b, 12); FirstWord(b, 13); FirstWord(b, 14); FirstWord(b, 15);
    NextWord(b, 16); NextWord(b, 17); NextWord(b, 18); NextWord(b, 19);
    NextWord(b, 20); NextWord(b, 21); NextWord(b, 22); NextWord(b, 23);
    NextWord(b, 24); NextWord(b, 25); NextWord(b, 26); NextWord(b, 27);
    NextWord(b, 28); NextWord(b, 29); NextWord(b, 30); NextWord(b, 31);
  }

  lemma After24(b: seq<byte>, n: nat)
    requires AbcBlock(b) && n == 24
    ensures At(b, n,
      Trace(Regs(0xd541f12d, 0x21283486, 0x0ce88eff, 0x868dec32, 0x7f67875f),
      0x85898ec1, 0x16263806, 0x00000000, 0x00000180, 0x2c4c700c, 0x000000f0, 0x93afb507, 0x5898e048,
      0x8e9a9202, 0x00000600, 0xb131c0f0, 0x16263bc6, 0x4ebed41e, 0x626380a1, 0x16263806, 0x000018c0))
  {
    After16(b, n - 8);
    hide Rounds, W, Expand, Sum, Rotl, AbcBlock;
    Sums16();
    Words16();
    NextRound(b, 16); NextRound(b, 17); NextRound(b, 18); NextRound(b, 19);
    NextRound(b, 20); NextRound(b, 21); NextRound(b, 22); NextRound(b, 23);
    NextWord(b, 32); NextWord(b, 33); NextWord(b, 34); NextWord(b, 35);
    NextWord(b, 36); NextWord(b, 37); NextWord(b, 38); NextWord(b, 39);
  }

  lemma After32(b: seq<byte>, n: nat)
    requires AbcBlock(b) && n == 32
    ensures At(b, n,
      Trace(Regs(0x3b845d33, 0x1267b407, 0x717eebd7, 0xa0dc2d4b, 0xd2aa1365),
      0x8e9a9202, 0x00000600, 0xb131c0f0, 0x16263bc6, 0x4ebed41e, 0x626380a1, 0x16263806, 0x000018c0,
      0xd2e138c4, 0x00000f00, 0x3afb5079, 0x898e04e5, 0xe2ba3c2b, 0x000060c0, 0x053a37cd, 0x74458547))
  {
    After24(b, n - 8);
    hide Rounds, W, Expand, Sum, Rotl, AbcBlock;
    Sums16();
    Words16();
    NextRound(b, 24); NextRound(b, 25); NextRound(b, 26); NextRound(b, 27);
    NextRound(b, 28); NextRound(b, 29); NextRound(b, 30); NextRound(b, 31);
    NextWord(b, 40); NextWord(b, 41); NextWord(b, 42); NextWord(b, 43);
    NextWord(b, 44); NextWord(b, 45); NextWord(b, 46); NextWord(b, 47);
  }

  lemma After40(b: seq<byte>, n: nat)
    requires AbcBlock(b) && n == 40
    ensures At(b, n,
      Trace(Regs(0x32de1cba, 0x4c986405, 0xf718e5cf, 0x03d447f6, 0xf72eec32),
      0xd2e138c4, 0x00000f00, 0x3afb5079, 0x898e04e5, 0xe2ba3c2b, 0x000060c0, 0x053a37cd, 0x74458547,
      0xda9415ed, 0x26380a16, 0x626383a1, 0x4ebf54de, 0x3835b44b, 0x0000f600, 0x1e84c7a3, 0x98e04d98))
  {
    After32(b, n - 8);
    hide Rounds, W, Expand, Sum, Rotl, AbcBlock;
    Sums32();
    Words32();
    NextRound(b, 32); NextRound(b, 33); NextRound(b, 34); NextRound(b, 35);
    NextRound(b, 36); NextRound(b, 37); NextRound(b, 38); NextRound(b, 39);
    NextWord(b, 48); NextWord(b, 49); NextWord(b, 50); NextWord(b, 51);
    NextWord(b, 52); NextWord(b, 53); NextWord(b, 54); NextWord(b, 55);
  }

  lemma After48(b: seq<byte>, n: nat)
    requires AbcBlock(b) && n == 48
    ensures At(b, n,
      Trace(Regs(0xbead02ca, 0xa01b846c, 0x8714787c, 0x503ca382, 0xfb86c6ab),
      0xda9415ed, 0x26380a16, 0x626383a1, 0x4ebf54de, 0x3835b44b, 0x0000f600, 0x1e84c7a3, 0x98e04d98,
      0x651d16a0, 0x62658ca1, 0x458544d6, 0x44584cb7, 0x7ba06619, 0x6380aea2, 0x0ae55269, 0x627b49a1))
  {
    After40(b, n - 8);
    hide Rounds, W, Expand, Sum, Rotl, AbcBlock;
    Sums32();
    Words32();
    NextRound(b, 40); NextRound(b, 41); NextRound(b, 42); NextRound(b, 43);
    NextRound(b, 44); NextRound(b, 45); NextRound(b, 46); NextRound(b, 47);
    NextWord(b, 56); NextWord(b, 57); NextWord(b, 58); NextWord(b, 59);
    NextWord(b, 60); NextWord(b, 61); NextWord(b, 62); NextWord(b, 63);
  }

  lemma After56(b: seq<byte>, n: nat)
    requires AbcBlock(b) && n == 56
    ensures At(b, n,
      Trace(Regs(0x5e6456af, 0x7b71f76d, 0x09fa7c76, 0x792410db, 0x8e11eb59),
      0x651d16a0, 0x62658ca1, 0x458544d6, 0x44584cb7, 0x7ba06619, 0x6380aea2, 0x0ae55269, 0x627b49a1,
      0x7cd45c9d, 0x000f0000, 0xfb50753a, 0xec6765e8, 0xba3c2be2, 0x0060c000, 0x3a37cd05, 0x458546f4))
  {
    After48(b, n - 8);
    hide Rounds, W, Expand, Sum, Rotl, AbcBlock;
    Sums48();
    Words48();
    NextRound(b, 48); NextRound(b, 49); NextRound(b, 50); NextRound(b, 51);
    NextRound(b, 52); NextRound(b, 53); NextRound(b, 54); NextRound(b, 55);
    NextWord(b, 64); NextWord(b, 65); NextWord(b, 66); NextWord(b, 67);
    NextWord(b, 68); NextWord(b, 69); NextWord(b, 70); NextWord(b, 71);
  }

  lemma After64(b: seq<byte>, n: nat)
    requires AbcBlock(b) && n == 64
    ensures At(b, n,
      Trace(Regs(0x6b61c9e1, 0xb66c020b, 0x9523272c, 0xf5d5b051, 0x8fd4b796),
      0x7cd45c9d, 0x000f0000, 0xfb50753a, 0xec6765e8, 0xba3c2be2, 0x0060c000, 0x3a37cd05, 0x458546f4,
      0xb8599dd6, 0x380a1a26, 0x01e02203, 0xe7cc3456, 0xe6e60b69, 0x00f60a00, 0x5795ef4f, 0x822e0879))
  {
    After56(b, n - 8);
    hide Rounds, W, Expand, Sum, Rotl, AbcBlock;
    Sums48();
    Words48();
    NextRound(b, 56); NextRound(b, 57); NextRound(b, 58); NextRound(b, 59);
    NextRound(b, 60); NextRound(b, 61); NextRound(b, 62); NextRound(b, 63);
    NextWord(b, 72); NextWord(b, 73); NextWord(b, 74); NextWord(b, 75);
    NextWord(b, 76); NextWord(b, 77); NextWord(b, 78); NextWord(b, 79);
  }

  lemma After80(b: seq<byte>, n: nat)
    requires AbcBlock(b) && n == 80
    ensures |b| == 64 && Rounds(H0, b, n) ==
            Regs(0x42541b35, 0x5738d5e1, 0x21834873, 0x681e6df6, 0xd8fdf6ad)
  {
    After64(b, n - 16);
    hide Rounds, W, Expand, Sum, Rotl, AbcBlock;
    Sums64();
    NextRound(b, 64); NextRound(b, 65); NextRound(b, 66); NextRound(b, 67);
    NextRound(b, 68); NextRound(b, 69); NextRound(b, 70); NextRound(b, 71);
    NextRound(b, 72); NextRound(b, 73); NextRound(b, 74); NextRound(b, 75);
    NextRound(b, 76); NextRound(b, 77); NextRound(b, 78); NextRound(b, 79);
  }

  lemma AbcHash(b: seq<byte>, n: nat)
    requires AbcBlock(b) && n == 80
    ensures |b| == 64 && Hash(b) == Regs(0xa9993e36, 0x4706816a, 0xba3e2571, 0x7850c26c, 0x9cd0d89d)
  {
    After80(b, n);
    hide Rounds;
    assert b[..0] == [] && b[0..] == b;
  }

  lemma FirstOctets()
    ensures WordBytes(0xa9993e36) == [0xa9, 0x99, 0x3e, 0x36]
  {
  }

  lemma SecondOctets()
    ensures WordBytes(0x4706816a) == [0x47, 0x06, 0x81, 0x6a]
  {
  }

  lemma ThirdOctets()
    ensures WordBytes(0xba3e2571) == [0xba, 0x3e, 0x25, 0x71]
  {
  }

  lemma FourthOctets()
    ensures WordBytes(0x7850c26c) == [0x78, 0x50, 0xc2, 0x6c]
  {
  }

  lemma LastOctets()
    ensures WordBytes(0x9cd0d89d) == [0x9c, 0xd0, 0xd8, 0x9d]
  {
  }

  lemma DigestOctets(h: Regs)
    requires h == Regs(0xa9993e36, 0x4706816a, 0xba3e2571, 0x7850c26c, 0x9cd0d89d)
    ensures RegsBytes(h) == [0xa9, 0x99, 0x3e, 0x36, 0x47, 0x06, 0x81, 0x6a, 0xba, 0x3e,
                        0x25, 0x71, 0x78, 0x50, 0xc2, 0x6c, 0x9c, 0xd0, 0xd8, 0x9d]
  {
    FirstOctets();
    SecondOctets();
    ThirdOctets();
    FourthOctets();
    LastOctets();
    hide WordBytes;
  }

  /** FIPS 180-4: the digest of "abc". */
  lemma AbcDigest(m: seq<byte>)
    requires m == [0x61, 0x62, 0x63]
    ensures Sha1(m) == [0xa9, 0x99, 0x3e, 0x36, 0x47, 0x06, 0x81, 0x6a, 0xba, 0x3e,
                        0x25, 0x71, 0x78, 0x50, 0xc2, 0x6c, 0x9c, 0xd0, 0xd8, 0x9d]
  {
    PadAbc(m);
    PadIsWhole(m);
    hide Pad, AbcBlock, RegsBytes, Hash;
    AbcHash(Pad(m), 80);
    DigestOctets(Hash(Pad(m)));
  }
}
