/**
 The one-block example published with FIPS 180-4: the message "abc". Every schedule word and every round is
 worked out from the definitions, so the constants, the rotations, the order of the registers and the byte
 order all have to be the standard's for this digest to come out.
 */
module Sha256Example {
  import opened Bytes
  import opened Sha256Spec
  import opened Sha256Words

  const ABC: seq<Byte> := [0x61, 0x62, 0x63]

  predicate IsAbc(m: Block) { m == Pad(ABC) }

  predicate Scheduled(m: Block, t: nat, w: bv32)
    requires t < 64
  {
    W(m, t) == Word(w)
  }

  /** The registers after t rounds. */
  predicate After(m: Block, t: nat, a: bv32, b: bv32, c: bv32, d: bv32, e: bv32, f: bv32, g: bv32, h: bv32)
    requires t <= 64
  {
    Rounds(INITIAL, m, t) == Regs(Word(a), Word(b), Word(c), Word(d), Word(e), Word(f), Word(g), Word(h))
  }

  lemma {:induction false} LengthField()
    ensures BigEndian(24, 8) == [0, 0, 0, 0, 0, 0, 0, 24]
  {
    assert BigEndian(0, 4) == [0, 0, 0, 0];
    assert BigEndian(0, 7) == [0, 0, 0, 0, 0, 0, 0];
  }

  lemma {:induction false} AbcBytes(m: Block)
    requires IsAbc(m)
    ensures m[0] == 0x61 && m[1] == 0x62 && m[2] == 0x63 && m[3] == 0x80
    ensures forall i | 4 <= i < 63 :: m[i] == 0
    ensures m[63] == 24
  {
    LengthField();
    hide BigEndian;
  }

  lemma {:induction false} AbcNumbers()
    ensures WordOf(0x61, 0x62, 0x63, 0x80) == Word(0x61626380)
    ensures WordOf(0, 0, 0, 0) == Word(0) && WordOf(0, 0, 0, 24) == Word(24)
  {
    assert BitsFor(6) == 6 && BitsFor(0x61) == 0x61 && BitsFor(0x62) == 0x62 && BitsFor(0x63) == 0x63;
    assert BitsFor(8) == 8 && BitsFor(0x80) == 0x80 && BitsFor(24) == 24;
  }

  lemma {:induction false} MessageWords(m: Block)
    requires IsAbc(m)
    ensures Scheduled(m, 0, 0x61626380) && Scheduled(m, 15, 24)
    ensures Scheduled(m, 1, 0) && Scheduled(m, 2, 0) && Scheduled(m, 3, 0) && Scheduled(m, 4, 0)
    ensures Scheduled(m, 5, 0) && Scheduled(m, 6, 0) && Scheduled(m, 7, 0) && Scheduled(m, 8, 0)
    ensures Scheduled(m, 9, 0) && Scheduled(m, 10, 0) && Scheduled(m, 11, 0) && Scheduled(m, 12, 0)
    ensures Scheduled(m, 13, 0) && Scheduled(m, 14, 0)
  {
    AbcBytes(m);
    AbcNumbers();
    hide WordOf, IsAbc;
  }

  lemma {:induction false} Schedule16(m: Block)
    requires IsAbc(m)
    ensures Scheduled(m, 16, 0x61626380) && Scheduled(m, 17, 0x000f0000)
    ensures Scheduled(m, 18, 0x7da86405) && Scheduled(m, 19, 0x600003c6)
    ensures Scheduled(m, 20, 0x3e9d7b78) && Scheduled(m, 21, 0x0183fc00)
    ensures Scheduled(m, 22, 0x12dcbfdb) && Scheduled(m, 23, 0xe2e2c38e)
  {
    hide IsAbc;
    MessageWords(m);
    assert Scheduled(m, 16, 0x61626380) && Scheduled(m, 17, 0x000f0000);
    assert Scheduled(m, 18, 0x7da86405) && Scheduled(m, 19, 0x600003c6);
    assert Scheduled(m, 20, 0x3e9d7b78) && Scheduled(m, 21, 0x0183fc00);
    assert Scheduled(m, 22, 0x12dcbfdb) && Scheduled(m, 23, 0xe2e2c38e);
  }

  lemma {:induction false} Schedule24(m: Block)
    requires IsAbc(m)
    ensures Scheduled(m, 24, 0xc8215c1a) && Scheduled(m, 25, 0xb73679a2)
    ensures Scheduled(m, 26, 0xe5bc3909) && Scheduled(m, 27, 0x32663c5b)
    ensures Scheduled(m, 28, 0x9d209d67) && Scheduled(m, 29, 0xec8726cb)
    ensures Scheduled(m, 30, 0x702138a4) && Scheduled(m, 31, 0xd3b7973b)
  {
    hide IsAbc;
    MessageWords(m);
    Schedule16(m);
    assert Scheduled(m, 24, 0xc8215c1a) && Scheduled(m, 25, 0xb73679a2);
    assert Scheduled(m, 26, 0xe5bc3909) && Scheduled(m, 27, 0x32663c5b);
    assert Scheduled(m, 28, 0x9d209d67) && Scheduled(m, 29, 0xec8726cb);
    assert Scheduled(m, 30, 0x702138a4) && Scheduled(m, 31, 0xd3b7973b);
  }

  lemma {:induction false} Schedule32(m: Block)
    requires IsAbc(m)
    ensures Scheduled(m, 32, 0x93f5997f) && Scheduled(m, 33, 0x3b68ba73)
    ensures Scheduled(m, 34, 0xaff4ffc1) && Scheduled(m, 35, 0xf10a5c62)
    ensures Scheduled(m, 36, 0x0a8b3996) && Scheduled(m, 37, 0x72af830a)
    ensures Scheduled(m, 38, 0x9409e33e) && Scheduled(m, 39, 0x24641522)
  {
    hide IsAbc;
    Schedule16(m);
    Schedule24(m);
    assert Scheduled(m, 32, 0x93f5997f) && Scheduled(m, 33, 0x3b68ba73);
    assert Scheduled(m, 34, 0xaff4ffc1) && Scheduled(m, 35, 0xf10a5c62);
    assert Scheduled(m, 36, 0x0a8b3996) && Scheduled(m, 37, 0x72af830a);
    assert Scheduled(m, 38, 0x9409e33e) && Scheduled(m, 39, 0x24641522);
  }

  lemma {:induction false} Schedule40(m: Block)
    requires IsAbc(m)
    ensures Scheduled(m, 40, 0x9f47bf94) && Scheduled(m, 41, 0xf0a64f5a)
    ensures Scheduled(m, 42, 0x3e246a79) && Scheduled(m, 43, 0x27333ba3)
    ensures Scheduled(m, 44, 0x0c4763f2) && Scheduled(m, 45, 0x840abf27)
    ensures Scheduled(m, 46, 0x7a290d5d) && Scheduled(m, 47, 0x065c43da)
  {
    hide IsAbc;
    Schedule24(m);
    Schedule32(m);
    assert Scheduled(m, 40, 0x9f47bf94) && Scheduled(m, 41, 0xf0a64f5a);
    assert Scheduled(m, 42, 0x3e246a79) && Scheduled(m, 43, 0x27333ba3);
    assert Scheduled(m, 44, 0x0c4763f2) && Scheduled(m, 45, 0x840abf27);
    assert Scheduled(m, 46, 0x7a290d5d) && Scheduled(m, 47, 0x065c43da);
  }

  lemma {:induction false} Schedule48(m: Block)
    requires IsAbc(m)
    ensures Scheduled(m, 48, 0xfb3e89cb) && Scheduled(m, 49, 0xcc7617db)
    ensures Scheduled(m, 50, 0xb9e66c34) && Scheduled(m, 51, 0xa9993667)
    ensures Scheduled(m, 52, 0x84badedd) && Scheduled(m, 53, 0xc21462bc)
    ensures Scheduled(m, 54, 0x1487472c) && Scheduled(m, 55, 0xb20f7a99)
  {
    hide IsAbc;
    Schedule32(m);
    Schedule40(m);
    assert Scheduled(m, 48, 0xfb3e89cb) && Scheduled(m, 49, 0xcc7617db);
    assert Scheduled(m, 50, 0xb9e66c34) && Scheduled(m, 51, 0xa9993667);
    assert Scheduled(m, 52, 0x84badedd) && Scheduled(m, 53, 0xc21462bc);
    assert Scheduled(m, 54, 0x1487472c) && Scheduled(m, 55, 0xb20f7a99);
  }

  lemma {:induction false} Schedule56(m: Block)
    requires IsAbc(m)
    ensures Scheduled(m, 56, 0xef57b9cd) && Scheduled(m, 57, 0xebe6b238)
    ensures Scheduled(m, 58, 0x9fe3095e) && Scheduled(m, 59, 0x78bc8d4b)
    ensures Scheduled(m, 60, 0xa43fcf15) && Scheduled(m, 61, 0x668b2ff8)
    ensures Scheduled(m, 62, 0xeeaba2cc) && Scheduled(m, 63, 0x12b1edeb)
  {
    hide IsAbc;
    Schedule40(m);
    Schedule48(m);
    assert Scheduled(m, 56, 0xef57b9cd) && Scheduled(m, 57, 0xebe6b238);
    assert Scheduled(m, 58, 0x9fe3095e) && Scheduled(m, 59, 0x78bc8d4b);
    assert Scheduled(m, 60, 0xa43fcf15) && Scheduled(m, 61, 0x668b2ff8);
    assert Scheduled(m, 62, 0xeeaba2cc) && Scheduled(m, 63, 0x12b1edeb);
  }

  lemma {:induction false} Rounds8(m: Block)
    requires IsAbc(m)
    ensures After(m, 8, 0x85a07b5f, 0xe5030380, 0x2b4209f5, 0x04409a6a, 0x0c657a79, 0x9b27a401, 0x714260ad, 0x43ada245)
  {
    hide W, IsAbc;
    MessageWords(m);
    assert After(m, 0, 0x6a09e667, 0xbb67ae85, 0x3c6ef372, 0xa54ff53a, 0x510e527f, 0x9b05688c, 0x1f83d9ab, 0x5be0cd19);
    assert After(m, 1, 0x5d6aebcd, 0x6a09e667, 0xbb67ae85, 0x3c6ef372, 0xfa2a4622, 0x510e527f, 0x9b05688c, 0x1f83d9ab);
    assert After(m, 2, 0x5a6ad9ad, 0x5d6aebcd, 0x6a09e667, 0xbb67ae85, 0x78ce7989, 0xfa2a4622, 0x510e527f, 0x9b05688c);
    assert After(m, 3, 0xc8c347a7, 0x5a6ad9ad, 0x5d6aebcd, 0x6a09e667, 0xf92939eb, 0x78ce7989, 0xfa2a4622, 0x510e527f);
    assert After(m, 4, 0xd550f666, 0xc8c347a7, 0x5a6ad9ad, 0x5d6aebcd, 0x24e00850, 0xf92939eb, 0x78ce7989, 0xfa2a4622);
    assert After(m, 5, 0x04409a6a, 0xd550f666, 0xc8c347a7, 0x5a6ad9ad, 0x43ada245, 0x24e00850, 0xf92939eb, 0x78ce7989);
    assert After(m, 6, 0x2b4209f5, 0x04409a6a, 0xd550f666, 0xc8c347a7, 0x714260ad, 0x43ada245, 0x24e00850, 0xf92939eb);
    assert After(m, 7, 0xe5030380, 0x2b4209f5, 0x04409a6a, 0xd550f666, 0x9b27a401, 0x714260ad, 0x43ada245, 0x24e00850);
  }

  lemma {:induction false} Rounds16(m: Block)
    requires IsAbc(m)
    ensures After(m, 16, 0xb0fa238e, 0xc0645fde, 0xd932eb16, 0x87912990, 0x07590dcd, 0x0b92f20c, 0x745a48de, 0x1e578218)
  {
    hide W, IsAbc;
    MessageWords(m);
    Rounds8(m);
    assert After(m, 9, 0x8e04ecb9, 0x85a07b5f, 0xe5030380, 0x2b4209f5, 0x32ca2d8c, 0x0c657a79, 0x9b27a401, 0x714260ad);
    assert After(m, 10, 0x8c87346b, 0x8e04ecb9, 0x85a07b5f, 0xe5030380, 0x1cc92596, 0x32ca2d8c, 0x0c657a79, 0x9b27a401);
    assert After(m, 11, 0x4798a3f4, 0x8c87346b, 0x8e04ecb9, 0x85a07b5f, 0x436b23e8, 0x1cc92596, 0x32ca2d8c, 0x0c657a79);
    assert After(m, 12, 0xf71fc5a9, 0x4798a3f4, 0x8c87346b, 0x8e04ecb9, 0x816fd6e9, 0x436b23e8, 0x1cc92596, 0x32ca2d8c);
    assert After(m, 13, 0x87912990, 0xf71fc5a9, 0x4798a3f4, 0x8c87346b, 0x1e578218, 0x816fd6e9, 0x436b23e8, 0x1cc92596);
    assert After(m, 14, 0xd932eb16, 0x87912990, 0xf71fc5a9, 0x4798a3f4, 0x745a48de, 0x1e578218, 0x816fd6e9, 0x436b23e8);
    assert After(m, 15, 0xc0645fde, 0xd932eb16, 0x87912990, 0xf71fc5a9, 0x0b92f20c, 0x745a48de, 0x1e578218, 0x816fd6e9);
  }

  lemma {:induction false} Rounds24(m: Block)
    requires IsAbc(m)
    ensures After(m, 24, 0xc5d53d8d, 0xa7a3623f, 0xc2606d6d, 0x9dc68b63, 0xaa47c347, 0x49f5114a, 0xe1257970, 0x8ada8930)
  {
    hide W, IsAbc;
    Schedule16(m);
    Rounds16(m);
    assert After(m, 17, 0x21da9a9b, 0xb0fa238e, 0xc0645fde, 0xd932eb16, 0x8034229c, 0x07590dcd, 0x0b92f20c, 0x745a48de);
    assert After(m, 18, 0xc2fbd9d1, 0x21da9a9b, 0xb0fa238e, 0xc0645fde, 0x846ee454, 0x8034229c, 0x07590dcd, 0x0b92f20c);
    assert After(m, 19, 0xfe777bbf, 0xc2fbd9d1, 0x21da9a9b, 0xb0fa238e, 0xcc899961, 0x846ee454, 0x8034229c, 0x07590dcd);
    assert After(m, 20, 0xe1f20c33, 0xfe777bbf, 0xc2fbd9d1, 0x21da9a9b, 0xb0638179, 0xcc899961, 0x846ee454, 0x8034229c);
    assert After(m, 21, 0x9dc68b63, 0xe1f20c33, 0xfe777bbf, 0xc2fbd9d1, 0x8ada8930, 0xb0638179, 0xcc899961, 0x846ee454);
    assert After(m, 22, 0xc2606d6d, 0x9dc68b63, 0xe1f20c33, 0xfe777bbf, 0xe1257970, 0x8ada8930, 0xb0638179, 0xcc899961);
    assert After(m, 23, 0xa7a3623f, 0xc2606d6d, 0x9dc68b63, 0xe1f20c33, 0x49f5114a, 0xe1257970, 0x8ada8930, 0xb0638179);
  }

  lemma {:induction false} Rounds32(m: Block)
    requires IsAbc(m)
    ensures After(m, 32, 0x73b33bf5, 0xea992a22, 0xa0060b30, 0x363482c9, 0xba591112, 0x0109ab3a, 0xade79437, 0x6112a3b7)
  {
    hide W, IsAbc;
    Schedule24(m);
    Rounds24(m);
    assert After(m, 25, 0x1c2c2838, 0xc5d53d8d, 0xa7a3623f, 0xc2606d6d, 0x2823ef91, 0xaa47c347, 0x49f5114a, 0xe1257970);
    assert After(m, 26, 0xcde8037d, 0x1c2c2838, 0xc5d53d8d, 0xa7a3623f, 0x14383d8e, 0x2823ef91, 0xaa47c347, 0x49f5114a);
    assert After(m, 27, 0xb62ec4bc, 0xcde8037d, 0x1c2c2838, 0xc5d53d8d, 0xc74c6516, 0x14383d8e, 0x2823ef91, 0xaa47c347);
    assert After(m, 28, 0x77d37528, 0xb62ec4bc, 0xcde8037d, 0x1c2c2838, 0xedffbff8, 0xc74c6516, 0x14383d8e, 0x2823ef91);
    assert After(m, 29, 0x363482c9, 0x77d37528, 0xb62ec4bc, 0xcde8037d, 0x6112a3b7, 0xedffbff8, 0xc74c6516, 0x14383d8e);
    assert After(m, 30, 0xa0060b30, 0x363482c9, 0x77d37528, 0xb62ec4bc, 0xade79437, 0x6112a3b7, 0xedffbff8, 0xc74c6516);
    assert After(m, 31, 0xea992a22, 0xa0060b30, 0x363482c9, 0x77d37528, 0x0109ab3a, 0xade79437, 0x6112a3b7, 0xedffbff8);
  }

  lemma {:induction false} Rounds40(m: Block)
    requires IsAbc(m)
    ensures After(m, 40, 0x79ea687a, 0x6dc57a8a, 0x34df1604, 0x41a65cb1, 0x1efbc0a0, 0xf0781bc8, 0xa507a53d, 0x0772a26b)
  {
    hide W, IsAbc;
    Schedule32(m);
    Rounds32(m);
    assert After(m, 33, 0x98e12507, 0x73b33bf5, 0xea992a22, 0xa0060b30, 0x9cd9f5f6, 0xba591112, 0x0109ab3a, 0xade79437);
    assert After(m, 34, 0xfe604df5, 0x98e12507, 0x73b33bf5, 0xea992a22, 0x59249dd3, 0x9cd9f5f6, 0xba591112, 0x0109ab3a);
    assert After(m, 35, 0xa9a7738c, 0xfe604df5, 0x98e12507, 0x73b33bf5, 0x085f3833, 0x59249dd3, 0x9cd9f5f6, 0xba591112);
    assert After(m, 36, 0x65a0cfe4, 0xa9a7738c, 0xfe604df5, 0x98e12507, 0xf4b002d6, 0x085f3833, 0x59249dd3, 0x9cd9f5f6);
    assert After(m, 37, 0x41a65cb1, 0x65a0cfe4, 0xa9a7738c, 0xfe604df5, 0x0772a26b, 0xf4b002d6, 0x085f3833, 0x59249dd3);
    assert After(m, 38, 0x34df1604, 0x41a65cb1, 0x65a0cfe4, 0xa9a7738c, 0xa507a53d, 0x0772a26b, 0xf4b002d6, 0x085f3833);
    assert After(m, 39, 0x6dc57a8a, 0x34df1604, 0x41a65cb1, 0x65a0cfe4, 0xf0781bc8, 0xa507a53d, 0x0772a26b, 0xf4b002d6);
  }

  lemma {:induction false} Rounds48(m: Block)
    requires IsAbc(m)
    ensures After(m, 48, 0x4172328d, 0xa14c14b0, 0x72ab4b91, 0x26628815, 0xfecf0bc6, 0xd57b94a9, 0xb7755da1, 0xa80f11f0)
  {
    hide W, IsAbc;
    Schedule40(m);
    Rounds40(m);
    assert After(m, 41, 0xd6670766, 0x79ea687a, 0x6dc57a8a, 0x34df1604, 0x26352d63, 0x1efbc0a0, 0xf0781bc8, 0xa507a53d);
    assert After(m, 42, 0xdf46652f, 0xd6670766, 0x79ea687a, 0x6dc57a8a, 0x838b2711, 0x26352d63, 0x1efbc0a0, 0xf0781bc8);
    assert After(m, 43, 0x17aa0dfe, 0xdf46652f, 0xd6670766, 0x79ea687a, 0xdecd4715, 0x838b2711, 0x26352d63, 0x1efbc0a0);
    assert After(m, 44, 0x9d4baf93, 0x17aa0dfe, 0xdf46652f, 0xd6670766, 0xfda24c2e, 0xdecd4715, 0x838b2711, 0x26352d63);
    assert After(m, 45, 0x26628815, 0x9d4baf93, 0x17aa0dfe, 0xdf46652f, 0xa80f11f0, 0xfda24c2e, 0xdecd4715, 0x838b2711);
    assert After(m, 46, 0x72ab4b91, 0x26628815, 0x9d4baf93, 0x17aa0dfe, 0xb7755da1, 0xa80f11f0, 0xfda24c2e, 0xdecd4715);
    assert After(m, 47, 0xa14c14b0, 0x72ab4b91, 0x26628815, 0x9d4baf93, 0xd57b94a9, 0xb7755da1, 0xa80f11f0, 0xfda24c2e);
  }

  lemma {:induction false} Rounds56(m: Block)
    requires IsAbc(m)
    ensures After(m, 56, 0x38cc9913, 0x3ec45cdb, 0xf5702fdb, 0x101fd28f, 0x54cb266b, 0xe50e1b4f, 0x9f4787c3, 0x529e7d00)
  {
    hide W, IsAbc;
    Schedule48(m);
    Rounds48(m);
    assert After(m, 49, 0x05757ceb, 0x4172328d, 0xa14c14b0, 0x72ab4b91, 0xbd714038, 0xfecf0bc6, 0xd57b94a9, 0xb7755da1);
    assert After(m, 50, 0xf11bfaa8, 0x05757ceb, 0x4172328d, 0xa14c14b0, 0x6e5c390c, 0xbd714038, 0xfecf0bc6, 0xd57b94a9);
    assert After(m, 51, 0x7a0508a1, 0xf11bfaa8, 0x05757ceb, 0x4172328d, 0x52f1ccf7, 0x6e5c390c, 0xbd714038, 0xfecf0bc6);
    assert After(m, 52, 0x886e7a22, 0x7a0508a1, 0xf11bfaa8, 0x05757ceb, 0x49231c1e, 0x52f1ccf7, 0x6e5c390c, 0xbd714038);
    assert After(m, 53, 0x101fd28f, 0x886e7a22, 0x7a0508a1, 0xf11bfaa8, 0x529e7d00, 0x49231c1e, 0x52f1ccf7, 0x6e5c390c);
    assert After(m, 54, 0xf5702fdb, 0x101fd28f, 0x886e7a22, 0x7a0508a1, 0x9f4787c3, 0x529e7d00, 0x49231c1e, 0x52f1ccf7);
    assert After(m, 55, 0x3ec45cdb, 0xf5702fdb, 0x101fd28f, 0x886e7a22, 0xe50e1b4f, 0x9f4787c3, 0x529e7d00, 0x49231c1e);
  }

  lemma {:induction false} Rounds64(m: Block)
    requires IsAbc(m)
    ensures After(m, 64, 0x506e3058, 0xd39a2165, 0x04d24d6c, 0xb85e2ce9, 0x5ef50f24, 0xfb121210, 0x948d25b6, 0x961f4894)
  {
    hide W, IsAbc;
    Schedule56(m);
    Rounds56(m);
    assert After(m, 57, 0xfcd1887b, 0x38cc9913, 0x3ec45cdb, 0xf5702fdb, 0x9b5e906c, 0x54cb266b, 0xe50e1b4f, 0x9f4787c3);
    assert After(m, 58, 0xc062d46f, 0xfcd1887b, 0x38cc9913, 0x3ec45cdb, 0x7e44008e, 0x9b5e906c, 0x54cb266b, 0xe50e1b4f);
    assert After(m, 59, 0xffb70472, 0xc062d46f, 0xfcd1887b, 0x38cc9913, 0x6d83bfc6, 0x7e44008e, 0x9b5e906c, 0x54cb266b);
    assert After(m, 60, 0xb6ae8fff, 0xffb70472, 0xc062d46f, 0xfcd1887b, 0xb21bad3d, 0x6d83bfc6, 0x7e44008e, 0x9b5e906c);
    assert After(m, 61, 0xb85e2ce9, 0xb6ae8fff, 0xffb70472, 0xc062d46f, 0x961f4894, 0xb21bad3d, 0x6d83bfc6, 0x7e44008e);
    assert After(m, 62, 0x04d24d6c, 0xb85e2ce9, 0xb6ae8fff, 0xffb70472, 0x948d25b6, 0x961f4894, 0xb21bad3d, 0x6d83bfc6);
    assert After(m, 63, 0xd39a2165, 0x04d24d6c, 0xb85e2ce9, 0xb6ae8fff, 0xfb121210, 0x948d25b6, 0x961f4894, 0xb21bad3d);
  }

  lemma {:induction false} AbcHash(m: seq<Byte>)
    requires m == ABC
    ensures HashBlocks(INITIAL, Pad(m)) ==
            Regs(Word(0xba7816bf), Word(0x8f01cfea), Word(0x414140de), Word(0x5dae2223),
                 Word(0xb00361a3), Word(0x96177a9c), Word(0xb410ff61), Word(0xf20015ad))
  {
    var p: Block := Pad(m);
    Rounds64(p);
    hide Rounds, Pad;
    assert p[..0] == [] && p[0..] == p;
    assert HashBlocks(INITIAL, p[..0]) == INITIAL;
  }

  // The published digest, eight digits at a time.
  const ABC_DIGEST: seq<bv32> := [
    0xba7816bf, 0x8f01cfea, 0x414140de, 0x5dae2223, 0xb00361a3, 0x96177a9c, 0xb410ff61, 0xf20015ad
  ]

  /** The digest of "abc" that the program prints is the published one. */
  lemma {:induction false} AbcDigest(m: seq<Byte>, j: nat)
    requires m == ABC && j < 8
    ensures WordAt(HexDigest(m), j) == Value(ABC_DIGEST[j])
  {
    hide HashBlocks, Pad, HexDigest, WordAt, Value;
    AbcHash(m);
    DigestReadsBack(m, j);
  }
}
