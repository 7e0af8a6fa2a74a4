/** The standard's own example: the digest of "abc".  It is computed word by word and round by round, so it says what
    the logical functions, the schedule, the rounds, the byte order and the printed form come to. */
module Sha256Example {
  import CText
  import opened Fips180
  import opened Sha256

  /** The padded message is one block. */
  const BLOCK: seq<Byte> := [0x61, 0x62, 0x63, 0x80] + Zeros(52) + [0, 0, 0, 0, 0, 0, 0, 24]

  lemma LengthField()
    ensures BigEndian(24, 8) == [0, 0, 0, 0, 0, 0, 0, 24]
  {
    forall e: nat | 1 <= e < 8 ensures ByteOf(24, e) == 0 { Vanishes(24, e); }
    assert ByteOf(24, 0) == 24;
  }

  lemma Vanishes(n: nat, e: nat)
    requires n < 256 && e > 0
    ensures ByteOf(n, e) == 0
  {
    assert Power256(e) >= 256;
    CText.SmallMultiple(Power256(e), n / Power256(e), n - n % Power256(e));
  }

  lemma MessageBytes()
    ensures Bytes("abc") == [0x61, 0x62, 0x63]
  {
  }

  lemma PaddedMessage()
    ensures Padded(Bytes("abc")) == BLOCK
  {
    hide BigEndian;
    LengthField();
    MessageBytes();
    assert Bytes("abc") + [0x80] == [0x61, 0x62, 0x63, 0x80];
  }

  // ---- The schedule

  predicate IsWord(t: nat, bits: bv32)
    requires t < ROUNDS
  {
    Schedule(BLOCK, t) == Word(bits)
  }

  lemma ByteValues()
    ensures (0x61 as Byte) as bv32 == 0x61 && (0x62 as Byte) as bv32 == 0x62 && (0x63 as Byte) as bv32 == 0x63
    ensures (0x80 as Byte) as bv32 == 0x80 && (24 as Byte) as bv32 == 24 && (0 as Byte) as bv32 == 0
  {
  }

  lemma Word0() ensures IsWord(0, 0x61626380) {
    hide Schedule, Joined;
    ByteValues();
    ScheduleLoads(BLOCK, 0);
    JoinedLetters();
  }

  lemma JoinedLetters()
    ensures Joined(0x61, 0x62, 0x63, 0x80) == 0x61626380 && Joined(0, 0, 0, 24) == 24 && Joined(0, 0, 0, 0) == 0
  {
  }

  lemma Word15() ensures IsWord(15, 0x00000018) {
    hide Schedule, Joined;
    ByteValues();
    ScheduleLoads(BLOCK, 15);
    JoinedLetters();
  }

  lemma ZeroWord(t: nat)
    requires 1 <= t < 15
    ensures IsWord(t, 0)
  {
    hide Schedule, Joined;
    ByteValues();
    ScheduleLoads(BLOCK, t);
    JoinedLetters();
  }

  lemma Word16() ensures IsWord(16, 0x61626380)
  { hide Schedule; ZeroWord(14); ZeroWord(9); ZeroWord(1); Word0(); ScheduleMixes(BLOCK, 16); }

  lemma Word17() ensures IsWord(17, 0x000f0000)
  { hide Schedule; Word15(); ZeroWord(10); ZeroWord(2); ZeroWord(1); ScheduleMixes(BLOCK, 17); }

  lemma Word18() ensures IsWord(18, 0x7da86405)
  { hide Schedule; Word16(); ZeroWord(11); ZeroWord(3); ZeroWord(2); ScheduleMixes(BLOCK, 18); }

  lemma Word19() ensures IsWord(19, 0x600003c6)
  { hide Schedule; Word17(); ZeroWord(12); ZeroWord(4); ZeroWord(3); ScheduleMixes(BLOCK, 19); }

  lemma Word20() ensures IsWord(20, 0x3e9d7b78)
  { hide Schedule; Word18(); ZeroWord(13); ZeroWord(5); ZeroWord(4); ScheduleMixes(BLOCK, 20); }

  lemma Word21() ensures IsWord(21, 0x0183fc00)
  { hide Schedule; Word19(); ZeroWord(14); ZeroWord(6); ZeroWord(5); ScheduleMixes(BLOCK, 21); }

  lemma Word22() ensures IsWord(22, 0x12dcbfdb)
  { hide Schedule; Word20(); Word15(); ZeroWord(7); ZeroWord(6); ScheduleMixes(BLOCK, 22); }

  lemma Word23() ensures IsWord(23, 0xe2e2c38e)
  { hide Schedule; Word21(); Word16(); ZeroWord(8); ZeroWord(7); ScheduleMixes(BLOCK, 23); }

  lemma Word24() ensures IsWord(24, 0xc8215c1a)
  { hide Schedule; Word22(); Word17(); ZeroWord(9); ZeroWord(8); ScheduleMixes(BLOCK, 24); }

  lemma Word25() ensures IsWord(25, 0xb73679a2)
  { hide Schedule; Word23(); Word18(); ZeroWord(10); ZeroWord(9); ScheduleMixes(BLOCK, 25); }

  lemma Word26() ensures IsWord(26, 0xe5bc3909)
  { hide Schedule; Word24(); Word19(); ZeroWord(11); ZeroWord(10); ScheduleMixes(BLOCK, 26); }

  lemma Word27() ensures IsWord(27, 0x32663c5b)
  { hide Schedule; Word25(); Word20(); ZeroWord(12); ZeroWord(11); ScheduleMixes(BLOCK, 27); }

  lemma Word28() ensures IsWord(28, 0x9d209d67)
  { hide Schedule; Word26(); Word21(); ZeroWord(13); ZeroWord(12); ScheduleMixes(BLOCK, 28); }

  lemma Word29() ensures IsWord(29, 0xec8726cb)
  { hide Schedule; Word27(); Word22(); ZeroWord(14); ZeroWord(13); ScheduleMixes(BLOCK, 29); }

  lemma Word30() ensures IsWord(30, 0x702138a4)
  { hide Schedule; Word28(); Word23(); Word15(); ZeroWord(14); ScheduleMixes(BLOCK, 30); }

  lemma Word31() ensures IsWord(31, 0xd3b7973b)
  { hide Schedule; Word29(); Word24(); Word16(); Word15(); ScheduleMixes(BLOCK, 31); }

  lemma Word32() ensures IsWord(32, 0x93f5997f)
  { hide Schedule; Word30(); Word25(); Word17(); Word16(); ScheduleMixes(BLOCK, 32); }

  lemma Word33() ensures IsWord(33, 0x3b68ba73)
  { hide Schedule; Word31(); Word26(); Word18(); Word17(); ScheduleMixes(BLOCK, 33); }

  lemma Word34() ensures IsWord(34, 0xaff4ffc1)
  { hide Schedule; Word32(); Word27(); Word19(); Word18(); ScheduleMixes(BLOCK, 34); }

  lemma Word35() ensures IsWord(35, 0xf10a5c62)
  { hide Schedule; Word33(); Word28(); Word20(); Word19(); ScheduleMixes(BLOCK, 35); }

  lemma Word36() ensures IsWord(36, 0x0a8b3996)
  { hide Schedule; Word34(); Word29(); Word21(); Word20(); ScheduleMixes(BLOCK, 36); }

  lemma Word37() ensures IsWord(37, 0x72af830a)
  { hide Schedule; Word35(); Word30(); Word22(); Word21(); ScheduleMixes(BLOCK, 37); }

  lemma Word38() ensures IsWord(38, 0x9409e33e)
  { hide Schedule; Word36(); Word31(); Word23(); Word22(); ScheduleMixes(BLOCK, 38); }

  lemma Word39() ensures IsWord(39, 0x24641522)
  { hide Schedule; Word37(); Word32(); Word24(); Word23(); ScheduleMixes(BLOCK, 39); }

  lemma Word40() ensures IsWord(40, 0x9f47bf94)
  { hide Schedule; Word38(); Word33(); Word25(); Word24(); ScheduleMixes(BLOCK, 40); }

  lemma Word41() ensures IsWord(41, 0xf0a64f5a)
  { hide Schedule; Word39(); Word34(); Word26(); Word25(); ScheduleMixes(BLOCK, 41); }

  lemma Word42() ensures IsWord(42, 0x3e246a79)
  { hide Schedule; Word40(); Word35(); Word27(); Word26(); ScheduleMixes(BLOCK, 42); }

  lemma Word43() ensures IsWord(43, 0x27333ba3)
  { hide Schedule; Word41(); Word36(); Word28(); Word27(); ScheduleMixes(BLOCK, 43); }

  lemma Word44() ensures IsWord(44, 0x0c4763f2)
  { hide Schedule; Word42(); Word37(); Word29(); Word28(); ScheduleMixes(BLOCK, 44); }

  lemma Word45() ensures IsWord(45, 0x840abf27)
  { hide Schedule; Word43(); Word38(); Word30(); Word29(); ScheduleMixes(BLOCK, 45); }

  lemma Word46() ensures IsWord(46, 0x7a290d5d)
  { hide Schedule; Word44(); Word39(); Word31(); Word30(); ScheduleMixes(BLOCK, 46); }

  lemma Word47() ensures IsWord(47, 0x065c43da)
  { hide Schedule; Word45(); Word40(); Word32(); Word31(); ScheduleMixes(BLOCK, 47); }

  lemma Word48() ensures IsWord(48, 0xfb3e89cb)
  { hide Schedule; Word46(); Word41(); Word33(); Word32(); ScheduleMixes(BLOCK, 48); }

  lemma Word49() ensures IsWord(49, 0xcc7617db)
  { hide Schedule; Word47(); Word42(); Word34(); Word33(); ScheduleMixes(BLOCK, 49); }

  lemma Word50() ensures IsWord(50, 0xb9e66c34)
  { hide Schedule; Word48(); Word43(); Word35(); Word34(); ScheduleMixes(BLOCK, 50); }

  lemma Word51() ensures IsWord(51, 0xa9993667)
  { hide Schedule; Word49(); Word44(); Word36(); Word35(); ScheduleMixes(BLOCK, 51); }

  lemma Word52() ensures IsWord(52, 0x84badedd)
  { hide Schedule; Word50(); Word45(); Word37(); Word36(); ScheduleMixes(BLOCK, 52); }

  lemma Word53() ensures IsWord(53, 0xc21462bc)
  { hide Schedule; Word51(); Word46(); Word38(); Word37(); ScheduleMixes(BLOCK, 53); }

  lemma Word54() ensures IsWord(54, 0x1487472c)
  { hide Schedule; Word52(); Word47(); Word39(); Word38(); ScheduleMixes(BLOCK, 54); }

  lemma Word55() ensures IsWord(55, 0xb20f7a99)
  { hide Schedule; Word53(); Word48(); Word40(); Word39(); ScheduleMixes(BLOCK, 55); }

  lemma Word56() ensures IsWord(56, 0xef57b9cd)
  { hide Schedule; Word54(); Word49(); Word41(); Word40(); ScheduleMixes(BLOCK, 56); }

  lemma Word57() ensures IsWord(57, 0xebe6b238)
  { hide Schedule; Word55(); Word50(); Word42(); Word41(); ScheduleMixes(BLOCK, 57); }

  lemma Word58() ensures IsWord(58, 0x9fe3095e)
  { hide Schedule; Word56(); Word51(); Word43(); Word42(); ScheduleMixes(BLOCK, 58); }

  lemma Word59() ensures IsWord(59, 0x78bc8d4b)
  { hide Schedule; Word57(); Word52(); Word44(); Word43(); ScheduleMixes(BLOCK, 59); }

  lemma Word60() ensures IsWord(60, 0xa43fcf15)
  { hide Schedule; Word58(); Word53(); Word45(); Word44(); ScheduleMixes(BLOCK, 60); }

  lemma Word61() ensures IsWord(61, 0x668b2ff8)
  { hide Schedule; Word59(); Word54(); Word46(); Word45(); ScheduleMixes(BLOCK, 61); }

  lemma Word62() ensures IsWord(62, 0xeeaba2cc)
  { hide Schedule; Word60(); Word55(); Word47(); Word46(); ScheduleMixes(BLOCK, 62); }

  lemma Word63() ensures IsWord(63, 0x12b1edeb)
  { hide Schedule; Word61(); Word56(); Word48(); Word47(); ScheduleMixes(BLOCK, 63); }

  // ---- The rounds

  /** The working variables after `t` rounds. */
  predicate After(t: nat, a: bv32, b: bv32, c: bv32, d: bv32, e: bv32, f: bv32, g: bv32, h: bv32)
    requires t <= ROUNDS
  {
    Rounds(BLOCK, InitialHash, t) == Hash(Word(a), Word(b), Word(c), Word(d), Word(e), Word(f), Word(g), Word(h))
  }

  lemma NextRound(t: nat)
    requires t < ROUNDS
    ensures Rounds(BLOCK, InitialHash, t + 1) == Round(Rounds(BLOCK, InitialHash, t), K(t), Schedule(BLOCK, t))
  {
    hide Schedule, Round, K;
  }

  lemma Round0()
    ensures After(0, 0x6a09e667, 0xbb67ae85, 0x3c6ef372, 0xa54ff53a, 0x510e527f, 0x9b05688c, 0x1f83d9ab, 0x5be0cd19)
  {
  }

  lemma Round1()
    ensures After(1, 0x5d6aebcd, 0x6a09e667, 0xbb67ae85, 0x3c6ef372, 0xfa2a4622, 0x510e527f, 0x9b05688c, 0x1f83d9ab)
  { hide Rounds, Schedule; Round0(); Word0(); NextRound(0); }

  lemma Round2()
    ensures After(2, 0x5a6ad9ad, 0x5d6aebcd, 0x6a09e667, 0xbb67ae85, 0x78ce7989, 0xfa2a4622, 0x510e527f, 0x9b05688c)
  { hide Rounds, Schedule; Round1(); ZeroWord(1); NextRound(1); }

  lemma Round3()
    ensures After(3, 0xc8c347a7, 0x5a6ad9ad, 0x5d6aebcd, 0x6a09e667, 0xf92939eb, 0x78ce7989, 0xfa2a4622, 0x510e527f)
  { hide Rounds, Schedule; Round2(); ZeroWord(2); NextRound(2); }

  lemma Round4()
    ensures After(4, 0xd550f666, 0xc8c347a7, 0x5a6ad9ad, 0x5d6aebcd, 0x24e00850, 0xf92939eb, 0x78ce7989, 0xfa2a4622)
  { hide Rounds, Schedule; Round3(); ZeroWord(3); NextRound(3); }

  lemma Round5()
    ensures After(5, 0x04409a6a, 0xd550f666, 0xc8c347a7, 0x5a6ad9ad, 0x43ada245, 0x24e00850, 0xf92939eb, 0x78ce7989)
  { hide Rounds, Schedule; Round4(); ZeroWord(4); NextRound(4); }

  lemma Round6()
    ensures After(6, 0x2b4209f5, 0x04409a6a, 0xd550f666, 0xc8c347a7, 0x714260ad, 0x43ada245, 0x24e00850, 0xf92939eb)
  { hide Rounds, Schedule; Round5(); ZeroWord(5); NextRound(5); }

  lemma Round7()
    ensures After(7, 0xe5030380, 0x2b4209f5, 0x04409a6a, 0xd550f666, 0x9b27a401, 0x714260ad, 0x43ada245, 0x24e00850)
  { hide Rounds, Schedule; Round6(); ZeroWord(6); NextRound(6); }

  lemma Round8()
    ensures After(8, 0x85a07b5f, 0xe5030380, 0x2b4209f5, 0x04409a6a, 0x0c657a79, 0x9b27a401, 0x714260ad, 0x43ada245)
  { hide Rounds, Schedule; Round7(); ZeroWord(7); NextRound(7); }

  lemma Round9()
    ensures After(9, 0x8e04ecb9, 0x85a07b5f, 0xe5030380, 0x2b4209f5, 0x32ca2d8c, 0x0c657a79, 0x9b27a401, 0x714260ad)
  { hide Rounds, Schedule; Round8(); ZeroWord(8); NextRound(8); }

  lemma Round10()
    ensures After(10, 0x8c87346b, 0x8e04ecb9, 0x85a07b5f, 0xe5030380, 0x1cc92596, 0x32ca2d8c, 0x0c657a79, 0x9b27a401)
  { hide Rounds, Schedule; Round9(); ZeroWord(9); NextRound(9); }

  lemma Round11()
    ensures After(11, 0x4798a3f4, 0x8c87346b, 0x8e04ecb9, 0x85a07b5f, 0x436b23e8, 0x1cc92596, 0x32ca2d8c, 0x0c657a79)
  { hide Rounds, Schedule; Round10(); ZeroWord(10); NextRound(10); }

  lemma Round12()
    ensures After(12, 0xf71fc5a9, 0x4798a3f4, 0x8c87346b, 0x8e04ecb9, 0x816fd6e9, 0x436b23e8, 0x1cc92596, 0x32ca2d8c)
  { hide Rounds, Schedule; Round11(); ZeroWord(11); NextRound(11); }

  lemma Round13()
    ensures After(13, 0x87912990, 0xf71fc5a9, 0x4798a3f4, 0x8c87346b, 0x1e578218, 0x816fd6e9, 0x436b23e8, 0x1cc92596)
  { hide Rounds, Schedule; Round12(); ZeroWord(12); NextRound(12); }

  lemma Round14()
    ensures After(14, 0xd932eb16, 0x87912990, 0xf71fc5a9, 0x4798a3f4, 0x745a48de, 0x1e578218, 0x816fd6e9, 0x436b23e8)
  { hide Rounds, Schedule; Round13(); ZeroWord(13); NextRound(13); }

  lemma Round15()
    ensures After(15, 0xc0645fde, 0xd932eb16, 0x87912990, 0xf71fc5a9, 0x0b92f20c, 0x745a48de, 0x1e578218, 0x816fd6e9)
  { hide Rounds, Schedule; Round14(); ZeroWord(14); NextRound(14); }

  lemma Round16()
    ensures After(16, 0xb0fa238e, 0xc0645fde, 0xd932eb16, 0x87912990, 0x07590dcd, 0x0b92f20c, 0x745a48de, 0x1e578218)
  { hide Rounds, Schedule; Round15(); Word15(); NextRound(15); }

  lemma Round17()
    ensures After(17, 0x21da9a9b, 0xb0fa238e, 0xc0645fde, 0xd932eb16, 0x8034229c, 0x07590dcd, 0x0b92f20c, 0x745a48de)
  { hide Rounds, Schedule; Round16(); Word16(); NextRound(16); }

  lemma Round18()
    ensures After(18, 0xc2fbd9d1, 0x21da9a9b, 0xb0fa238e, 0xc0645fde, 0x846ee454, 0x8034229c, 0x07590dcd, 0x0b92f20c)
  { hide Rounds, Schedule; Round17(); Word17(); NextRound(17); }

  lemma Round19()
    ensures After(19, 0xfe777bbf, 0xc2fbd9d1, 0x21da9a9b, 0xb0fa238e, 0xcc899961, 0x846ee454, 0x8034229c, 0x07590dcd)
  { hide Rounds, Schedule; Round18(); Word18(); NextRound(18); }

  lemma Round20()
    ensures After(20, 0xe1f20c33, 0xfe777bbf, 0xc2fbd9d1, 0x21da9a9b, 0xb0638179, 0xcc899961, 0x846ee454, 0x8034229c)
  { hide Rounds, Schedule; Round19(); Word19(); NextRound(19); }

  lemma Round21()
    ensures After(21, 0x9dc68b63, 0xe1f20c33, 0xfe777bbf, 0xc2fbd9d1, 0x8ada8930, 0xb0638179, 0xcc899961, 0x846ee454)
  { hide Rounds, Schedule; Round20(); Word20(); NextRound(20); }

  lemma Round22()
    ensures After(22, 0xc2606d6d, 0x9dc68b63, 0xe1f20c33, 0xfe777bbf, 0xe1257970, 0x8ada8930, 0xb0638179, 0xcc899961)
  { hide Rounds, Schedule; Round21(); Word21(); NextRound(21); }

  lemma Round23()
    ensures After(23, 0xa7a3623f, 0xc2606d6d, 0x9dc68b63, 0xe1f20c33, 0x49f5114a, 0xe1257970, 0x8ada8930, 0xb0638179)
  { hide Rounds, Schedule; Round22(); Word22(); NextRound(22); }

  lemma Round24()
    ensures After(24, 0xc5d53d8d, 0xa7a3623f, 0xc2606d6d, 0x9dc68b63, 0xaa47c347, 0x49f5114a, 0xe1257970, 0x8ada8930)
  { hide Rounds, Schedule; Round23(); Word23(); NextRound(23); }

  lemma Round25()
    ensures After(25, 0x1c2c2838, 0xc5d53d8d, 0xa7a3623f, 0xc2606d6d, 0x2823ef91, 0xaa47c347, 0x49f5114a, 0xe1257970)
  { hide Rounds, Schedule; Round24(); Word24(); NextRound(24); }

  lemma Round26()
    ensures After(26, 0xcde8037d, 0x1c2c2838, 0xc5d53d8d, 0xa7a3623f, 0x14383d8e, 0x2823ef91, 0xaa47c347, 0x49f5114a)
  { hide Rounds, Schedule; Round25(); Word25(); NextRound(25); }

  lemma Round27()
    ensures After(27, 0xb62ec4bc, 0xcde8037d, 0x1c2c2838, 0xc5d53d8d, 0xc74c6516, 0x14383d8e, 0x2823ef91, 0xaa47c347)
  { hide Rounds, Schedule; Round26(); Word26(); NextRound(26); }

  lemma Round28()
    ensures After(28, 0x77d37528, 0xb62ec4bc, 0xcde8037d, 0x1c2c2838, 0xedffbff8, 0xc74c6516, 0x14383d8e, 0x2823ef91)
  { hide Rounds, Schedule; Round27(); Word27(); NextRound(27); }

  lemma Round29()
    ensures After(29, 0x363482c9, 0x77d37528, 0xb62ec4bc, 0xcde8037d, 0x6112a3b7, 0xedffbff8, 0xc74c6516, 0x14383d8e)
  { hide Rounds, Schedule; Round28(); Word28(); NextRound(28); }

  lemma Round30()
    ensures After(30, 0xa0060b30, 0x363482c9, 0x77d37528, 0xb62ec4bc, 0xade79437, 0x6112a3b7, 0xedffbff8, 0xc74c6516)
  { hide Rounds, Schedule; Round29(); Word29(); NextRound(29); }

  lemma Round31()
    ensures After(31, 0xea992a22, 0xa0060b30, 0x363482c9, 0x77d37528, 0x0109ab3a, 0xade79437, 0x6112a3b7, 0xedffbff8)
  { hide Rounds, Schedule; Round30(); Word30(); NextRound(30); }

  lemma Round32()
    ensures After(32, 0x73b33bf5, 0xea992a22, 0xa0060b30, 0x363482c9, 0xba591112, 0x0109ab3a, 0xade79437, 0x6112a3b7)
  { hide Rounds, Schedule; Round31(); Word31(); NextRound(31); }

  lemma Round33()
    ensures After(33, 0x98e12507, 0x73b33bf5, 0xea992a22, 0xa0060b30, 0x9cd9f5f6, 0xba591112, 0x0109ab3a, 0xade79437)
  { hide Rounds, Schedule; Round32(); Word32(); NextRound(32); }

  lemma Round34()
    ensures After(34, 0xfe604df5, 0x98e12507, 0x73b33bf5, 0xea992a22, 0x59249dd3, 0x9cd9f5f6, 0xba591112, 0x0109ab3a)
  { hide Rounds, Schedule; Round33(); Word33(); NextRound(33); }

  lemma Round35()
    ensures After(35, 0xa9a7738c, 0xfe604df5, 0x98e12507, 0x73b33bf5, 0x085f3833, 0x59249dd3, 0x9cd9f5f6, 0xba591112)
  { hide Rounds, Schedule; Round34(); Word34(); NextRound(34); }

  lemma Round36()
    ensures After(36, 0x65a0cfe4, 0xa9a7738c, 0xfe604df5, 0x98e12507, 0xf4b002d6, 0x085f3833, 0x59249dd3, 0x9cd9f5f6)
  { hide Rounds, Schedule; Round35(); Word35(); NextRound(35); }

  lemma Round37()
    ensures After(37, 0x41a65cb1, 0x65a0cfe4, 0xa9a7738c, 0xfe604df5, 0x0772a26b, 0xf4b002d6, 0x085f3833, 0x59249dd3)
  { hide Rounds, Schedule; Round36(); Word36(); NextRound(36); }

  lemma Round38()
    ensures After(38, 0x34df1604, 0x41a65cb1, 0x65a0cfe4, 0xa9a7738c, 0xa507a53d, 0x0772a26b, 0xf4b002d6, 0x085f3833)
  { hide Rounds, Schedule; Round37(); Word37(); NextRound(37); }

  lemma Round39()
    ensures After(39, 0x6dc57a8a, 0x34df1604, 0x41a65cb1, 0x65a0cfe4, 0xf0781bc8, 0xa507a53d, 0x0772a26b, 0xf4b002d6)
  { hide Rounds, Schedule; Round38(); Word38(); NextRound(38); }

  lemma Round40()
    ensures After(40, 0x79ea687a, 0x6dc57a8a, 0x34df1604, 0x41a65cb1, 0x1efbc0a0, 0xf0781bc8, 0xa507a53d, 0x0772a26b)
  { hide Rounds, Schedule; Round39(); Word39(); NextRound(39); }

  lemma Round41()
    ensures After(41, 0xd6670766, 0x79ea687a, 0x6dc57a8a, 0x34df1604, 0x26352d63, 0x1efbc0a0, 0xf0781bc8, 0xa507a53d)
  { hide Rounds, Schedule; Round40(); Word40(); NextRound(40); }

  lemma Round42()
    ensures After(42, 0xdf46652f, 0xd6670766, 0x79ea687a, 0x6dc57a8a, 0x838b2711, 0x26352d63, 0x1efbc0a0, 0xf0781bc8)
  { hide Rounds, Schedule; Round41(); Word41(); NextRound(41); }

  lemma Round43()
    ensures After(43, 0x17aa0dfe, 0xdf46652f, 0xd6670766, 0x79ea687a, 0xdecd4715, 0x838b2711, 0x26352d63, 0x1efbc0a0)
  { hide Rounds, Schedule; Round42(); Word42(); NextRound(42); }

  lemma Round44()
    ensures After(44, 0x9d4baf93, 0x17aa0dfe, 0xdf46652f, 0xd6670766, 0xfda24c2e, 0xdecd4715, 0x838b2711, 0x26352d63)
  { hide Rounds, Schedule; Round43(); Word43(); NextRound(43); }

  lemma Round45()
    ensures After(45, 0x26628815, 0x9d4baf93, 0x17aa0dfe, 0xdf46652f, 0xa80f11f0, 0xfda24c2e, 0xdecd4715, 0x838b2711)
  { hide Rounds, Schedule; Round44(); Word44(); NextRound(44); }

  lemma Round46()
    ensures After(46, 0x72ab4b91, 0x26628815, 0x9d4baf93, 0x17aa0dfe, 0xb7755da1, 0xa80f11f0, 0xfda24c2e, 0xdecd4715)
  { hide Rounds, Schedule; Round45(); Word45(); NextRound(45); }

  lemma Round47()
    ensures After(47, 0xa14c14b0, 0x72ab4b91, 0x26628815, 0x9d4baf93, 0xd57b94a9, 0xb7755da1, 0xa80f11f0, 0xfda24c2e)
  { hide Rounds, Schedule; Round46(); Word46(); NextRound(46); }

  lemma Round48()
    ensures After(48, 0x4172328d, 0xa14c14b0, 0x72ab4b91, 0x26628815, 0xfecf0bc6, 0xd57b94a9, 0xb7755da1, 0xa80f11f0)
  { hide Rounds, Schedule; Round47(); Word47(); NextRound(47); }

  lemma Round49()
    ensures After(49, 0x05757ceb, 0x4172328d, 0xa14c14b0, 0x72ab4b91, 0xbd714038, 0xfecf0bc6, 0xd57b94a9, 0xb7755da1)
  { hide Rounds, Schedule; Round48(); Word48(); NextRound(48); }

  lemma Round50()
    ensures After(50, 0xf11bfaa8, 0x05757ceb, 0x4172328d, 0xa14c14b0, 0x6e5c390c, 0xbd714038, 0xfecf0bc6, 0xd57b94a9)
  { hide Rounds, Schedule; Round49(); Word49(); NextRound(49); }

  lemma Round51()
    ensures After(51, 0x7a0508a1, 0xf11bfaa8, 0x05757ceb, 0x4172328d, 0x52f1ccf7, 0x6e5c390c, 0xbd714038, 0xfecf0bc6)
  { hide Rounds, Schedule; Round50(); Word50(); NextRound(50); }

  lemma Round52()
    ensures After(52, 0x886e7a22, 0x7a0508a1, 0xf11bfaa8, 0x05757ceb, 0x49231c1e, 0x52f1ccf7, 0x6e5c390c, 0xbd714038)
  { hide Rounds, Schedule; Round51(); Word51(); NextRound(51); }

  lemma Round53()
    ensures After(53, 0x101fd28f, 0x886e7a22, 0x7a0508a1, 0xf11bfaa8, 0x529e7d00, 0x49231c1e, 0x52f1ccf7, 0x6e5c390c)
  { hide Rounds, Schedule; Round52(); Word52(); NextRound(52); }

  lemma Round54()
    ensures After(54, 0xf5702fdb, 0x101fd28f, 0x886e7a22, 0x7a0508a1, 0x9f4787c3, 0x529e7d00, 0x49231c1e, 0x52f1ccf7)
  { hide Rounds, Schedule; Round53(); Word53(); NextRound(53); }

  lemma Round55()
    ensures After(55, 0x3ec45cdb, 0xf5702fdb, 0x101fd28f, 0x886e7a22, 0xe50e1b4f, 0x9f4787c3, 0x529e7d00, 0x49231c1e)
  { hide Rounds, Schedule; Round54(); Word54(); NextRound(54); }

  lemma Round56()
    ensures After(56, 0x38cc9913, 0x3ec45cdb, 0xf5702fdb, 0x101fd28f, 0x54cb266b, 0xe50e1b4f, 0x9f4787c3, 0x529e7d00)
  { hide Rounds, Schedule; Round55(); Word55(); NextRound(55); }

  lemma Round57()
    ensures After(57, 0xfcd1887b, 0x38cc9913, 0x3ec45cdb, 0xf5702fdb, 0x9b5e906c, 0x54cb266b, 0xe50e1b4f, 0x9f4787c3)
  { hide Rounds, Schedule; Round56(); Word56(); NextRound(56); }

  lemma Round58()
    ensures After(58, 0xc062d46f, 0xfcd1887b, 0x38cc9913, 0x3ec45cdb, 0x7e44008e, 0x9b5e906c, 0x54cb266b, 0xe50e1b4f)
  { hide Rounds, Schedule; Round57(); Word57(); NextRound(57); }

  lemma Round59()
    ensures After(59, 0xffb70472, 0xc062d46f, 0xfcd1887b, 0x38cc9913, 0x6d83bfc6, 0x7e44008e, 0x9b5e906c, 0x54cb266b)
  { hide Rounds, Schedule; Round58(); Word58(); NextRound(58); }

  lemma Round60()
    ensures After(60, 0xb6ae8fff, 0xffb70472, 0xc062d46f, 0xfcd1887b, 0xb21bad3d, 0x6d83bfc6, 0x7e44008e, 0x9b5e906c)
  { hide Rounds, Schedule; Round59(); Word59(); NextRound(59); }

  lemma Round61()
    ensures After(61, 0xb85e2ce9, 0xb6ae8fff, 0xffb70472, 0xc062d46f, 0x961f4894, 0xb21bad3d, 0x6d83bfc6, 0x7e44008e)
  { hide Rounds, Schedule; Round60(); Word60(); NextRound(60); }

  lemma Round62()
    ensures After(62, 0x04d24d6c, 0xb85e2ce9, 0xb6ae8fff, 0xffb70472, 0x948d25b6, 0x961f4894, 0xb21bad3d, 0x6d83bfc6)
  { hide Rounds, Schedule; Round61(); Word61(); NextRound(61); }

  lemma Round63()
    ensures After(63, 0xd39a2165, 0x04d24d6c, 0xb85e2ce9, 0xb6ae8fff, 0xfb121210, 0x948d25b6, 0x961f4894, 0xb21bad3d)
  { hide Rounds, Schedule; Round62(); Word62(); NextRound(62); }

  lemma Round64()
    ensures After(64, 0x506e3058, 0xd39a2165, 0x04d24d6c, 0xb85e2ce9, 0x5ef50f24, 0xfb121210, 0x948d25b6, 0x961f4894)
  { hide Rounds, Schedule; Round63(); Word63(); NextRound(63); }

  // ---- The digest

  function FinalValue(): Hash {
    Hash(Word(0xba7816bf), Word(0x8f01cfea), Word(0x414140de), Word(0x5dae2223),
         Word(0xb00361a3), Word(0x96177a9c), Word(0xb410ff61), Word(0xf20015ad))
  }

  lemma FinalHash()
    ensures HashBlocks(BLOCK) == FinalValue()
  {
    hide Rounds, HashBlocks, Compress, FinalValue, Add;
    Round64();
    AppendBlock([], BLOCK);
    assert [] + BLOCK == BLOCK;
    OnlyBlock();
    LastSum(Rounds(BLOCK, InitialHash, ROUNDS));
  }

  lemma OnlyBlock()
    ensures HashBlocks([]) == InitialHash
    ensures Compress(InitialHash, BLOCK) == Add(InitialHash, Rounds(BLOCK, InitialHash, ROUNDS))
  {
    hide Rounds, Add;
  }

  lemma LastSum(v: Hash)
    requires v == Hash(Word(0x506e3058), Word(0xd39a2165), Word(0x04d24d6c), Word(0xb85e2ce9),
                       Word(0x5ef50f24), Word(0xfb121210), Word(0x948d25b6), Word(0x961f4894))
    ensures Add(InitialHash, v) == FinalValue()
  {
  }

  lemma Bytes0() ensures WordBytes(Word(0xba7816bf)) == [0xba, 0x78, 0x16, 0xbf] {}
  lemma Bytes1() ensures WordBytes(Word(0x8f01cfea)) == [0x8f, 0x01, 0xcf, 0xea] {}
  lemma Bytes2() ensures WordBytes(Word(0x414140de)) == [0x41, 0x41, 0x40, 0xde] {}
  lemma Bytes3() ensures WordBytes(Word(0x5dae2223)) == [0x5d, 0xae, 0x22, 0x23] {}
  lemma Bytes4() ensures WordBytes(Word(0xb00361a3)) == [0xb0, 0x03, 0x61, 0xa3] {}
  lemma Bytes5() ensures WordBytes(Word(0x96177a9c)) == [0x96, 0x17, 0x7a, 0x9c] {}
  lemma Bytes6() ensures WordBytes(Word(0xb410ff61)) == [0xb4, 0x10, 0xff, 0x61] {}
  lemma Bytes7() ensures WordBytes(Word(0xf20015ad)) == [0xf2, 0x00, 0x15, 0xad] {}

  lemma {:induction false} HexJoined(x: seq<Byte>, y: seq<Byte>)
    ensures Hex(x + y) == Hex(x) + Hex(y)
    decreases |y|
  {
    hide HexDigit;
    if y == [] {
      assert x + y == x;
    } else {
      var n := |y| - 1;
      HexJoined(x, y[..n]);
      assert (x + y)[..|x + y| - 1] == x + y[..n];
    }
  }

  lemma HexOfFour(a: Byte, b: Byte, c: Byte, d: Byte)
    ensures Hex([a, b, c, d]) == [HexDigit(a as nat / 16), HexDigit(a as nat % 16)]
      + [HexDigit(b as nat / 16), HexDigit(b as nat % 16)] + [HexDigit(c as nat / 16), HexDigit(c as nat % 16)]
      + [HexDigit(d as nat / 16), HexDigit(d as nat % 16)]
  {
    hide HexDigit;
    HexOfOne(a);
    HexOfOne(b);
    HexOfOne(c);
    HexOfOne(d);
    HexJoined([a], [b]);
    HexJoined([a, b], [c]);
    HexJoined([a, b, c], [d]);
    assert [a] + [b] == [a, b] && [a, b] + [c] == [a, b, c] && [a, b, c] + [d] == [a, b, c, d];
  }

  lemma HexOfOne(a: Byte)
    ensures Hex([a]) == [HexDigit(a as nat / 16), HexDigit(a as nat % 16)]
  {
    hide HexDigit;
    assert [a][..0] == [];
  }

  lemma Hex0() ensures Hex(WordBytes(Word(0xba7816bf))) == "ba7816bf" {
    hide Hex, WordBytes;
    Bytes0();
    HexOfFour(0xba, 0x78, 0x16, 0xbf);
  }

  lemma Hex1() ensures Hex(WordBytes(Word(0x8f01cfea))) == "8f01cfea" {
    hide Hex, WordBytes;
    Bytes1();
    HexOfFour(0x8f, 0x01, 0xcf, 0xea);
  }

  lemma Hex2() ensures Hex(WordBytes(Word(0x414140de))) == "414140de" {
    hide Hex, WordBytes;
    Bytes2();
    HexOfFour(0x41, 0x41, 0x40, 0xde);
  }

  lemma Hex3() ensures Hex(WordBytes(Word(0x5dae2223))) == "5dae2223" {
    hide Hex, WordBytes;
    Bytes3();
    HexOfFour(0x5d, 0xae, 0x22, 0x23);
  }

  lemma Hex4() ensures Hex(WordBytes(Word(0xb00361a3))) == "b00361a3" {
    hide Hex, WordBytes;
    Bytes4();
    HexOfFour(0xb0, 0x03, 0x61, 0xa3);
  }

  lemma Hex5() ensures Hex(WordBytes(Word(0x96177a9c))) == "96177a9c" {
    hide Hex, WordBytes;
    Bytes5();
    HexOfFour(0x96, 0x17, 0x7a, 0x9c);
  }

  lemma Hex6() ensures Hex(WordBytes(Word(0xb410ff61))) == "b410ff61" {
    hide Hex, WordBytes;
    Bytes6();
    HexOfFour(0xb4, 0x10, 0xff, 0x61);
  }

  lemma Hex7() ensures Hex(WordBytes(Word(0xf20015ad))) == "f20015ad" {
    hide Hex, WordBytes;
    Bytes7();
    HexOfFour(0xf2, 0x00, 0x15, 0xad);
  }

  lemma HexOfHash(v: Hash)
    ensures Hex(HashBytes(v)) == Hex(WordBytes(v.a)) + Hex(WordBytes(v.b)) + Hex(WordBytes(v.c)) + Hex(WordBytes(v.d))
      + Hex(WordBytes(v.e)) + Hex(WordBytes(v.f)) + Hex(WordBytes(v.g)) + Hex(WordBytes(v.h))
  {
    hide Hex, WordBytes;
    var a, b, c, d := WordBytes(v.a), WordBytes(v.b), WordBytes(v.c), WordBytes(v.d);
    var e, f, g, h := WordBytes(v.e), WordBytes(v.f), WordBytes(v.g), WordBytes(v.h);
    HexJoined(a, b);
    HexJoined(a + b, c);
    HexJoined(a + b + c, d);
    HexJoined(a + b + c + d, e);
    HexJoined(a + b + c + d + e, f);
    HexJoined(a + b + c + d + e + f, g);
    HexJoined(a + b + c + d + e + f + g, h);
  }

  /** The digest of "abc", as the standard's example gives it. */
  lemma DigestOfAbc()
    ensures HashHex("abc") == "ba7816bf8f01cfea" + "414140de5dae2223"
                            + "b00361a396177a9c" + "b410ff61f20015ad"
  {
    hide Hex, HashBlocks, Padded, WordBytes, HashBytes, BLOCK, Bytes;
    PaddedMessage();
    FinalHash();
    HexOfHash(HashBlocks(BLOCK));
    Hex0(); Hex1(); Hex2(); Hex3(); Hex4(); Hex5(); Hex6(); Hex7();
    DigestText();
  }

  lemma DigestText()
    ensures "ba7816bf" + "8f01cfea" + "414140de" + "5dae2223" + "b00361a3" + "96177a9c" + "b410ff61" + "f20015ad"
         == "ba7816bf8f01cfea" + "414140de5dae2223" + "b00361a396177a9c" + "b410ff61f20015ad"
  {
    assert "ba7816bf" + "8f01cfea" == "ba7816bf8f01cfea";
    assert "414140de" + "5dae2223" == "414140de5dae2223";
    assert "b00361a3" + "96177a9c" == "b00361a396177a9c";
    assert "b410ff61" + "f20015ad" == "b410ff61f20015ad";
  }
}
