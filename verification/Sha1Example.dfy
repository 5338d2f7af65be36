/**
 The example of FIPS 180-2, appendix A.1: the hash of the three bytes "abc", in which all
 the constants, rotations and functions of Sha1Spec take part.
 */
module Sha1Example {
  import opened WordBits
  import opened Blocks
  import opened Sha1Spec
  import opened Sha1Machine

  /** The words of the schedule. */
  function W(t: nat): bv32 {
    match t
    case 0 => 0x6162_6380
    case 1 => 0x0000_0000
    case 2 => 0x0000_0000
    case 3 => 0x0000_0000
    case 4 => 0x0000_0000
    case 5 => 0x0000_0000
    case 6 => 0x0000_0000
    case 7 => 0x0000_0000
    case 8 => 0x0000_0000
    case 9 => 0x0000_0000
    case 10 => 0x0000_0000
    case 11 => 0x0000_0000
    case 12 => 0x0000_0000
    case 13 => 0x0000_0000
    case 14 => 0x0000_0000
    case 15 => 0x0000_0018
    case 16 => 0xC2C4_C700
    case 17 => 0x0000_0000
    case 18 => 0x0000_0030
    case 19 => 0x8589_8E01
    case 20 => 0x0000_0000
    case 21 => 0x0000_0060
    case 22 => 0x0B13_1C03
    case 23 => 0x0000_0030
    case 24 => 0x8589_8EC1
    case 25 => 0x1626_3806
    case 26 => 0x0000_0000
    case 27 => 0x0000_0180
    case 28 => 0x2C4C_700C
    case 29 => 0x0000_00F0
    case 30 => 0x93AF_B507
    case 31 => 0x5898_E048
    case 32 => 0x8E9A_9202
    case 33 => 0x0000_0600
    case 34 => 0xB131_C0F0
    case 35 => 0x1626_3BC6
    case 36 => 0x4EBE_D41E
    case 37 => 0x6263_80A1
    case 38 => 0x1626_3806
    case 39 => 0x0000_18C0
    case 40 => 0xD2E1_38C4
    case 41 => 0x0000_0F00
    case 42 => 0x3AFB_5079
    case 43 => 0x898E_04E5
    case 44 => 0xE2BA_3C2B
    case 45 => 0x0000_60C0
    case 46 => 0x053A_37CD
    case 47 => 0x7445_8547
    case 48 => 0xDA94_15ED
    case 49 => 0x2638_0A16
    case 50 => 0x6263_83A1
    case 51 => 0x4EBF_54DE
    case 52 => 0x3835_B44B
    case 53 => 0x0000_F600
    case 54 => 0x1E84_C7A3
    case 55 => 0x98E0_4D98
    case 56 => 0x651D_16A0
    case 57 => 0x6265_8CA1
    case 58 => 0x4585_44D6
    case 59 => 0x4458_4CB7
    case 60 => 0x7BA0_6619
    case 61 => 0x6380_AEA2
    case 62 => 0x0AE5_5269
    case 63 => 0x627B_49A1
    case 64 => 0x7CD4_5C9D
    case 65 => 0x000F_0000
    case 66 => 0xFB50_753A
    case 67 => 0xEC67_65E8
    case 68 => 0xBA3C_2BE2
    case 69 => 0x0060_C000
    case 70 => 0x3A37_CD05
    case 71 => 0x4585_46F4
    case 72 => 0xB859_9DD6
    case 73 => 0x380A_1A26
    case 74 => 0x01E0_2203
    case 75 => 0xE7CC_3456
    case 76 => 0xE6E6_0B69
    case 77 => 0x00F6_0A00
    case 78 => 0x5795_EF4F
    case 79 => 0x822E_0879
    case _ => 0
  }

  /** The working variable a of each round, and before the first one what the initial value makes of it. */
  function A(t: nat): bv32 {
    match t
    case 0 => 0x0F4B_87C3
    case 1 => 0x40C9_51D8
    case 2 => 0x62EB_73FA
    case 3 => 0xEFCD_AB89
    case 4 => 0x6745_2301
    case 5 => 0x0116_FC33
    case 6 => 0x8990_536D
    case 7 => 0xA139_0F08
    case 8 => 0xCDD8_E11B
    case 9 => 0xCFD4_99DE
    case 10 => 0x3FC7_CA40
    case 11 => 0x993E_30C1
    case 12 => 0x9E8C_07D4
    case 13 => 0x4B6A_E328
    case 14 => 0x8351_F929
    case 15 => 0xFBDA_9E89
    case 16 => 0x6318_8FE4
    case 17 => 0x4607_B664
    case 18 => 0x9128_F695
    case 19 => 0x196B_EE77
    case 20 => 0x20BD_D62F
    case 21 => 0x4E92_5823
    case 22 => 0x82AA_6728
    case 23 => 0xDC64_901D
    case 24 => 0xFD9E_1D7D
    case 25 => 0x1A37_B0CA
    case 26 => 0x33A2_3BFC
    case 27 => 0x2128_3486
    case 28 => 0xD541_F12D
    case 29 => 0xC756_7DC6
    case 30 => 0x4841_3BA4
    case 31 => 0xBE35_FBD5
    case 32 => 0x4AA8_4D97
    case 33 => 0x8370_B52E
    case 34 => 0xC5FB_AF5D
    case 35 => 0x1267_B407
    case 36 => 0x3B84_5D33
    case 37 => 0x046F_AA0A
    case 38 => 0x2C0E_BC11
    case 39 => 0x2179_6AD4
    case 40 => 0xDCBB_B0CB
    case 41 => 0x0F51_1FD8
    case 42 => 0xDC63_973F
    case 43 => 0x4C98_6405
    case 44 => 0x32DE_1CBA
    case 45 => 0xFC87_DEDF
    case 46 => 0x970A_0D5C
    case 47 => 0x7F19_3DC5
    case 48 => 0xEE1B_1AAF
    case 49 => 0x40F2_8E09
    case 50 => 0x1C51_E1F2
    case 51 => 0xA01B_846C
    case 52 => 0xBEAD_02CA
    case 53 => 0xBAF3_9337
    case 54 => 0x1207_31C5
    case 55 => 0x641D_B2CE
    case 56 => 0x3847_AD66
    case 57 => 0xE490_436D
    case 58 => 0x27E9_F1D8
    case 59 => 0x7B71_F76D
    case 60 => 0x5E64_56AF
    case 61 => 0xC846_093F
    case 62 => 0xD262_FF50
    case 63 => 0x09D7_85FD
    case 64 => 0x3F52_DE5A
    case 65 => 0xD756_C147
    case 66 => 0x548C_9CB2
    case 67 => 0xB66C_020B
    case 68 => 0x6B61_C9E1
    case 69 => 0x19DF_A7AC
    case 70 => 0x1016_55F9
    case 71 => 0x0C3D_F2B4
    case 72 => 0x78DD_4D2B
    case 73 => 0x4970_93C0
    case 74 => 0x3F25_88C2
    case 75 => 0xC199_F8C7
    case 76 => 0x3985_9DE7
    case 77 => 0xEDB4_2DE4
    case 78 => 0x1179_3F6F
    case 79 => 0x5EE7_6897
    case 80 => 0x63F7_DAB7
    case 81 => 0xA079_B7D9
    case 82 => 0x860D_21CC
    case 83 => 0x5738_D5E1
    case 84 => 0x4254_1B35
    case _ => 0
  }

  function State(t: nat): Chain32 {
    Chain32(A(t + 4), A(t + 3), Rot30(A(t + 2)), Rot30(A(t + 1)), Rot30(A(t)))
  }

  /** Round t and word t follow from those before. */
  predicate Follows(t: nat) {
    && A(t + 5) == Sum5(Rot5(A(t + 4)), F32(t, A(t + 3), Rot30(A(t + 2)), Rot30(A(t + 1))), Rot30(A(t)), K32(t), W(t))
    && (t >= 16 ==> W(t) == Rot1(XorFour(W(t - 3), W(t - 8), W(t - 14), W(t - 16))))
  }

  // Ten rounds at a time.

  lemma FirstTen(t: nat)
    requires 0 <= t < 10
    ensures Follows(t)
  {
    if t < 2 {
    } else if t < 4 {
    } else if t < 6 {
    } else if t < 8 {
    }
  }

  lemma SecondTen(t: nat)
    requires 10 <= t < 20
    ensures Follows(t)
  {
    if t < 12 {
    } else if t < 14 {
    } else if t < 16 {
    } else if t < 18 {
    }
  }

  lemma ThirdTen(t: nat)
    requires 20 <= t < 30
    ensures Follows(t)
  {
    if t < 22 {
    } else if t < 24 {
    } else if t < 26 {
    } else if t < 28 {
    }
  }

  lemma FourthTen(t: nat)
    requires 30 <= t < 40
    ensures Follows(t)
  {
    if t < 32 {
    } else if t < 34 {
    } else if t < 36 {
    } else if t < 38 {
    }
  }

  lemma FifthTen(t: nat)
    requires 40 <= t < 50
    ensures Follows(t)
  {
    if t < 42 {
    } else if t < 44 {
    } else if t < 46 {
    } else if t < 48 {
    }
  }

  lemma SixthTen(t: nat)
    requires 50 <= t < 60
    ensures Follows(t)
  {
    if t < 52 {
    } else if t < 54 {
    } else if t < 56 {
    } else if t < 58 {
    }
  }

  lemma SeventhTen(t: nat)
    requires 60 <= t < 70
    ensures Follows(t)
  {
    if t < 62 {
    } else if t < 64 {
    } else if t < 66 {
    } else if t < 68 {
    }
  }

  lemma EighthTen(t: nat)
    requires 70 <= t < 80
    ensures Follows(t)
  {
    if t < 72 {
    } else if t < 74 {
    } else if t < 76 {
    } else if t < 78 {
    }
  }

  lemma AllFollow(t: nat)
    requires t < 80
    ensures Follows(t)
  {
    hide Follows;
    if t < 10 {
      FirstTen(t);
    } else if t < 20 {
      SecondTen(t);
    } else if t < 30 {
      ThirdTen(t);
    } else if t < 40 {
      FourthTen(t);
    } else if t < 50 {
      FifthTen(t);
    } else if t < 60 {
      SixthTen(t);
    } else if t < 70 {
      SeventhTen(t);
    } else {
      EighthTen(t);
    }
  }

  // ----- the rounds of the specification

  function Start(): Chain32 {
    Chain32(0x6745_2301, 0xEFCD_AB89, 0x98BA_DCFE, 0x1032_5476, 0xC3D2_E1F0)
  }

  lemma InitialValue(s: Chain32)
    requires s == Start()
    ensures Values(s) == H0
  {
  }

  lemma StateIsFirst(n: nat)
    requires n == 0
    ensures State(n) == Start()
  {
  }

  lemma {:induction false} ScheduleOf(t: nat)
    requires t < 80
    ensures Schedule(AbcBlock(), t) == Value(W(t))
    decreases t
  {
    hide Value, W, Follows, RotL, Xor4;
    if t < 16 {
      FirstWords(t);
    } else {
      ScheduleOf(t - 3);
      ScheduleOf(t - 8);
      ScheduleOf(t - 14);
      ScheduleOf(t - 16);
      ScheduleStep(t);
    }
  }

  lemma ScheduleStep(t: nat)
    requires 16 <= t < 80
    ensures Value(W(t)) == RotL(1, Xor4(Value(W(t - 3)), Value(W(t - 8)), Value(W(t - 14)), Value(W(t - 16))))
  {
    hide Value, W, A, Sum5, F32, K32, Rot1, Rot5, Rot30, RotL, XorFour, Xor4;
    AllFollow(t);
    ValueXor4(W(t - 3), W(t - 8), W(t - 14), W(t - 16));
    ValueRotate(XorFour(W(t - 3), W(t - 8), W(t - 14), W(t - 16)));
  }

  /** The padded message "abc". */
  function AbcBlock(): (block: Block) {
    [0x61, 0x62, 0x63, 0x80] + Zeros(59) + [0x18]
  }

  lemma FirstWords(t: nat)
    requires t < 16
    ensures WordAt(AbcBlock(), 4 * t) == Value(W(t))
  {
  }

  lemma NextState(t: nat)
    requires t < 80
    ensures Round32(t, W(t), State(t)) == State(t + 1)
  {
    hide A, W, F32, K32, Sum5, Rot1, Rot5, Rot30, XorFour;
    AllFollow(t);
  }

  lemma {:induction false} RoundsOf(n: nat)
    requires n <= 80
    ensures Rounds(Expand(AbcBlock()), H0, n) == Values(State(n))
    decreases n
  {
    hide Value, Values, W, State, Schedule, Round, Round32, AbcBlock, Start, H0;
    if n == 0 {
      InitialValue(Start());
      StateIsFirst(0);
    } else {
      RoundsOf(n - 1);
      ScheduleOf(n - 1);
      NextState(n - 1);
      ValueRound(n - 1, W(n - 1), State(n - 1));
    }
  }

  lemma PaddedAbc()
    ensures Pad([0x61, 0x62, 0x63]) == AbcBlock()
  {
  }

  /** The working variables after the last round. */
  function LastState(): Chain32 {
    Chain32(0x4254_1B35, 0x5738_D5E1, Rot30(0x860D_21CC), Rot30(0xA079_B7D9), Rot30(0x63F7_DAB7))
  }

  function Digest(): Chain32 {
    Chain32(0xA999_3E36, 0x4706_816A, 0xBA3E_2571, 0x7850_C26C, 0x9CD0_D89D)
  }

  lemma DigestIsSum()
    ensures Plus32(Start(), LastState()) == Digest()
  {
  }

  lemma StateIsLast(n: nat)
    requires n == 80
    ensures State(n) == LastState()
  {
    assert A(n) == 0x63F7_DAB7 && A(n + 1) == 0xA079_B7D9 && A(n + 2) == 0x860D_21CC;
    assert A(n + 3) == 0x5738_D5E1 && A(n + 4) == 0x4254_1B35;
    hide A, Rot30;
  }

  lemma DigestValue(s: Chain32)
    requires s == Digest()
    ensures Values(s) == Chain(0xA9993E36, 0x4706816A, 0xBA3E2571, 0x7850C26C, 0x9CD0D89D)
  {
  }

  /** The published hash. */
  lemma HashOfAbc()
    ensures Sha1([0x61, 0x62, 0x63]) == Chain(0xA9993E36, 0x4706816A, 0xBA3E2571, 0x7850C26C, 0x9CD0D89D)
  {
    hide Pad, Plus, Plus32, Rounds, AbcBlock, State, Values, H0, Fold, Start, LastState, Digest;
    PaddedAbc();
    FoldOne(Compress, H0, AbcBlock());
    RoundsOf(80);
    InitialValue(Start());
    ValuePlus(Start(), State(80));
    StateIsLast(80);
    DigestIsSum();
    DigestValue(Digest());
  }
}
