/** Known answers of DES: keys, blocks and what they are encoded to, worked out round by round. The key 133457799BBCDFF1
    with all its subkeys, the key and block of zeros, and for each S-box all of its entries. */
module DesKnownAnswer {
  import opened DesBits
  import opened DesTables
  import opened DesCipher
  import opened DesKeys
  import opened UDes
  import opened DesWords

  // ---- rounds and subkeys, one by one --------------------------------------------------------------

  /** The words of the two halves after some rounds. */
  predicate Reached(h: Halves, keys: seq<Bits>, n: nat, l: bv32, r: bv32)
    requires Wide(h) && SubKeys(keys) && n <= |keys|
  {
    SubKeys(keys[..n]) && Rounds(h, keys[..n]) == HalvesOf(l, r)
  }

  lemma NothingReached(keys: seq<Bits>, l: bv32, r: bv32)
    requires SubKeys(keys)
    ensures Reached(HalvesOf(l, r), keys, 0, l, r)
  {
    hide Bits32;
    assert keys[..0] == [];
  }

  lemma Step(h: Halves, keys: seq<Bits>, n: nat, l: bv32, r: bv32, high: bv32, low: bv32, m: bv32, x: bv32)
    requires Wide(h) && SubKeys(keys) && n < |keys| && Reached(h, keys, n, l, r)
    requires HoldsKey(SubKeyWords(high, low), keys[n]) && Boxes(r, high, low) == m && PermutedWord(m) == x
    ensures Reached(h, keys, n + 1, r, l ^ x)
  {
    hide Rounds, Round, Boxes, PermutedWord, HoldsKey, HalvesOf;
    assert keys[n] in keys;
    NextIsRound(l, r, SubKeyWords(high, low), keys[n]);
    RoundsNext(h, keys, n);
  }

  lemma InitialWords(high: bv32, low: bv32, l: bv32, r: bv32)
    requires FinalHigh(r, l) == high && FinalLow(r, l) == low
    ensures Initial(Pair(high, low)) == HalvesOf(l, r)
  {
    hide FinalHigh, FinalLow, Pair, Initial, Final, Bits32;
    FinalWords(r, l);
    InitialOfFinal(HalvesOf(r, l));
  }

  lemma EncodedIs(keys: seq<Bits>, high: bv32, low: bv32, l: bv32, r: bv32, codeHigh: bv32, codeLow: bv32)
    requires |keys| == 16 && SubKeys(keys) && Reached(Initial(Pair(high, low)), keys, 16, l, r)
    requires FinalHigh(l, r) == codeHigh && FinalLow(l, r) == codeLow
    ensures Encoded(keys, Pair(high, low)) == Pair(codeHigh, codeLow)
  {
    hide FinalHigh, FinalLow, Pair, Initial, Final, Bits32, Rounds;
    assert keys[..16] == keys;
    FinalWords(l, r);
  }

  /** The words of the subkeys so far, and of the halves they were chosen from. */
  predicate Scheduled(key: Bits, n: nat, c: bv32, d: bv32, words: seq<SubKeyWords>)
    requires |key| == 64
  {
    HalvesHeld(key, n, c, d) && HoldsKeys(words, Schedule(FirstHalf(key), SecondHalf(key), n))
  }

  lemma NothingScheduled(high: bv32, low: bv32, c: bv32, d: bv32)
    requires FirstWord(high, low) == c && SecondWord(high, low) == d
    ensures Scheduled(Pair(high, low), 0, c, d, [])
  {
    hide HalvesHeld, FirstHalf, SecondHalf, Pair, FirstWord, SecondWord, HoldsKey;
    HalvesTaken(high, low);
  }

  lemma NextSubKey(key: Bits, n: nat, words: seq<SubKeyWords>, c: bv32, d: bv32, c2: bv32, d2: bv32, high: bv32, low: bv32)
    requires |key| == 64 && n < |words| && Scheduled(key, n, c, d, words[..n]) && words[n] == SubKeyWords(high, low)
    requires Rotated(c, RotationCount(n)) == c2 && Rotated(d, RotationCount(n)) == d2
    requires HighOfHalf(c2) == high && LowOfHalf(d2) == low
    ensures Scheduled(key, n + 1, c2, d2, words[..n + 1])
  {
    hide HalvesHeld, HoldsKeys, Schedule, FirstHalf, SecondHalf, Rotated, RotationCount, HighOfHalf, LowOfHalf;
    ScheduleStep(key, n, c, d, words[..n]);
    assert words[..n + 1] == words[..n] + [words[n]];
  }

  lemma AllScheduled(key: Bits, c: bv32, d: bv32, words: seq<SubKeyWords>)
    requires |key| == 64 && |words| == 16 && Scheduled(key, 16, c, d, words[..16])
    ensures HoldsKeys(words, SubKeysOf(key))
  {
    hide HalvesHeld, HoldsKeys, Schedule, FirstHalf, SecondHalf;
    assert words[..16] == words;
  }

  // ---- the key 133457799BBCDFF1 -----------------------------------------------------------------------

  const WORKED_KEY: seq<SubKeyWords> := [
    SubKeyWords(0x001B_02EF, 0x00FC_7072), SubKeyWords(0x0079_AED9, 0x00DB_C9E5),
    SubKeyWords(0x0055_FC8A, 0x0042_CF99), SubKeyWords(0x0072_ADD6, 0x00DB_351D),
    SubKeyWords(0x007C_EC07, 0x00EB_53A8), SubKeyWords(0x0063_A53E, 0x0050_7B2F),
    SubKeyWords(0x00EC_84B7, 0x00F6_18BC), SubKeyWords(0x00F7_8A3A, 0x00C1_3BFB),
    SubKeyWords(0x00E0_DBEB, 0x00ED_E781), SubKeyWords(0x00B1_F347, 0x00BA_464F),
    SubKeyWords(0x0021_5FD3, 0x00DE_D386), SubKeyWords(0x0075_71F5, 0x0094_67E9),
    SubKeyWords(0x0097_C5D1, 0x00FA_BA41), SubKeyWords(0x005F_43B7, 0x00F2_E73A),
    SubKeyWords(0x00BF_918D, 0x003D_3F0A), SubKeyWords(0x00CB_3D8B, 0x000E_17F5)
  ]

  lemma WorkedHalves()
    ensures FirstWord(0x1334_5779, 0x9BBC_DFF1) == 0x0F0C_CAAF
    ensures SecondWord(0x1334_5779, 0x9BBC_DFF1) == 0x0556_678F
  {
  }

  lemma WorkedChoices4()
    ensures Rotated(0x0F0C_CAAF, 1) == 0x0E19_955F && Rotated(0x0556_678F, 1) == 0x0AAC_CF1E
    ensures HighOfHalf(0x0E19_955F) == 0x001B_02EF && LowOfHalf(0x0AAC_CF1E) == 0x00FC_7072
    ensures Rotated(0x0E19_955F, 1) == 0x0C33_2ABF && Rotated(0x0AAC_CF1E, 1) == 0x0559_9E3D
    ensures HighOfHalf(0x0C33_2ABF) == 0x0079_AED9 && LowOfHalf(0x0559_9E3D) == 0x00DB_C9E5
    ensures Rotated(0x0C33_2ABF, 2) == 0x00CC_AAFF && Rotated(0x0559_9E3D, 2) == 0x0566_78F5
    ensures HighOfHalf(0x00CC_AAFF) == 0x0055_FC8A && LowOfHalf(0x0566_78F5) == 0x0042_CF99
    ensures Rotated(0x00CC_AAFF, 2) == 0x0332_ABFC && Rotated(0x0566_78F5, 2) == 0x0599_E3D5
    ensures HighOfHalf(0x0332_ABFC) == 0x0072_ADD6 && LowOfHalf(0x0599_E3D5) == 0x00DB_351D
  {
  }

  lemma WorkedSubKeysTo4(key: Bits, words: seq<SubKeyWords>)
    requires |key| == 64 && words == WORKED_KEY && Scheduled(key, 0, 0x0F0C_CAAF, 0x0556_678F, words[..0])
    ensures Scheduled(key, 4, 0x0332_ABFC, 0x0599_E3D5, words[..4])
  {
    hide Scheduled, RotationCount, Rotated, HighOfHalf, LowOfHalf;
    RotationsTotal();
    WorkedChoices4();
    NextSubKey(key, 0, words, 0x0F0C_CAAF, 0x0556_678F, 0x0E19_955F, 0x0AAC_CF1E, 0x001B_02EF, 0x00FC_7072);
    NextSubKey(key, 1, words, 0x0E19_955F, 0x0AAC_CF1E, 0x0C33_2ABF, 0x0559_9E3D, 0x0079_AED9, 0x00DB_C9E5);
    NextSubKey(key, 2, words, 0x0C33_2ABF, 0x0559_9E3D, 0x00CC_AAFF, 0x0566_78F5, 0x0055_FC8A, 0x0042_CF99);
    NextSubKey(key, 3, words, 0x00CC_AAFF, 0x0566_78F5, 0x0332_ABFC, 0x0599_E3D5, 0x0072_ADD6, 0x00DB_351D);
  }

  lemma WorkedChoices8()
    ensures Rotated(0x0332_ABFC, 2) == 0x0CCA_AFF0 && Rotated(0x0599_E3D5, 2) == 0x0667_8F55
    ensures HighOfHalf(0x0CCA_AFF0) == 0x007C_EC07 && LowOfHalf(0x0667_8F55) == 0x00EB_53A8
    ensures Rotated(0x0CCA_AFF0, 2) == 0x032A_BFC3 && Rotated(0x0667_8F55, 2) == 0x099E_3D55
    ensures HighOfHalf(0x032A_BFC3) == 0x0063_A53E && LowOfHalf(0x099E_3D55) == 0x0050_7B2F
    ensures Rotated(0x032A_BFC3, 2) == 0x0CAA_FF0C && Rotated(0x099E_3D55, 2) == 0x0678_F556
    ensures HighOfHalf(0x0CAA_FF0C) == 0x00EC_84B7 && LowOfHalf(0x0678_F556) == 0x00F6_18BC
    ensures Rotated(0x0CAA_FF0C, 2) == 0x02AB_FC33 && Rotated(0x0678_F556, 2) == 0x09E3_D559
    ensures HighOfHalf(0x02AB_FC33) == 0x00F7_8A3A && LowOfHalf(0x09E3_D559) == 0x00C1_3BFB
  {
  }

  lemma WorkedSubKeysTo8(key: Bits, words: seq<SubKeyWords>)
    requires |key| == 64 && words == WORKED_KEY && Scheduled(key, 4, 0x0332_ABFC, 0x0599_E3D5, words[..4])
    ensures Scheduled(key, 8, 0x02AB_FC33, 0x09E3_D559, words[..8])
  {
    hide Scheduled, RotationCount, Rotated, HighOfHalf, LowOfHalf;
    RotationsTotal();
    WorkedChoices8();
    NextSubKey(key, 4, words, 0x0332_ABFC, 0x0599_E3D5, 0x0CCA_AFF0, 0x0667_8F55, 0x007C_EC07, 0x00EB_53A8);
    NextSubKey(key, 5, words, 0x0CCA_AFF0, 0x0667_8F55, 0x032A_BFC3, 0x099E_3D55, 0x0063_A53E, 0x0050_7B2F);
    NextSubKey(key, 6, words, 0x032A_BFC3, 0x099E_3D55, 0x0CAA_FF0C, 0x0678_F556, 0x00EC_84B7, 0x00F6_18BC);
    NextSubKey(key, 7, words, 0x0CAA_FF0C, 0x0678_F556, 0x02AB_FC33, 0x09E3_D559, 0x00F7_8A3A, 0x00C1_3BFB);
  }

  lemma WorkedChoices12()
    ensures Rotated(0x02AB_FC33, 1) == 0x0557_F866 && Rotated(0x09E3_D559, 1) == 0x03C7_AAB3
    ensures HighOfHalf(0x0557_F866) == 0x00E0_DBEB && LowOfHalf(0x03C7_AAB3) == 0x00ED_E781
    ensures Rotated(0x0557_F866, 2) == 0x055F_E199 && Rotated(0x03C7_AAB3, 2) == 0x0F1E_AACC
    ensures HighOfHalf(0x055F_E199) == 0x00B1_F347 && LowOfHalf(0x0F1E_AACC) == 0x00BA_464F
    ensures Rotated(0x055F_E199, 2) == 0x057F_8665 && Rotated(0x0F1E_AACC, 2) == 0x0C7A_AB33
    ensures HighOfHalf(0x057F_8665) == 0x0021_5FD3 && LowOfHalf(0x0C7A_AB33) == 0x00DE_D386
    ensures Rotated(0x057F_8665, 2) == 0x05FE_1995 && Rotated(0x0C7A_AB33, 2) == 0x01EA_ACCF
    ensures HighOfHalf(0x05FE_1995) == 0x0075_71F5 && LowOfHalf(0x01EA_ACCF) == 0x0094_67E9
  {
  }

  lemma WorkedSubKeysTo12(key: Bits, words: seq<SubKeyWords>)
    requires |key| == 64 && words == WORKED_KEY && Scheduled(key, 8, 0x02AB_FC33, 0x09E3_D559, words[..8])
    ensures Scheduled(key, 12, 0x05FE_1995, 0x01EA_ACCF, words[..12])
  {
    hide Scheduled, RotationCount, Rotated, HighOfHalf, LowOfHalf;
    RotationsTotal();
    WorkedChoices12();
    NextSubKey(key, 8, words, 0x02AB_FC33, 0x09E3_D559, 0x0557_F866, 0x03C7_AAB3, 0x00E0_DBEB, 0x00ED_E781);
    NextSubKey(key, 9, words, 0x0557_F866, 0x03C7_AAB3, 0x055F_E199, 0x0F1E_AACC, 0x00B1_F347, 0x00BA_464F);
    NextSubKey(key, 10, words, 0x055F_E199, 0x0F1E_AACC, 0x057F_8665, 0x0C7A_AB33, 0x0021_5FD3, 0x00DE_D386);
    NextSubKey(key, 11, words, 0x057F_8665, 0x0C7A_AB33, 0x05FE_1995, 0x01EA_ACCF, 0x0075_71F5, 0x0094_67E9);
  }

  lemma WorkedChoices16()
    ensures Rotated(0x05FE_1995, 2) == 0x07F8_6655 && Rotated(0x01EA_ACCF, 2) == 0x07AA_B33C
    ensures HighOfHalf(0x07F8_6655) == 0x0097_C5D1 && LowOfHalf(0x07AA_B33C) == 0x00FA_BA41
    ensures Rotated(0x07F8_6655, 2) == 0x0FE1_9955 && Rotated(0x07AA_B33C, 2) == 0x0EAA_CCF1
    ensures HighOfHalf(0x0FE1_9955) == 0x005F_43B7 && LowOfHalf(0x0EAA_CCF1) == 0x00F2_E73A
    ensures Rotated(0x0FE1_9955, 2) == 0x0F86_6557 && Rotated(0x0EAA_CCF1, 2) == 0x0AAB_33C7
    ensures HighOfHalf(0x0F86_6557) == 0x00BF_918D && LowOfHalf(0x0AAB_33C7) == 0x003D_3F0A
    ensures Rotated(0x0F86_6557, 1) == 0x0F0C_CAAF && Rotated(0x0AAB_33C7, 1) == 0x0556_678F
    ensures HighOfHalf(0x0F0C_CAAF) == 0x00CB_3D8B && LowOfHalf(0x0556_678F) == 0x000E_17F5
  {
  }

  lemma WorkedSubKeysTo16(key: Bits, words: seq<SubKeyWords>)
    requires |key| == 64 && words == WORKED_KEY && Scheduled(key, 12, 0x05FE_1995, 0x01EA_ACCF, words[..12])
    ensures Scheduled(key, 16, 0x0F0C_CAAF, 0x0556_678F, words[..16])
  {
    hide Scheduled, RotationCount, Rotated, HighOfHalf, LowOfHalf;
    RotationsTotal();
    WorkedChoices16();
    NextSubKey(key, 12, words, 0x05FE_1995, 0x01EA_ACCF, 0x07F8_6655, 0x07AA_B33C, 0x0097_C5D1, 0x00FA_BA41);
    NextSubKey(key, 13, words, 0x07F8_6655, 0x07AA_B33C, 0x0FE1_9955, 0x0EAA_CCF1, 0x005F_43B7, 0x00F2_E73A);
    NextSubKey(key, 14, words, 0x0FE1_9955, 0x0EAA_CCF1, 0x0F86_6557, 0x0AAB_33C7, 0x00BF_918D, 0x003D_3F0A);
    NextSubKey(key, 15, words, 0x0F86_6557, 0x0AAB_33C7, 0x0F0C_CAAF, 0x0556_678F, 0x00CB_3D8B, 0x000E_17F5);
  }

  /** The sixteen subkeys of the key 133457799BBCDFF1. */
  lemma WorkedSubKeys()
    ensures HoldsKeys(WORKED_KEY, SubKeysOf(Pair(0x1334_5779, 0x9BBC_DFF1)))
  {
    hide Scheduled, Pair, SubKeysOf, HoldsKeys, FirstWord, SecondWord;
    var key, words := Pair(0x1334_5779, 0x9BBC_DFF1), WORKED_KEY;
    WorkedHalves();
    NothingScheduled(0x1334_5779, 0x9BBC_DFF1, 0x0F0C_CAAF, 0x0556_678F);
    assert words[..0] == [];
    WorkedSubKeysTo4(key, words);
    WorkedSubKeysTo8(key, words);
    WorkedSubKeysTo12(key, words);
    WorkedSubKeysTo16(key, words);
    AllScheduled(key, 0x0F0C_CAAF, 0x0556_678F, words);
  }

  lemma WorkedStart()
    ensures FinalHigh(0xF0AA_F0AA, 0xCC00_CCFF) == 0x0123_4567 && FinalLow(0xF0AA_F0AA, 0xCC00_CCFF) == 0x89AB_CDEF
  {
  }

  lemma WorkedEnd()
    ensures FinalHigh(0x4342_3234, 0x0A4C_D995) == 0x85E8_1354 && FinalLow(0x4342_3234, 0x0A4C_D995) == 0x0F0A_B405
  {
  }

  lemma WorkedBoxes4()
    ensures Boxes(0xF0AA_F0AA, 0x001B_02EF, 0x00FC_7072) == 0x5C82_B597
    ensures Boxes(0xEF4A_6544, 0x0079_AED9, 0x00DB_C9E5) == 0xF8D0_3AAE
    ensures Boxes(0xCC01_7709, 0x0055_FC8A, 0x0042_CF99) == 0x2710_E16F
    ensures Boxes(0xA25C_0BF4, 0x0072_ADD6, 0x00DB_351D) == 0x21ED_9F3A
  {
  }

  lemma WorkedPermuted4()
    ensures PermutedWord(0x5C82_B597) == 0x234A_A9BB
    ensures PermutedWord(0xF8D0_3AAE) == 0x3CAB_87A3
    ensures PermutedWord(0x2710_E16F) == 0x4D16_6EB0
    ensures PermutedWord(0x21ED_9F3A) == 0xBB23_774C
  {
  }

  lemma WorkedTo4(h: Halves, keys: seq<Bits>)
    requires Wide(h) && SubKeys(keys) && HoldsKeys(WORKED_KEY, keys) && Reached(h, keys, 0, 0xCC00_CCFF, 0xF0AA_F0AA)
    ensures Reached(h, keys, 4, 0xA25C_0BF4, 0x7722_0045)
  {
    hide Reached, HoldsKey, Boxes, PermutedWord;
    WorkedBoxes4();
    WorkedPermuted4();
    Step(h, keys, 0, 0xCC00_CCFF, 0xF0AA_F0AA, 0x001B_02EF, 0x00FC_7072, 0x5C82_B597, 0x234A_A9BB);
    Step(h, keys, 1, 0xF0AA_F0AA, 0xEF4A_6544, 0x0079_AED9, 0x00DB_C9E5, 0xF8D0_3AAE, 0x3CAB_87A3);
    Step(h, keys, 2, 0xEF4A_6544, 0xCC01_7709, 0x0055_FC8A, 0x0042_CF99, 0x2710_E16F, 0x4D16_6EB0);
    Step(h, keys, 3, 0xCC01_7709, 0xA25C_0BF4, 0x0072_ADD6, 0x00DB_351D, 0x21ED_9F3A, 0xBB23_774C);
  }

  lemma WorkedBoxes8()
    ensures Boxes(0x7722_0045, 0x007C_EC07, 0x00EB_53A8) == 0x50C8_31EB
    ensures Boxes(0x8A4F_A637, 0x0063_A53E, 0x0050_7B2F) == 0x41F3_4C3D
    ensures Boxes(0xE967_CD69, 0x00EC_84B7, 0x00F6_18BC) == 0x1075_40AD
    ensures Boxes(0x064A_BA10, 0x00F7_8A3A, 0x00C1_3BFB) == 0x6C18_7CAE
  {
  }

  lemma WorkedPermuted8()
    ensures PermutedWord(0x50C8_31EB) == 0x2813_ADC3
    ensures PermutedWord(0x41F3_4C3D) == 0x9E45_CD2C
    ensures PermutedWord(0x1075_40AD) == 0x8C05_1C27
    ensures PermutedWord(0x6C18_7CAE) == 0x3C0E_86F9
  {
  }

  lemma WorkedTo8(h: Halves, keys: seq<Bits>)
    requires Wide(h) && SubKeys(keys) && HoldsKeys(WORKED_KEY, keys) && Reached(h, keys, 4, 0xA25C_0BF4, 0x7722_0045)
    ensures Reached(h, keys, 8, 0x064A_BA10, 0xD569_4B90)
  {
    hide Reached, HoldsKey, Boxes, PermutedWord;
    WorkedBoxes8();
    WorkedPermuted8();
    Step(h, keys, 4, 0xA25C_0BF4, 0x7722_0045, 0x007C_EC07, 0x00EB_53A8, 0x50C8_31EB, 0x2813_ADC3);
    Step(h, keys, 5, 0x7722_0045, 0x8A4F_A637, 0x0063_A53E, 0x0050_7B2F, 0x41F3_4C3D, 0x9E45_CD2C);
    Step(h, keys, 6, 0x8A4F_A637, 0xE967_CD69, 0x00EC_84B7, 0x00F6_18BC, 0x1075_40AD, 0x8C05_1C27);
    Step(h, keys, 7, 0xE967_CD69, 0x064A_BA10, 0x00F7_8A3A, 0x00C1_3BFB, 0x6C18_7CAE, 0x3C0E_86F9);
  }

  lemma WorkedBoxes12()
    ensures Boxes(0xD569_4B90, 0x00E0_DBEB, 0x00ED_E781) == 0x110C_5777
    ensures Boxes(0x247C_C67A, 0x00B1_F347, 0x00BA_464F) == 0xDA04_5275
    ensures Boxes(0xB7D5_D7B2, 0x0021_5FD3, 0x00DE_D386) == 0x7305_D101
    ensures Boxes(0xC578_3C78, 0x0075_71F5, 0x0094_67E9) == 0x7B8B_2635
  {
  }

  lemma WorkedPermuted12()
    ensures PermutedWord(0x110C_5777) == 0x2236_7C6A
    ensures PermutedWord(0xDA04_5275) == 0x62BC_9C22
    ensures PermutedWord(0x7305_D101) == 0xE104_FA02
    ensures PermutedWord(0x7B8B_2635) == 0xC268_CFEA
  {
  }

  lemma WorkedTo12(h: Halves, keys: seq<Bits>)
    requires Wide(h) && SubKeys(keys) && HoldsKeys(WORKED_KEY, keys) && Reached(h, keys, 8, 0x064A_BA10, 0xD569_4B90)
    ensures Reached(h, keys, 12, 0xC578_3C78, 0x75BD_1858)
  {
    hide Reached, HoldsKey, Boxes, PermutedWord;
    WorkedBoxes12();
    WorkedPermuted12();
    Step(h, keys, 8, 0x064A_BA10, 0xD569_4B90, 0x00E0_DBEB, 0x00ED_E781, 0x110C_5777, 0x2236_7C6A);
    Step(h, keys, 9, 0xD569_4B90, 0x247C_C67A, 0x00B1_F347, 0x00BA_464F, 0xDA04_5275, 0x62BC_9C22);
    Step(h, keys, 10, 0x247C_C67A, 0xB7D5_D7B2, 0x0021_5FD3, 0x00DE_D386, 0x7305_D101, 0xE104_FA02);
    Step(h, keys, 11, 0xB7D5_D7B2, 0xC578_3C78, 0x0075_71F5, 0x0094_67E9, 0x7B8B_2635, 0xC268_CFEA);
  }

  lemma WorkedBoxes16()
    ensures Boxes(0x75BD_1858, 0x0097_C5D1, 0x00FA_BA41) == 0x9AD1_8B4F
    ensures Boxes(0x18C3_155A, 0x005F_43B7, 0x00F2_E73A) == 0x6479_9AF1
    ensures Boxes(0xC28C_960D, 0x00BF_918D, 0x003D_3F0A) == 0xB2E8_8D3C
    ensures Boxes(0x4342_3234, 0x00CB_3D8B, 0x000E_17F5) == 0xA783_2429
  {
  }

  lemma WorkedPermuted16()
    ensures PermutedWord(0x9AD1_8B4F) == 0xDDBB_2922
    ensures PermutedWord(0x6479_9AF1) == 0xB731_8E55
    ensures PermutedWord(0xB2E8_8D3C) == 0x5B81_276E
    ensures PermutedWord(0xA783_2429) == 0xC8C0_4F98
  {
  }

  lemma WorkedTo16(h: Halves, keys: seq<Bits>)
    requires Wide(h) && SubKeys(keys) && HoldsKeys(WORKED_KEY, keys) && Reached(h, keys, 12, 0xC578_3C78, 0x75BD_1858)
    ensures Reached(h, keys, 16, 0x4342_3234, 0x0A4C_D995)
  {
    hide Reached, HoldsKey, Boxes, PermutedWord;
    WorkedBoxes16();
    WorkedPermuted16();
    Step(h, keys, 12, 0xC578_3C78, 0x75BD_1858, 0x0097_C5D1, 0x00FA_BA41, 0x9AD1_8B4F, 0xDDBB_2922);
    Step(h, keys, 13, 0x75BD_1858, 0x18C3_155A, 0x005F_43B7, 0x00F2_E73A, 0x6479_9AF1, 0xB731_8E55);
    Step(h, keys, 14, 0x18C3_155A, 0xC28C_960D, 0x00BF_918D, 0x003D_3F0A, 0xB2E8_8D3C, 0x5B81_276E);
    Step(h, keys, 15, 0xC28C_960D, 0x4342_3234, 0x00CB_3D8B, 0x000E_17F5, 0xA783_2429, 0xC8C0_4F98);
  }

  lemma WorkedEncoded(keys: seq<Bits>)
    requires |keys| == 16 && SubKeys(keys) && HoldsKeys(WORKED_KEY, keys)
    ensures Encoded(keys, Pair(0x0123_4567, 0x89AB_CDEF)) == Pair(0x85E8_1354, 0x0F0A_B405)
  {
    hide Reached, HoldsKeys, Initial, Encoded, Pair, FinalHigh, FinalLow, HalvesOf;
    var h := Initial(Pair(0x0123_4567, 0x89AB_CDEF));
    WorkedStart();
    WorkedEnd();
    InitialWords(0x0123_4567, 0x89AB_CDEF, 0xCC00_CCFF, 0xF0AA_F0AA);
    NothingReached(keys, 0xCC00_CCFF, 0xF0AA_F0AA);
    WorkedTo4(h, keys);
    WorkedTo8(h, keys);
    WorkedTo12(h, keys);
    WorkedTo16(h, keys);
    EncodedIs(keys, 0x0123_4567, 0x89AB_CDEF, 0x4342_3234, 0x0A4C_D995, 0x85E8_1354, 0x0F0A_B405);
  }

  /** Under it the block 0123456789ABCDEF is encoded to 85E813540F0AB405. */
  lemma WorkedExample()
    ensures Encoded(SubKeysOf(Pair(0x1334_5779, 0x9BBC_DFF1)), Pair(0x0123_4567, 0x89AB_CDEF)) == Pair(0x85E8_1354, 0x0F0A_B405)
  {
    hide Encoded, SubKeysOf, Pair, HoldsKeys;
    WorkedSubKeys();
    WorkedEncoded(SubKeysOf(Pair(0x1334_5779, 0x9BBC_DFF1)));
  }

  /** The Newton gets the same subkeys of the key whose halves are this one's without their last bits. */
  lemma NewtonExample()
    ensures Encoded(NewtonSubKeysOf(Pair(0x099A_2BBC, 0x4DDE_6FF8)), Pair(0x0123_4567, 0x89AB_CDEF)) == Pair(0x85E8_1354, 0x0F0A_B405)
  {
    hide Encoded, SubKeysOf, Pair, SameKeyBits, NewtonKey;
    var high, low: bv32 := 0x099A_2BBC, 0x4DDE_6FF8;
    NewtonWords(high, low);
    LastBitsSpare(0x1334_5779, 0x9BBC_DFF1);
    SameScheduleIff(Pair(0x1334_5778, 0x9BBC_DFF0), Pair(0x1334_5779, 0x9BBC_DFF1));
    WorkedExample();
  }

  lemma LastBitsSpare(high: bv32, low: bv32)
    ensures SameKeyBits(Pair(high & 0xFFFF_FFFE, low & 0xFFFF_FFFE), Pair(high, low))
  {
    hide TestBit;
    forall n: nat | 1 <= n < 32
      ensures TestBit(high & 0xFFFF_FFFE, n) == TestBit(high, n) && TestBit(low & 0xFFFF_FFFE, n) == TestBit(low, n)
    {
      SpareBit(high, n);
      SpareBit(low, n);
    }
  }

  lemma SpareBit(w: bv32, n: nat)
    requires 1 <= n < 32
    ensures TestBit(w & 0xFFFF_FFFE, n) == TestBit(w, n)
  {
    hide Mask, Single, And;
    MaskNotLast(n);
    AndAnd(w, Mask(n));
  }

  lemma MaskNotLast(n: nat)
    requires 1 <= n < 32
    ensures Mask(n) & 0xFFFF_FFFE == Mask(n)
  {
    hide Single;
  }

  lemma AndAnd(w: bv32, m: bv32)
    requires m & 0xFFFF_FFFE == m
    ensures And(w & 0xFFFF_FFFE, m) == And(w, m)
  {
  }

  // ---- the key of zeros ------------------------------------------------------------------------------

  const ZERO_KEY: seq<SubKeyWords> := seq(16, _ => SubKeyWords(0, 0))

  function NoKeys(n: nat): (keys: seq<Bits>)
    ensures |keys| == n && SubKeys(keys)
  {
    seq(n, _ => Falses(48))
  }

  lemma {:induction false} ZeroHalf(j: nat)
    ensures HalfAt(Falses(28), j) == Falses(28)
  {
    hide RotationCount, Rotate, Falses;
    if j > 0 {
      ZeroHalf(j - 1);
      ZeroRotated(RotationCount(j - 1));
    }
  }

  lemma ZeroRotated(n: nat)
    requires n <= 28
    ensures Rotate(Falses(28), n) == Falses(28)
  {
  }

  lemma ZeroSubKey()
    ensures SubKey(Falses(28), Falses(28)) == Falses(48)
  {
    hide PC2;
  }

  lemma {:induction false} ZeroSchedule(n: nat)
    ensures Schedule(Falses(28), Falses(28), n) == NoKeys(n)
  {
    hide HalfAt, SubKey;
    if n > 0 {
      ZeroSchedule(n - 1);
      ZeroHalf(n);
      ZeroSubKey();
    }
  }

  lemma ZeroSubKeys()
    ensures SubKeysOf(Falses(64)) == NewtonSubKeysOf(Falses(64)) == NoKeys(16)
  {
    hide PC1, Schedule;
    assert NewtonKey(Falses(64)) == Falses(64);
    assert FirstHalf(Falses(64)) == SecondHalf(Falses(64)) == Falses(28);
    ZeroSchedule(16);
  }

  lemma ZeroWordsHeld()
    ensures HoldsKeys(ZERO_KEY, NoKeys(16))
  {
    hide Bits32;
    ZeroBits();
    assert Falses(48)[..24] == Falses(24) == Falses(48)[24..];
    assert Falses(8) + Falses(24) == Falses(32);
  }

  lemma ZeroBits()
    ensures Bits32(0) == Falses(32) && Pair(0, 0) == Falses(64)
  {
    hide Bits32;
    ZeroHolds();
    assert Falses(32) + [] == Falses(32);
  }

  lemma ZerosStart()
    ensures FinalHigh(0x0000_0000, 0x0000_0000) == 0x0000_0000 && FinalLow(0x0000_0000, 0x0000_0000) == 0x0000_0000
  {
  }

  lemma ZerosEnd()
    ensures FinalHigh(0xBBEA_0DC2, 0x1C20_87FC) == 0x8CA6_4DE9 && FinalLow(0xBBEA_0DC2, 0x1C20_87FC) == 0xC1B1_23A7
  {
  }

  lemma ZerosBoxes4()
    ensures Boxes(0x0000_0000, 0x0000_0000, 0x0000_0000) == 0xEFA7_2C4D
    ensures Boxes(0xD8D8_DBBC, 0x0000_0000, 0x0000_0000) == 0x5BB9_97F3
    ensures Boxes(0xE73A_ED4F, 0x0000_0000, 0x0000_0000) == 0x5405_8712
    ensures Boxes(0x5BFA_6BA6, 0x0000_0000, 0x0000_0000) == 0x2CC3_DE6B
  {
  }

  lemma ZerosPermuted4()
    ensures PermutedWord(0xEFA7_2C4D) == 0xD8D8_DBBC
    ensures PermutedWord(0x5BB9_97F3) == 0xE73A_ED4F
    ensures PermutedWord(0x5405_8712) == 0x8322_B01A
    ensures PermutedWord(0x2CC3_DE6B) == 0xB97F_0F18
  {
  }

  lemma ZerosTo4(h: Halves, keys: seq<Bits>)
    requires Wide(h) && SubKeys(keys) && HoldsKeys(ZERO_KEY, keys) && Reached(h, keys, 0, 0x0000_0000, 0x0000_0000)
    ensures Reached(h, keys, 4, 0x5BFA_6BA6, 0x5E45_E257)
  {
    hide Reached, HoldsKey, Boxes, PermutedWord;
    ZerosBoxes4();
    ZerosPermuted4();
    Step(h, keys, 0, 0x0000_0000, 0x0000_0000, 0x0000_0000, 0x0000_0000, 0xEFA7_2C4D, 0xD8D8_DBBC);
    Step(h, keys, 1, 0x0000_0000, 0xD8D8_DBBC, 0x0000_0000, 0x0000_0000, 0x5BB9_97F3, 0xE73A_ED4F);
    Step(h, keys, 2, 0xD8D8_DBBC, 0xE73A_ED4F, 0x0000_0000, 0x0000_0000, 0x5405_8712, 0x8322_B01A);
    Step(h, keys, 3, 0xE73A_ED4F, 0x5BFA_6BA6, 0x0000_0000, 0x0000_0000, 0x2CC3_DE6B, 0xB97F_0F18);
  }

  lemma ZerosBoxes8()
    ensures Boxes(0x5E45_E257, 0x0000_0000, 0x0000_0000) == 0x926F_0A02
    ensures Boxes(0x8B19_7BE0, 0x0000_0000, 0x0000_0000) == 0xADA1_D791
    ensures Boxes(0xFDE9_894A, 0x0000_0000, 0x0000_0000) == 0x8527_6D16
    ensures Boxes(0x19DF_0B5C, 0x0000_0000, 0x0000_0000) == 0xF654_B44F
  {
  }

  lemma ZerosPermuted8()
    ensures PermutedWord(0x926F_0A02) == 0xD0E3_1046
    ensures PermutedWord(0xADA1_D791) == 0xA3AC_6B1D
    ensures PermutedWord(0x8527_6D16) == 0x92C6_70BC
    ensures PermutedWord(0xF654_B44F) == 0x6D93_9ABA
  {
  }

  lemma ZerosTo8(h: Halves, keys: seq<Bits>)
    requires Wide(h) && SubKeys(keys) && HoldsKeys(ZERO_KEY, keys) && Reached(h, keys, 4, 0x5BFA_6BA6, 0x5E45_E257)
    ensures Reached(h, keys, 8, 0x19DF_0B5C, 0x907A_13F0)
  {
    hide Reached, HoldsKey, Boxes, PermutedWord;
    ZerosBoxes8();
    ZerosPermuted8();
    Step(h, keys, 4, 0x5BFA_6BA6, 0x5E45_E257, 0x0000_0000, 0x0000_0000, 0x926F_0A02, 0xD0E3_1046);
    Step(h, keys, 5, 0x5E45_E257, 0x8B19_7BE0, 0x0000_0000, 0x0000_0000, 0xADA1_D791, 0xA3AC_6B1D);
    Step(h, keys, 6, 0x8B19_7BE0, 0xFDE9_894A, 0x0000_0000, 0x0000_0000, 0x8527_6D16, 0x92C6_70BC);
    Step(h, keys, 7, 0xFDE9_894A, 0x19DF_0B5C, 0x0000_0000, 0x0000_0000, 0xF654_B44F, 0x6D93_9ABA);
  }

  lemma ZerosBoxes12()
    ensures Boxes(0x907A_13F0, 0x0000_0000, 0x0000_0000) == 0xA0A3_CC22
    ensures Boxes(0x8819_0C50, 0x0000_0000, 0x0000_0000) == 0xA971_BE02
    ensures Boxes(0x25D1_517C, 0x0000_0000, 0x0000_0000) == 0xD2A6_DE7F
    ensures Boxes(0xF3EF_917E, 0x0000_0000, 0x0000_0000) == 0x7129_9E76
  {
  }

  lemma ZerosPermuted12()
    ensures PermutedWord(0xA0A3_CC22) == 0x91C6_070C
    ensures PermutedWord(0xA971_BE02) == 0xB5AB_428C
    ensures PermutedWord(0xD2A6_DE7F) == 0x7BF6_9D2E
    ensures PermutedWord(0x7129_9E76) == 0xB332_C66E
  {
  }

  lemma ZerosTo12(h: Halves, keys: seq<Bits>)
    requires Wide(h) && SubKeys(keys) && HoldsKeys(ZERO_KEY, keys) && Reached(h, keys, 8, 0x19DF_0B5C, 0x907A_13F0)
    ensures Reached(h, keys, 12, 0xF3EF_917E, 0x96E3_9712)
  {
    hide Reached, HoldsKey, Boxes, PermutedWord;
    ZerosBoxes12();
    ZerosPermuted12();
    Step(h, keys, 8, 0x19DF_0B5C, 0x907A_13F0, 0x0000_0000, 0x0000_0000, 0xA0A3_CC22, 0x91C6_070C);
    Step(h, keys, 9, 0x907A_13F0, 0x8819_0C50, 0x0000_0000, 0x0000_0000, 0xA971_BE02, 0xB5AB_428C);
    Step(h, keys, 10, 0x8819_0C50, 0x25D1_517C, 0x0000_0000, 0x0000_0000, 0xD2A6_DE7F, 0x7BF6_9D2E);
    Step(h, keys, 11, 0x25D1_517C, 0xF3EF_917E, 0x0000_0000, 0x0000_0000, 0x7129_9E76, 0xB332_C66E);
  }

  lemma ZerosBoxes16()
    ensures Boxes(0x96E3_9712, 0x0000_0000, 0x0000_0000) == 0xA425_934E
    ensures Boxes(0x5A5D_A34A, 0x0000_0000, 0x0000_0000) == 0x2C47_CF13
    ensures Boxes(0x058C_AD0A, 0x0000_0000, 0x0000_0000) == 0xE241_F763
    ensures Boxes(0xBBEA_0DC2, 0x0000_0000, 0x0000_0000) == 0xBC28_EB0D
  {
  }

  lemma ZerosPermuted16()
    ensures PermutedWord(0xA425_934E) == 0xA9B2_3234
    ensures PermutedWord(0x2C47_CF13) == 0x936F_3A18
    ensures PermutedWord(0xE241_F763) == 0xE1B7_AE88
    ensures PermutedWord(0xBC28_EB0D) == 0x19AC_2AF6
  {
  }

  lemma ZerosTo16(h: Halves, keys: seq<Bits>)
    requires Wide(h) && SubKeys(keys) && HoldsKeys(ZERO_KEY, keys) && Reached(h, keys, 12, 0xF3EF_917E, 0x96E3_9712)
    ensures Reached(h, keys, 16, 0xBBEA_0DC2, 0x1C20_87FC)
  {
    hide Reached, HoldsKey, Boxes, PermutedWord;
    ZerosBoxes16();
    ZerosPermuted16();
    Step(h, keys, 12, 0xF3EF_917E, 0x96E3_9712, 0x0000_0000, 0x0000_0000, 0xA425_934E, 0xA9B2_3234);
    Step(h, keys, 13, 0x96E3_9712, 0x5A5D_A34A, 0x0000_0000, 0x0000_0000, 0x2C47_CF13, 0x936F_3A18);
    Step(h, keys, 14, 0x5A5D_A34A, 0x058C_AD0A, 0x0000_0000, 0x0000_0000, 0xE241_F763, 0xE1B7_AE88);
    Step(h, keys, 15, 0x058C_AD0A, 0xBBEA_0DC2, 0x0000_0000, 0x0000_0000, 0xBC28_EB0D, 0x19AC_2AF6);
  }

  lemma ZerosEncoded(keys: seq<Bits>)
    requires |keys| == 16 && SubKeys(keys) && HoldsKeys(ZERO_KEY, keys)
    ensures Encoded(keys, Pair(0x0000_0000, 0x0000_0000)) == Pair(0x8CA6_4DE9, 0xC1B1_23A7)
  {
    hide Reached, HoldsKeys, Initial, Encoded, Pair, FinalHigh, FinalLow, HalvesOf;
    var h := Initial(Pair(0x0000_0000, 0x0000_0000));
    ZerosStart();
    ZerosEnd();
    InitialWords(0x0000_0000, 0x0000_0000, 0x0000_0000, 0x0000_0000);
    NothingReached(keys, 0x0000_0000, 0x0000_0000);
    ZerosTo4(h, keys);
    ZerosTo8(h, keys);
    ZerosTo12(h, keys);
    ZerosTo16(h, keys);
    EncodedIs(keys, 0x0000_0000, 0x0000_0000, 0xBBEA_0DC2, 0x1C20_87FC, 0x8CA6_4DE9, 0xC1B1_23A7);
  }

  /** The block of zeros under the key of zeros, for both schedules. */
  lemma KnownAnswer()
    ensures Encoded(SubKeysOf(Falses(64)), Falses(64)) == Pair(0x8CA6_4DE9, 0xC1B1_23A7)
    ensures Encoded(NewtonSubKeysOf(Falses(64)), Falses(64)) == Pair(0x8CA6_4DE9, 0xC1B1_23A7)
  {
    hide Encoded, SubKeysOf, NewtonSubKeysOf, Pair, NoKeys, Falses, HoldsKeys;
    ZeroBits();
    ZeroSubKeys();
    ZeroWordsHeld();
    ZerosEncoded(NoKeys(16));
  }

  lemma LetterStart()
    ensures FinalHigh(0x0000_0000, 0x0200_0002) == 0x0041_0000 && FinalLow(0x0000_0000, 0x0200_0002) == 0x0000_0000
  {
  }

  lemma LetterEnd()
    ensures FinalHigh(0x0CDD_DE45, 0x4FE4_7D3C) == 0x6648_FFED && FinalLow(0x0CDD_DE45, 0x4FE4_7D3C) == 0x2D15_7E38
  {
  }

  lemma LetterBoxes4()
    ensures Boxes(0x0000_0000, 0x0000_0000, 0x0000_0000) == 0xEFA7_2C4D
    ensures Boxes(0xDAD8_DBBE, 0x0000_0000, 0x0000_0000) == 0x57B9_97F6
    ensures Boxes(0xE732_E57F, 0x0000_0000, 0x0000_0000) == 0x5490_E27B
    ensures Boxes(0xD5EE_562C, 0x0000_0000, 0x0000_0000) == 0x9F24_ACB0
  {
  }

  lemma LetterPermuted4()
    ensures PermutedWord(0xEFA7_2C4D) == 0xD8D8_DBBC
    ensures PermutedWord(0x57B9_97F6) == 0xE732_E57F
    ensures PermutedWord(0x5490_E27B) == 0x0F36_8D92
    ensures PermutedWord(0x9F24_ACB0) == 0x5388_549F
  {
  }

  lemma LetterTo4(h: Halves, keys: seq<Bits>)
    requires Wide(h) && SubKeys(keys) && HoldsKeys(ZERO_KEY, keys) && Reached(h, keys, 0, 0x0200_0002, 0x0000_0000)
    ensures Reached(h, keys, 4, 0xD5EE_562C, 0xB4BA_B1E0)
  {
    hide Reached, HoldsKey, Boxes, PermutedWord;
    LetterBoxes4();
    LetterPermuted4();
    Step(h, keys, 0, 0x0200_0002, 0x0000_0000, 0x0000_0000, 0x0000_0000, 0xEFA7_2C4D, 0xD8D8_DBBC);
    Step(h, keys, 1, 0x0000_0000, 0xDAD8_DBBE, 0x0000_0000, 0x0000_0000, 0x57B9_97F6, 0xE732_E57F);
    Step(h, keys, 2, 0xDAD8_DBBE, 0xE732_E57F, 0x0000_0000, 0x0000_0000, 0x5490_E27B, 0x0F36_8D92);
    Step(h, keys, 3, 0xE732_E57F, 0xD5EE_562C, 0x0000_0000, 0x0000_0000, 0x9F24_ACB0, 0x5388_549F);
  }

  lemma LetterBoxes8()
    ensures Boxes(0xB4BA_B1E0, 0x0000_0000, 0x0000_0000) == 0xC3E5_F391
    ensures Boxes(0x364B_AFA9, 0x0000_0000, 0x0000_0000) == 0x8D3C_0809
    ensures Boxes(0xA832_E9B4, 0x0000_0000, 0x0000_0000) == 0xC9E0_8184
    ensures Boxes(0x37C2_4E8C, 0x0000_0000, 0x0000_0000) == 0x125E_43E5
  {
  }

  lemma LetterPermuted8()
    ensures PermutedWord(0xC3E5_F391) == 0xE3A5_F985
    ensures PermutedWord(0x8D3C_0809) == 0x1C88_5854
    ensures PermutedWord(0xC9E0_8184) == 0x0189_E125
    ensures PermutedWord(0x125E_43E5) == 0x4475_3C63
  {
  }

  lemma LetterTo8(h: Halves, keys: seq<Bits>)
    requires Wide(h) && SubKeys(keys) && HoldsKeys(ZERO_KEY, keys) && Reached(h, keys, 4, 0xD5EE_562C, 0xB4BA_B1E0)
    ensures Reached(h, keys, 8, 0x37C2_4E8C, 0xEC47_D5D7)
  {
    hide Reached, HoldsKey, Boxes, PermutedWord;
    LetterBoxes8();
    LetterPermuted8();
    Step(h, keys, 4, 0xD5EE_562C, 0xB4BA_B1E0, 0x0000_0000, 0x0000_0000, 0xC3E5_F391, 0xE3A5_F985);
    Step(h, keys, 5, 0xB4BA_B1E0, 0x364B_AFA9, 0x0000_0000, 0x0000_0000, 0x8D3C_0809, 0x1C88_5854);
    Step(h, keys, 6, 0x364B_AFA9, 0xA832_E9B4, 0x0000_0000, 0x0000_0000, 0xC9E0_8184, 0x0189_E125);
    Step(h, keys, 7, 0xA832_E9B4, 0x37C2_4E8C, 0x0000_0000, 0x0000_0000, 0x125E_43E5, 0x4475_3C63);
  }

  lemma LetterBoxes12()
    ensures Boxes(0xEC47_D5D7, 0x0000_0000, 0x0000_0000) == 0x6C63_355D
    ensures Boxes(0x9D9B_E430, 0x0000_0000, 0x0000_0000) == 0x65FB_09E2
    ensures Boxes(0x7814_3282, 0x0000_0000, 0x0000_0000) == 0x150C_1238
    ensures Boxes(0xB7BB_B062, 0x0000_0000, 0x0000_0000) == 0xC23B_598D
  {
  }

  lemma LetterPermuted12()
    ensures PermutedWord(0x6C63_355D) == 0xAA59_AABC
    ensures PermutedWord(0x65FB_09E2) == 0x9453_E755
    ensures PermutedWord(0x150C_1238) == 0x2A20_5452
    ensures PermutedWord(0xC23B_598D) == 0xFCC4_A865
  {
  }

  lemma LetterTo12(h: Halves, keys: seq<Bits>)
    requires Wide(h) && SubKeys(keys) && HoldsKeys(ZERO_KEY, keys) && Reached(h, keys, 8, 0x37C2_4E8C, 0xEC47_D5D7)
    ensures Reached(h, keys, 12, 0xB7BB_B062, 0x84D0_9AE7)
  {
    hide Reached, HoldsKey, Boxes, PermutedWord;
    LetterBoxes12();
    LetterPermuted12();
    Step(h, keys, 8, 0x37C2_4E8C, 0xEC47_D5D7, 0x0000_0000, 0x0000_0000, 0x6C63_355D, 0xAA59_AABC);
    Step(h, keys, 9, 0xEC47_D5D7, 0x9D9B_E430, 0x0000_0000, 0x0000_0000, 0x65FB_09E2, 0x9453_E755);
    Step(h, keys, 10, 0x9D9B_E430, 0x7814_3282, 0x0000_0000, 0x0000_0000, 0x150C_1238, 0x2A20_5452);
    Step(h, keys, 11, 0x7814_3282, 0xB7BB_B062, 0x0000_0000, 0x0000_0000, 0xC23B_598D, 0xFCC4_A865);
  }

  lemma LetterBoxes16()
    ensures Boxes(0x84D0_9AE7, 0x0000_0000, 0x0000_0000) == 0xFF43_0164
    ensures Boxes(0x7762_5650, 0x0000_0000, 0x0000_0000) == 0x813E_AC07
    ensures Boxes(0x9112_C20B, 0x0000_0000, 0x0000_0000) == 0xCE60_DADB
    ensures Boxes(0x0CDD_DE45, 0x0000_0000, 0x0000_0000) == 0xF6B7_4BFF
  {
  }

  lemma LetterPermuted16()
    ensures PermutedWord(0xFF43_0164) == 0xC0D9_E632
    ensures PermutedWord(0x813E_AC07) == 0x15C2_58EC
    ensures PermutedWord(0xCE60_DADB) == 0x7BBF_8815
    ensures PermutedWord(0xF6B7_4BFF) == 0xDEF6_BF37
  {
  }

  lemma LetterTo16(h: Halves, keys: seq<Bits>)
    requires Wide(h) && SubKeys(keys) && HoldsKeys(ZERO_KEY, keys) && Reached(h, keys, 12, 0xB7BB_B062, 0x84D0_9AE7)
    ensures Reached(h, keys, 16, 0x0CDD_DE45, 0x4FE4_7D3C)
  {
    hide Reached, HoldsKey, Boxes, PermutedWord;
    LetterBoxes16();
    LetterPermuted16();
    Step(h, keys, 12, 0xB7BB_B062, 0x84D0_9AE7, 0x0000_0000, 0x0000_0000, 0xFF43_0164, 0xC0D9_E632);
    Step(h, keys, 13, 0x84D0_9AE7, 0x7762_5650, 0x0000_0000, 0x0000_0000, 0x813E_AC07, 0x15C2_58EC);
    Step(h, keys, 14, 0x7762_5650, 0x9112_C20B, 0x0000_0000, 0x0000_0000, 0xCE60_DADB, 0x7BBF_8815);
    Step(h, keys, 15, 0x9112_C20B, 0x0CDD_DE45, 0x0000_0000, 0x0000_0000, 0xF6B7_4BFF, 0xDEF6_BF37);
  }

  lemma LetterEncoded(keys: seq<Bits>)
    requires |keys| == 16 && SubKeys(keys) && HoldsKeys(ZERO_KEY, keys)
    ensures Encoded(keys, Pair(0x0041_0000, 0x0000_0000)) == Pair(0x6648_FFED, 0x2D15_7E38)
  {
    hide Reached, HoldsKeys, Initial, Encoded, Pair, FinalHigh, FinalLow, HalvesOf;
    var h := Initial(Pair(0x0041_0000, 0x0000_0000));
    LetterStart();
    LetterEnd();
    InitialWords(0x0041_0000, 0x0000_0000, 0x0200_0002, 0x0000_0000);
    NothingReached(keys, 0x0200_0002, 0x0000_0000);
    LetterTo4(h, keys);
    LetterTo8(h, keys);
    LetterTo12(h, keys);
    LetterTo16(h, keys);
    EncodedIs(keys, 0x0041_0000, 0x0000_0000, 0x0CDD_DE45, 0x4FE4_7D3C, 0x6648_FFED, 0x2D15_7E38);
  }

  lemma LettersStart()
    ensures FinalHigh(0x0000_0028, 0xAA00_8022) == 0x0041_0042 && FinalLow(0x0000_0028, 0xAA00_8022) == 0x0043_0044
  {
  }

  lemma LettersEnd()
    ensures FinalHigh(0xC4F9_72B9, 0x9CBF_197B) == 0x3719_D077 && FinalLow(0xC4F9_72B9, 0x9CBF_197B) == 0x7F3B_A9F2
  {
  }

  lemma LettersBoxes4()
    ensures Boxes(0x0000_0028, 0x0000_0000, 0x0000_0000) == 0xEFA7_2CBA
    ensures Boxes(0x70CA_57BF, 0x0000_0000, 0x0000_0000) == 0xBDC8_AAF8
    ensures Boxes(0x1BB9_47FB, 0x0000_0000, 0x0000_0000) == 0xCC31_A5CD
    ensures Boxes(0xFD52_FF02, 0x0000_0000, 0x0000_0000) == 0x83F0_661D
  {
  }

  lemma LettersPermuted4()
    ensures PermutedWord(0xEFA7_2CBA) == 0xDACA_D79D
    ensures PermutedWord(0xBDC8_AAF8) == 0x1BB9_47D3
    ensures PermutedWord(0xCC31_A5CD) == 0x8D98_A8BD
    ensures PermutedWord(0x83F0_661D) == 0x4EA5_49AC
  {
  }

  lemma LettersTo4(h: Halves, keys: seq<Bits>)
    requires Wide(h) && SubKeys(keys) && HoldsKeys(ZERO_KEY, keys) && Reached(h, keys, 0, 0xAA00_8022, 0x0000_0028)
    ensures Reached(h, keys, 4, 0xFD52_FF02, 0x551C_0E57)
  {
    hide Reached, HoldsKey, Boxes, PermutedWord;
    LettersBoxes4();
    LettersPermuted4();
    Step(h, keys, 0, 0xAA00_8022, 0x0000_0028, 0x0000_0000, 0x0000_0000, 0xEFA7_2CBA, 0xDACA_D79D);
    Step(h, keys, 1, 0x0000_0028, 0x70CA_57BF, 0x0000_0000, 0x0000_0000, 0xBDC8_AAF8, 0x1BB9_47D3);
    Step(h, keys, 2, 0x70CA_57BF, 0x1BB9_47FB, 0x0000_0000, 0x0000_0000, 0xCC31_A5CD, 0x8D98_A8BD);
    Step(h, keys, 3, 0x1BB9_47FB, 0xFD52_FF02, 0x0000_0000, 0x0000_0000, 0x83F0_661D, 0x4EA5_49AC);
  }

  lemma LettersBoxes8()
    ensures Boxes(0x551C_0E57, 0x0000_0000, 0x0000_0000) == 0x64A5_E502
    ensures Boxes(0x7C54_4C9E, 0x0000_0000, 0x0000_0000) == 0x193C_4035
    ensures Boxes(0x5310_5231, 0x0000_0000, 0x0000_0000) == 0x6B6A_AFEB
    ensures Boxes(0x252F_A253, 0x0000_0000, 0x0000_0000) == 0xEBD9_CA01
  {
  }

  lemma LettersPermuted8()
    ensures PermutedWord(0x64A5_E502) == 0x8106_B39C
    ensures PermutedWord(0x193C_4035) == 0x060C_5C66
    ensures PermutedWord(0x6B6A_AFEB) == 0x597B_EECD
    ensures PermutedWord(0xEBD9_CA01) == 0xD5AD_CB40
  {
  }

  lemma LettersTo8(h: Halves, keys: seq<Bits>)
    requires Wide(h) && SubKeys(keys) && HoldsKeys(ZERO_KEY, keys) && Reached(h, keys, 4, 0xFD52_FF02, 0x551C_0E57)
    ensures Reached(h, keys, 8, 0x252F_A253, 0x86BD_9971)
  {
    hide Reached, HoldsKey, Boxes, PermutedWord;
    LettersBoxes8();
    LettersPermuted8();
    Step(h, keys, 4, 0xFD52_FF02, 0x551C_0E57, 0x0000_0000, 0x0000_0000, 0x64A5_E502, 0x8106_B39C);
    Step(h, keys, 5, 0x551C_0E57, 0x7C54_4C9E, 0x0000_0000, 0x0000_0000, 0x193C_4035, 0x060C_5C66);
    Step(h, keys, 6, 0x7C54_4C9E, 0x5310_5231, 0x0000_0000, 0x0000_0000, 0x6B6A_AFEB, 0x597B_EECD);
    Step(h, keys, 7, 0x5310_5231, 0x252F_A253, 0x0000_0000, 0x0000_0000, 0xEBD9_CA01, 0xD5AD_CB40);
  }

  lemma LettersBoxes12()
    ensures Boxes(0x86BD_9971, 0x0000_0000, 0x0000_0000) == 0xF8E7_F0E1
    ensures Boxes(0x84F2_3DD4, 0x0000_0000, 0x0000_0000) == 0x3F89_C054
    ensures Boxes(0x45A1_DA03, 0x0000_0000, 0x0000_0000) == 0xD228_4444
    ensures Boxes(0xC466_BDBA, 0x0000_0000, 0x0000_0000) == 0x56F0_A0F9
  {
  }

  lemma LettersPermuted12()
    ensures PermutedWord(0xF8E7_F0E1) == 0xA1DD_9F87
    ensures PermutedWord(0x3F89_C054) == 0xC31C_4372
    ensures PermutedWord(0xD228_4444) == 0x4094_806E
    ensures PermutedWord(0x56F0_A0F9) == 0x4F11_8D97
  {
  }

  lemma LettersTo12(h: Halves, keys: seq<Bits>)
    requires Wide(h) && SubKeys(keys) && HoldsKeys(ZERO_KEY, keys) && Reached(h, keys, 8, 0x252F_A253, 0x86BD_9971)
    ensures Reached(h, keys, 12, 0xC466_BDBA, 0x0AB0_5794)
  {
    hide Reached, HoldsKey, Boxes, PermutedWord;
    LettersBoxes12();
    LettersPermuted12();
    Step(h, keys, 8, 0x252F_A253, 0x86BD_9971, 0x0000_0000, 0x0000_0000, 0xF8E7_F0E1, 0xA1DD_9F87);
    Step(h, keys, 9, 0x86BD_9971, 0x84F2_3DD4, 0x0000_0000, 0x0000_0000, 0x3F89_C054, 0xC31C_4372);
    Step(h, keys, 10, 0x84F2_3DD4, 0x45A1_DA03, 0x0000_0000, 0x0000_0000, 0xD228_4444, 0x4094_806E);
    Step(h, keys, 11, 0x45A1_DA03, 0xC466_BDBA, 0x0000_0000, 0x0000_0000, 0x56F0_A0F9, 0x4F11_8D97);
  }

  lemma LettersBoxes16()
    ensures Boxes(0x0AB0_5794, 0x0000_0000, 0x0000_0000) == 0x017A_AAF9
    ensures Boxes(0xDB17_F17F, 0x0000_0000, 0x0000_0000) == 0x0668_EE7B
    ensures Boxes(0x5187_5B48, 0x0000_0000, 0x0000_0000) == 0xF8BA_EA1A
    ensures Boxes(0xC4F9_72B9, 0x0000_0000, 0x0000_0000) == 0x3F11_82CC
  {
  }

  lemma LettersPermuted16()
    ensures PermutedWord(0x017A_AAF9) == 0x1F71_4CC5
    ensures PermutedWord(0x0668_EE7B) == 0x5B37_0CDC
    ensures PermutedWord(0xF8BA_EA1A) == 0x1FEE_83C6
    ensures PermutedWord(0x3F11_82CC) == 0xCD38_4233
  {
  }

  lemma LettersTo16(h: Halves, keys: seq<Bits>)
    requires Wide(h) && SubKeys(keys) && HoldsKeys(ZERO_KEY, keys) && Reached(h, keys, 12, 0xC466_BDBA, 0x0AB0_5794)
    ensures Reached(h, keys, 16, 0xC4F9_72B9, 0x9CBF_197B)
  {
    hide Reached, HoldsKey, Boxes, PermutedWord;
    LettersBoxes16();
    LettersPermuted16();
    Step(h, keys, 12, 0xC466_BDBA, 0x0AB0_5794, 0x0000_0000, 0x0000_0000, 0x017A_AAF9, 0x1F71_4CC5);
    Step(h, keys, 13, 0x0AB0_5794, 0xDB17_F17F, 0x0000_0000, 0x0000_0000, 0x0668_EE7B, 0x5B37_0CDC);
    Step(h, keys, 14, 0xDB17_F17F, 0x5187_5B48, 0x0000_0000, 0x0000_0000, 0xF8BA_EA1A, 0x1FEE_83C6);
    Step(h, keys, 15, 0x5187_5B48, 0xC4F9_72B9, 0x0000_0000, 0x0000_0000, 0x3F11_82CC, 0xCD38_4233);
  }

  lemma LettersEncoded(keys: seq<Bits>)
    requires |keys| == 16 && SubKeys(keys) && HoldsKeys(ZERO_KEY, keys)
    ensures Encoded(keys, Pair(0x0041_0042, 0x0043_0044)) == Pair(0x3719_D077, 0x7F3B_A9F2)
  {
    hide Reached, HoldsKeys, Initial, Encoded, Pair, FinalHigh, FinalLow, HalvesOf;
    var h := Initial(Pair(0x0041_0042, 0x0043_0044));
    LettersStart();
    LettersEnd();
    InitialWords(0x0041_0042, 0x0043_0044, 0xAA00_8022, 0x0000_0028);
    NothingReached(keys, 0xAA00_8022, 0x0000_0028);
    LettersTo4(h, keys);
    LettersTo8(h, keys);
    LettersTo12(h, keys);
    LettersTo16(h, keys);
    EncodedIs(keys, 0x0041_0042, 0x0043_0044, 0xC4F9_72B9, 0x9CBF_197B, 0x3719_D077, 0x7F3B_A9F2);
  }

  const PASSWORD_KEY: seq<SubKeyWords> := [
    SubKeyWords(0x007D_0EEE, 0x006F_4369), SubKeyWords(0x0061_9FB8, 0x0066_CEF2),
    SubKeyWords(0x00D4_B8E7, 0x005D_8D5F), SubKeyWords(0x00B3_EE52, 0x008F_D4D8),
    SubKeyWords(0x006C_77A6, 0x0049_F765), SubKeyWords(0x00F2_955D, 0x00BA_CCAC),
    SubKeyWords(0x004D_C273, 0x00C8_5F97), SubKeyWords(0x00A7_D9BE, 0x009F_62B9),
    SubKeyWords(0x0086_D78B, 0x00A1_6E77), SubKeyWords(0x007B_1B57, 0x007F_8A96),
    SubKeyWords(0x002D_F8C9, 0x0095_45DF), SubKeyWords(0x0013_65FE, 0x000F_B2C5),
    SubKeyWords(0x00FC_4D91, 0x00F2_E5E5), SubKeyWords(0x0057_AB2D, 0x002A_8F8F),
    SubKeyWords(0x008B_B497, 0x00DE_7593), SubKeyWords(0x00D9_660F, 0x00AD_B967)
  ]

  lemma PasswordHalves()
    ensures FirstWord(0x3719_D076, 0x7F3B_A8F2) == 0x0C49_CF9B
    ensures SecondWord(0x3719_D076, 0x7F3B_A8F2) == 0x0B91_972F
  {
  }

  lemma PasswordChoices4()
    ensures Rotated(0x0C49_CF9B, 1) == 0x0893_9F37 && Rotated(0x0B91_972F, 1) == 0x0723_2E5F
    ensures HighOfHalf(0x0893_9F37) == 0x007D_0EEE && LowOfHalf(0x0723_2E5F) == 0x006F_4369
    ensures Rotated(0x0893_9F37, 1) == 0x0127_3E6F && Rotated(0x0723_2E5F, 1) == 0x0E46_5CBE
    ensures HighOfHalf(0x0127_3E6F) == 0x0061_9FB8 && LowOfHalf(0x0E46_5CBE) == 0x0066_CEF2
    ensures Rotated(0x0127_3E6F, 2) == 0x049C_F9BC && Rotated(0x0E46_5CBE, 2) == 0x0919_72FB
    ensures HighOfHalf(0x049C_F9BC) == 0x00D4_B8E7 && LowOfHalf(0x0919_72FB) == 0x005D_8D5F
    ensures Rotated(0x049C_F9BC, 2) == 0x0273_E6F1 && Rotated(0x0919_72FB, 2) == 0x0465_CBEE
    ensures HighOfHalf(0x0273_E6F1) == 0x00B3_EE52 && LowOfHalf(0x0465_CBEE) == 0x008F_D4D8
  {
  }

  lemma PasswordSubKeysTo4(key: Bits, words: seq<SubKeyWords>)
    requires |key| == 64 && words == PASSWORD_KEY && Scheduled(key, 0, 0x0C49_CF9B, 0x0B91_972F, words[..0])
    ensures Scheduled(key, 4, 0x0273_E6F1, 0x0465_CBEE, words[..4])
  {
    hide Scheduled, RotationCount, Rotated, HighOfHalf, LowOfHalf;
    RotationsTotal();
    PasswordChoices4();
    NextSubKey(key, 0, words, 0x0C49_CF9B, 0x0B91_972F, 0x0893_9F37, 0x0723_2E5F, 0x007D_0EEE, 0x006F_4369);
    NextSubKey(key, 1, words, 0x0893_9F37, 0x0723_2E5F, 0x0127_3E6F, 0x0E46_5CBE, 0x0061_9FB8, 0x0066_CEF2);
    NextSubKey(key, 2, words, 0x0127_3E6F, 0x0E46_5CBE, 0x049C_F9BC, 0x0919_72FB, 0x00D4_B8E7, 0x005D_8D5F);
    NextSubKey(key, 3, words, 0x049C_F9BC, 0x0919_72FB, 0x0273_E6F1, 0x0465_CBEE, 0x00B3_EE52, 0x008F_D4D8);
  }

  lemma PasswordChoices8()
    ensures Rotated(0x0273_E6F1, 2) == 0x09CF_9BC4 && Rotated(0x0465_CBEE, 2) == 0x0197_2FB9
    ensures HighOfHalf(0x09CF_9BC4) == 0x006C_77A6 && LowOfHalf(0x0197_2FB9) == 0x0049_F765
    ensures Rotated(0x09CF_9BC4, 2) == 0x073E_6F12 && Rotated(0x0197_2FB9, 2) == 0x065C_BEE4
    ensures HighOfHalf(0x073E_6F12) == 0x00F2_955D && LowOfHalf(0x065C_BEE4) == 0x00BA_CCAC
    ensures Rotated(0x073E_6F12, 2) == 0x0CF9_BC49 && Rotated(0x065C_BEE4, 2) == 0x0972_FB91
    ensures HighOfHalf(0x0CF9_BC49) == 0x004D_C273 && LowOfHalf(0x0972_FB91) == 0x00C8_5F97
    ensures Rotated(0x0CF9_BC49, 2) == 0x03E6_F127 && Rotated(0x0972_FB91, 2) == 0x05CB_EE46
    ensures HighOfHalf(0x03E6_F127) == 0x00A7_D9BE && LowOfHalf(0x05CB_EE46) == 0x009F_62B9
  {
  }

  lemma PasswordSubKeysTo8(key: Bits, words: seq<SubKeyWords>)
    requires |key| == 64 && words == PASSWORD_KEY && Scheduled(key, 4, 0x0273_E6F1, 0x0465_CBEE, words[..4])
    ensures Scheduled(key, 8, 0x03E6_F127, 0x05CB_EE46, words[..8])
  {
    hide Scheduled, RotationCount, Rotated, HighOfHalf, LowOfHalf;
    RotationsTotal();
    PasswordChoices8();
    NextSubKey(key, 4, words, 0x0273_E6F1, 0x0465_CBEE, 0x09CF_9BC4, 0x0197_2FB9, 0x006C_77A6, 0x0049_F765);
    NextSubKey(key, 5, words, 0x09CF_9BC4, 0x0197_2FB9, 0x073E_6F12, 0x065C_BEE4, 0x00F2_955D, 0x00BA_CCAC);
    NextSubKey(key, 6, words, 0x073E_6F12, 0x065C_BEE4, 0x0CF9_BC49, 0x0972_FB91, 0x004D_C273, 0x00C8_5F97);
    NextSubKey(key, 7, words, 0x0CF9_BC49, 0x0972_FB91, 0x03E6_F127, 0x05CB_EE46, 0x00A7_D9BE, 0x009F_62B9);
  }

  lemma PasswordChoices12()
    ensures Rotated(0x03E6_F127, 1) == 0x07CD_E24E && Rotated(0x05CB_EE46, 1) == 0x0B97_DC8C
    ensures HighOfHalf(0x07CD_E24E) == 0x0086_D78B && LowOfHalf(0x0B97_DC8C) == 0x00A1_6E77
    ensures Rotated(0x07CD_E24E, 2) == 0x0F37_8939 && Rotated(0x0B97_DC8C, 2) == 0x0E5F_7232
    ensures HighOfHalf(0x0F37_8939) == 0x007B_1B57 && LowOfHalf(0x0E5F_7232) == 0x007F_8A96
    ensures Rotated(0x0F37_8939, 2) == 0x0CDE_24E7 && Rotated(0x0E5F_7232, 2) == 0x097D_C8CB
    ensures HighOfHalf(0x0CDE_24E7) == 0x002D_F8C9 && LowOfHalf(0x097D_C8CB) == 0x0095_45DF
    ensures Rotated(0x0CDE_24E7, 2) == 0x0378_939F && Rotated(0x097D_C8CB, 2) == 0x05F7_232E
    ensures HighOfHalf(0x0378_939F) == 0x0013_65FE && LowOfHalf(0x05F7_232E) == 0x000F_B2C5
  {
  }

  lemma PasswordSubKeysTo12(key: Bits, words: seq<SubKeyWords>)
    requires |key| == 64 && words == PASSWORD_KEY && Scheduled(key, 8, 0x03E6_F127, 0x05CB_EE46, words[..8])
    ensures Scheduled(key, 12, 0x0378_939F, 0x05F7_232E, words[..12])
  {
    hide Scheduled, RotationCount, Rotated, HighOfHalf, LowOfHalf;
    RotationsTotal();
    PasswordChoices12();
    NextSubKey(key, 8, words, 0x03E6_F127, 0x05CB_EE46, 0x07CD_E24E, 0x0B97_DC8C, 0x0086_D78B, 0x00A1_6E77);
    NextSubKey(key, 9, words, 0x07CD_E24E, 0x0B97_DC8C, 0x0F37_8939, 0x0E5F_7232, 0x007B_1B57, 0x007F_8A96);
    NextSubKey(key, 10, words, 0x0F37_8939, 0x0E5F_7232, 0x0CDE_24E7, 0x097D_C8CB, 0x002D_F8C9, 0x0095_45DF);
    NextSubKey(key, 11, words, 0x0CDE_24E7, 0x097D_C8CB, 0x0378_939F, 0x05F7_232E, 0x0013_65FE, 0x000F_B2C5);
  }

  lemma PasswordChoices16()
    ensures Rotated(0x0378_939F, 2) == 0x0DE2_4E7C && Rotated(0x05F7_232E, 2) == 0x07DC_8CB9
    ensures HighOfHalf(0x0DE2_4E7C) == 0x00FC_4D91 && LowOfHalf(0x07DC_8CB9) == 0x00F2_E5E5
    ensures Rotated(0x0DE2_4E7C, 2) == 0x0789_39F3 && Rotated(0x07DC_8CB9, 2) == 0x0F72_32E5
    ensures HighOfHalf(0x0789_39F3) == 0x0057_AB2D && LowOfHalf(0x0F72_32E5) == 0x002A_8F8F
    ensures Rotated(0x0789_39F3, 2) == 0x0E24_E7CD && Rotated(0x0F72_32E5, 2) == 0x0DC8_CB97
    ensures HighOfHalf(0x0E24_E7CD) == 0x008B_B497 && LowOfHalf(0x0DC8_CB97) == 0x00DE_7593
    ensures Rotated(0x0E24_E7CD, 1) == 0x0C49_CF9B && Rotated(0x0DC8_CB97, 1) == 0x0B91_972F
    ensures HighOfHalf(0x0C49_CF9B) == 0x00D9_660F && LowOfHalf(0x0B91_972F) == 0x00AD_B967
  {
  }

  lemma PasswordSubKeysTo16(key: Bits, words: seq<SubKeyWords>)
    requires |key| == 64 && words == PASSWORD_KEY && Scheduled(key, 12, 0x0378_939F, 0x05F7_232E, words[..12])
    ensures Scheduled(key, 16, 0x0C49_CF9B, 0x0B91_972F, words[..16])
  {
    hide Scheduled, RotationCount, Rotated, HighOfHalf, LowOfHalf;
    RotationsTotal();
    PasswordChoices16();
    NextSubKey(key, 12, words, 0x0378_939F, 0x05F7_232E, 0x0DE2_4E7C, 0x07DC_8CB9, 0x00FC_4D91, 0x00F2_E5E5);
    NextSubKey(key, 13, words, 0x0DE2_4E7C, 0x07DC_8CB9, 0x0789_39F3, 0x0F72_32E5, 0x0057_AB2D, 0x002A_8F8F);
    NextSubKey(key, 14, words, 0x0789_39F3, 0x0F72_32E5, 0x0E24_E7CD, 0x0DC8_CB97, 0x008B_B497, 0x00DE_7593);
    NextSubKey(key, 15, words, 0x0E24_E7CD, 0x0DC8_CB97, 0x0C49_CF9B, 0x0B91_972F, 0x00D9_660F, 0x00AD_B967);
  }

  /** The subkeys of the key made of the block ABCD. */
  lemma PasswordSubKeys()
    ensures HoldsKeys(PASSWORD_KEY, SubKeysOf(Pair(0x3719_D076, 0x7F3B_A8F2)))
  {
    hide Scheduled, Pair, SubKeysOf, HoldsKeys, FirstWord, SecondWord;
    var key, words := Pair(0x3719_D076, 0x7F3B_A8F2), PASSWORD_KEY;
    PasswordHalves();
    NothingScheduled(0x3719_D076, 0x7F3B_A8F2, 0x0C49_CF9B, 0x0B91_972F);
    assert words[..0] == [];
    PasswordSubKeysTo4(key, words);
    PasswordSubKeysTo8(key, words);
    PasswordSubKeysTo12(key, words);
    PasswordSubKeysTo16(key, words);
    AllScheduled(key, 0x0C49_CF9B, 0x0B91_972F, words);
  }

  lemma PasswordStart()
    ensures FinalHigh(0x0000_0000, 0x0000_0000) == 0x0000_0000 && FinalLow(0x0000_0000, 0x0000_0000) == 0x0000_0000
  {
  }

  lemma PasswordEnd()
    ensures FinalHigh(0xD8B6_2783, 0x1E3F_A129) == 0x1F7A_78D1 && FinalLow(0xD8B6_2783, 0x1E3F_A129) == 0xF03D_80A6
  {
  }

  lemma PasswordBoxes4()
    ensures Boxes(0x0000_0000, 0x007D_0EEE, 0x006F_4369) == 0x895D_9414
    ensures Boxes(0xA789_5068, 0x0061_9FB8, 0x0066_CEF2) == 0xBDAB_F681
    ensures Boxes(0xA1EC_4BDF, 0x00D4_B8E7, 0x005D_8D5F) == 0x068E_95D7
    ensures Boxes(0xC4DB_6911, 0x00B3_EE52, 0x008F_D4D8) == 0x6C69_6A95
  {
  }

  lemma PasswordPermuted4()
    ensures PermutedWord(0x895D_9414) == 0xA789_5068
    ensures PermutedWord(0xBDAB_F681) == 0xA1EC_4BDF
    ensures PermutedWord(0x068E_95D7) == 0x6352_3979
    ensures PermutedWord(0x6C69_6A95) == 0x922D_8AF5
  {
  }

  lemma PasswordTo4(h: Halves, keys: seq<Bits>)
    requires Wide(h) && SubKeys(keys) && HoldsKeys(PASSWORD_KEY, keys) && Reached(h, keys, 0, 0x0000_0000, 0x0000_0000)
    ensures Reached(h, keys, 4, 0xC4DB_6911, 0x33C1_C12A)
  {
    hide Reached, HoldsKey, Boxes, PermutedWord;
    PasswordBoxes4();
    PasswordPermuted4();
    Step(h, keys, 0, 0x0000_0000, 0x0000_0000, 0x007D_0EEE, 0x006F_4369, 0x895D_9414, 0xA789_5068);
    Step(h, keys, 1, 0x0000_0000, 0xA789_5068, 0x0061_9FB8, 0x0066_CEF2, 0xBDAB_F681, 0xA1EC_4BDF);
    Step(h, keys, 2, 0xA789_5068, 0xA1EC_4BDF, 0x00D4_B8E7, 0x005D_8D5F, 0x068E_95D7, 0x6352_3979);
    Step(h, keys, 3, 0xA1EC_4BDF, 0xC4DB_6911, 0x00B3_EE52, 0x008F_D4D8, 0x6C69_6A95, 0x922D_8AF5);
  }

  lemma PasswordBoxes8()
    ensures Boxes(0x33C1_C12A, 0x006C_77A6, 0x0049_F765) == 0x3090_D30F
    ensures Boxes(0xE9FD_4233, 0x00F2_955D, 0x00BA_CCAC) == 0x03F6_1263
    ensures Boxes(0x57B2_9C2E, 0x004D_C273, 0x00C8_5F97) == 0x96C5_B823
    ensures Boxes(0x187E_5FA1, 0x00A7_D9BE, 0x009F_62B9) == 0xF86D_7725
  {
  }

  lemma PasswordPermuted8()
    ensures PermutedWord(0x3090_D30F) == 0x2D26_2B22
    ensures PermutedWord(0x03F6_1263) == 0x6473_5D04
    ensures PermutedWord(0x96C5_B823) == 0xF183_1D92
    ensures PermutedWord(0xF86D_7725) == 0xA0AD_BEEE
  {
  }

  lemma PasswordTo8(h: Halves, keys: seq<Bits>)
    requires Wide(h) && SubKeys(keys) && HoldsKeys(PASSWORD_KEY, keys) && Reached(h, keys, 4, 0xC4DB_6911, 0x33C1_C12A)
    ensures Reached(h, keys, 8, 0x187E_5FA1, 0xF71F_22C0)
  {
    hide Reached, HoldsKey, Boxes, PermutedWord;
    PasswordBoxes8();
    PasswordPermuted8();
    Step(h, keys, 4, 0xC4DB_6911, 0x33C1_C12A, 0x006C_77A6, 0x0049_F765, 0x3090_D30F, 0x2D26_2B22);
    Step(h, keys, 5, 0x33C1_C12A, 0xE9FD_4233, 0x00F2_955D, 0x00BA_CCAC, 0x03F6_1263, 0x6473_5D04);
    Step(h, keys, 6, 0xE9FD_4233, 0x57B2_9C2E, 0x004D_C273, 0x00C8_5F97, 0x96C5_B823, 0xF183_1D92);
    Step(h, keys, 7, 0x57B2_9C2E, 0x187E_5FA1, 0x00A7_D9BE, 0x009F_62B9, 0xF86D_7725, 0xA0AD_BEEE);
  }

  lemma PasswordBoxes12()
    ensures Boxes(0xF71F_22C0, 0x0086_D78B, 0x00A1_6E77) == 0xDD25_B16D
    ensures Boxes(0xB1E6_A317, 0x007B_1B57, 0x007F_8A96) == 0xD72C_76F3
    ensures Boxes(0x95A9_FE1F, 0x002D_F8C9, 0x0095_45DF) == 0xAC7C_0297
    ensures Boxes(0xB74D_B962, 0x0013_65FE, 0x000F_B2C5) == 0xAC70_C78D
  {
  }

  lemma PasswordPermuted12()
    ensures PermutedWord(0xDD25_B16D) == 0xA998_FCB6
    ensures PermutedWord(0xD72C_76F3) == 0x62B6_DCDF
    ensures PermutedWord(0xAC7C_0297) == 0x06AB_1A75
    ensures PermutedWord(0xAC70_C78D) == 0x0DAD_2A3D
  {
  }

  lemma PasswordTo12(h: Halves, keys: seq<Bits>)
    requires Wide(h) && SubKeys(keys) && HoldsKeys(PASSWORD_KEY, keys) && Reached(h, keys, 8, 0x187E_5FA1, 0xF71F_22C0)
    ensures Reached(h, keys, 12, 0xB74D_B962, 0x9804_D422)
  {
    hide Reached, HoldsKey, Boxes, PermutedWord;
    PasswordBoxes12();
    PasswordPermuted12();
    Step(h, keys, 8, 0x187E_5FA1, 0xF71F_22C0, 0x0086_D78B, 0x00A1_6E77, 0xDD25_B16D, 0xA998_FCB6);
    Step(h, keys, 9, 0xF71F_22C0, 0xB1E6_A317, 0x007B_1B57, 0x007F_8A96, 0xD72C_76F3, 0x62B6_DCDF);
    Step(h, keys, 10, 0xB1E6_A317, 0x95A9_FE1F, 0x002D_F8C9, 0x0095_45DF, 0xAC7C_0297, 0x06AB_1A75);
    Step(h, keys, 11, 0x95A9_FE1F, 0xB74D_B962, 0x0013_65FE, 0x000F_B2C5, 0xAC70_C78D, 0x0DAD_2A3D);
  }

  lemma PasswordBoxes16()
    ensures Boxes(0x9804_D422, 0x00FC_4D91, 0x00F2_E5E5) == 0x2CCB_BF37
    ensures Boxes(0x0426_969A, 0x0057_AB2D, 0x002A_8F8F) == 0xC88A_D4A5
    ensures Boxes(0xB9C8_594B, 0x008B_B497, 0x00DE_7593) == 0xC695_0DC8
    ensures Boxes(0xD8B6_2783, 0x00D9_660F, 0x00AD_B967) == 0xD15F_D357
  {
  }

  lemma PasswordPermuted16()
    ensures PermutedWord(0x2CCB_BF37) == 0xB36B_2FF8
    ensures PermutedWord(0xC88A_D4A5) == 0x21CC_8D69
    ensures PermutedWord(0xC695_0DC8) == 0xDC90_B119
    ensures PermutedWord(0xD15F_D357) == 0xA7F7_F862
  {
  }

  lemma PasswordTo16(h: Halves, keys: seq<Bits>)
    requires Wide(h) && SubKeys(keys) && HoldsKeys(PASSWORD_KEY, keys) && Reached(h, keys, 12, 0xB74D_B962, 0x9804_D422)
    ensures Reached(h, keys, 16, 0xD8B6_2783, 0x1E3F_A129)
  {
    hide Reached, HoldsKey, Boxes, PermutedWord;
    PasswordBoxes16();
    PasswordPermuted16();
    Step(h, keys, 12, 0xB74D_B962, 0x9804_D422, 0x00FC_4D91, 0x00F2_E5E5, 0x2CCB_BF37, 0xB36B_2FF8);
    Step(h, keys, 13, 0x9804_D422, 0x0426_969A, 0x0057_AB2D, 0x002A_8F8F, 0xC88A_D4A5, 0x21CC_8D69);
    Step(h, keys, 14, 0x0426_969A, 0xB9C8_594B, 0x008B_B497, 0x00DE_7593, 0xC695_0DC8, 0xDC90_B119);
    Step(h, keys, 15, 0xB9C8_594B, 0xD8B6_2783, 0x00D9_660F, 0x00AD_B967, 0xD15F_D357, 0xA7F7_F862);
  }

  lemma PasswordEncoded(keys: seq<Bits>)
    requires |keys| == 16 && SubKeys(keys) && HoldsKeys(PASSWORD_KEY, keys)
    ensures Encoded(keys, Pair(0x0000_0000, 0x0000_0000)) == Pair(0x1F7A_78D1, 0xF03D_80A6)
  {
    hide Reached, HoldsKeys, Initial, Encoded, Pair, FinalHigh, FinalLow, HalvesOf;
    var h := Initial(Pair(0x0000_0000, 0x0000_0000));
    PasswordStart();
    PasswordEnd();
    InitialWords(0x0000_0000, 0x0000_0000, 0x0000_0000, 0x0000_0000);
    NothingReached(keys, 0x0000_0000, 0x0000_0000);
    PasswordTo4(h, keys);
    PasswordTo8(h, keys);
    PasswordTo12(h, keys);
    PasswordTo16(h, keys);
    EncodedIs(keys, 0x0000_0000, 0x0000_0000, 0xD8B6_2783, 0x1E3F_A129, 0x1F7A_78D1, 0xF03D_80A6);
  }

  // ---- the S-boxes -------------------------------------------------------------------------------------

  // The S-boxes on 64 blocks of equal groups of six bits: every entry of each.

  lemma EqualGroups1()
    ensures Boxes(0, 0x0000_0000, 0x0000_0000) == 0xEFA7_2C4D
    ensures Boxes(0, 0x0004_1041, 0x0004_1041) == 0x03DD_EAD1
    ensures Boxes(0, 0x0008_2082, 0x0008_2082) == 0x410D_C1B2
    ensures Boxes(0, 0x000C_30C3, 0x000C_30C3) == 0xFD78_BF0F
  {
  }

  lemma EqualGroups2()
    ensures Boxes(0, 0x0010_4104, 0x0010_4104) == 0xD89E_4A28
    ensures Boxes(0, 0x0014_5145, 0x0014_5145) == 0x740B_24BD
    ensures Boxes(0, 0x0018_6186, 0x0018_6186) == 0x1EE3_1FE4
    ensures Boxes(0, 0x001C_71C7, 0x001C_71C7) == 0x4795_C278
  {
  }

  lemma EqualGroups3()
    ensures Boxes(0, 0x0020_8208, 0x0020_8208) == 0x2660_79F6
    ensures Boxes(0, 0x0024_9249, 0x0024_9249) == 0xEF36_474A
    ensures Boxes(0, 0x0028_A28A, 0x0028_A28A) == 0xFB36_A20F
    ensures Boxes(0, 0x002C_B2CB, 0x002C_B2CB) == 0x224F_7C93
  {
  }

  lemma EqualGroups4()
    ensures Boxes(0, 0x0030_C30C, 0x0030_C30C) == 0xB3F9_B68B
    ensures Boxes(0, 0x0034_D34D, 0x0034_D34D) == 0xD860_D917
    ensures Boxes(0, 0x0038_E38E, 0x0038_E38E) == 0x845A_68D1
    ensures Boxes(0, 0x003C_F3CF, 0x003C_F3CF) == 0x1EA3_15A4
  {
  }

  lemma EqualGroups5()
    ensures Boxes(0, 0x0041_0410, 0x0041_0410) == 0x3911_803A
    ensures Boxes(0, 0x0045_1451, 0x0045_1451) == 0xAC24_56EC
    ensures Boxes(0, 0x0049_2492, 0x0049_2492) == 0xA7D2_5DC9
    ensures Boxes(0, 0x004D_34D3, 0x004D_34D3) == 0x6087_0135
  {
  }

  lemma EqualGroups6()
    ensures Boxes(0, 0x0051_4514, 0x0051_4514) == 0x62C8_3393
    ensures Boxes(0, 0x0055_5555, 0x0055_5555) == 0xC152_FD56
    ensures Boxes(0, 0x0059_6596, 0x0059_6596) == 0xCD75_F47E
    ensures Boxes(0, 0x005D_75D7, 0x005D_75D7) == 0xBAEC_AECB
  {
  }

  lemma EqualGroups7()
    ensures Boxes(0, 0x0061_8618, 0x0061_8618) == 0x5CBB_DE55
    ensures Boxes(0, 0x0065_9659, 0x0065_9659) == 0x96C1_3020
    ensures Boxes(0, 0x0069_A69A, 0x0069_A69A) == 0x904C_07A0
    ensures Boxes(0, 0x006D_B6DB, 0x006D_B6DB) == 0x59BA_9BFE
  {
  }

  lemma EqualGroups8()
    ensures Boxes(0, 0x0071_C71C, 0x0071_C71C) == 0x0524_E56C
    ensures Boxes(0, 0x0075_D75D, 0x0075_D75D) == 0x3BFE_8389
    ensures Boxes(0, 0x0079_E79E, 0x0079_E79E) == 0x7A8F_9B17
    ensures Boxes(0, 0x007D_F7DF, 0x007D_F7DF) == 0x8519_6862
  {
  }

  lemma EqualGroups9()
    ensures Boxes(0, 0x0082_0820, 0x0082_0820) == 0x40DA_4917
    ensures Boxes(0, 0x0086_1861, 0x0086_1861) == 0xFD13_B462
    ensures Boxes(0, 0x008A_28A2, 0x008A_28A2) == 0x1E66_2E4B
    ensures Boxes(0, 0x008E_38E3, 0x008E_38E3) == 0xC8AF_83B1
  {
  }

  lemma EqualGroups10()
    ensures Boxes(0, 0x0092_4924, 0x0092_4924) == 0xE749_1FB4
    ensures Boxes(0, 0x0096_5965, 0x0096_5965) == 0x8AD0_C2DE
    ensures Boxes(0, 0x009A_69A6, 0x009A_69A6) == 0x8B90_B5D1
    ensures Boxes(0, 0x009E_79E7, 0x009E_79E7) == 0x2106_7C87
  {
  }

  lemma EqualGroups11()
    ensures Boxes(0, 0x00A2_8A28, 0x00A2_8A28) == 0xDA8C_A2C9
    ensures Boxes(0, 0x00A6_9A69, 0x00A6_9A69) == 0x436A_1914
    ensures Boxes(0, 0x00AA_AAAA, 0x00AA_AAAA) == 0x64FB_D83C
    ensures Boxes(0, 0x00AE_BAEB, 0x00AE_BAEB) == 0x9F91_E54A
  {
  }

  lemma EqualGroups12()
    ensures Boxes(0, 0x00B2_CB2C, 0x00B2_CB2C) == 0x2D37_7C7E
    ensures Boxes(0, 0x00B6_DB6D, 0x00B6_DB6D) == 0x148D_2FA8
    ensures Boxes(0, 0x00BA_EBAE, 0x00BA_EBAE) == 0xB10D_83E2
    ensures Boxes(0, 0x00BE_FBEF, 0x00BE_FBEF) == 0x7278_DA7D
  {
  }

  lemma EqualGroups13()
    ensures Boxes(0, 0x00C3_0C30, 0x00C3_0C30) == 0xF5BF_F7A0
    ensures Boxes(0, 0x00C7_1C71, 0x00C7_1C71) == 0x5B49_6B9F
    ensures Boxes(0, 0x00CB_2CB2, 0x00CB_2CB2) == 0xC811_90F6
    ensures Boxes(0, 0x00CF_3CF3, 0x00CF_3CF3) == 0xB6F4_FE5C
  {
  }

  lemma EqualGroups14()
    ensures Boxes(0, 0x00D3_4D34, 0x00D3_4D34) == 0x9C23_C46A
    ensures Boxes(0, 0x00D7_5D75, 0x00D7_5D75) == 0x37E5_0109
    ensures Boxes(0, 0x00DB_6DB6, 0x00DB_6DB6) == 0x76CE_5A8D
    ensures Boxes(0, 0x00DF_7DF7, 0x00DF_7DF7) == 0xEC3B_97F0
  {
  }

  lemma EqualGroups15()
    ensures Boxes(0, 0x00E3_8E38, 0x00E3_8E38) == 0x3955_610F
    ensures Boxes(0, 0x00E7_9E79, 0x00E7_9E79) == 0xA0BC_A6E3
    ensures Boxes(0, 0x00EB_AEBA, 0x00EB_AEBA) == 0xA3A2_3D53
    ensures Boxes(0, 0x00EF_BEFB, 0x00EF_BEFB) == 0x0557_4025
  {
  }

  lemma EqualGroups16()
    ensures Boxes(0, 0x00F3_CF3C, 0x00F3_CF3C) == 0x52E8_0B95
    ensures Boxes(0, 0x00F7_DF7D, 0x00F7_DF7D) == 0x6E22_5836
    ensures Boxes(0, 0x00FB_EFBE, 0x00FB_EFBE) == 0x0F74_E628
    ensures Boxes(0, 0x00FF_FFFF, 0x00FF_FFFF) == 0xD9CE_3DCB
  {
  }
}
