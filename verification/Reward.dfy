/** The block reward of miner/server.cpp: five percent less for every 2016 blocks. */
module Reward {
  const INITIAL: nat := 50_0000_0000

  const UINT64: nat := 0x1_0000_0000_0000_0000

  // (int)q for an unsigned 64-bit q: the low 32 bits, as a signed number
  function ToInt32(q: nat): int
  {
    var low := q % 0x1_0000_0000;
    if low < 0x8000_0000 then low else low - 0x1_0000_0000
  }

  // The reward after a number of weeks, on unbounded integers.
  function Decay(week: nat): nat
  {
    if week == 0 then INITIAL else Decay(week - 1) * 95 / 100
  }

  function RewardOf(block: nat): nat
  {
    var week := ToInt32(block / 2016);
    if week < 0 then INITIAL else Decay(week)
  }

  // get_reward: no product in the loop leaves 64 bits.
  method GetReward(block: nat) returns (reward: nat)
    requires block < UINT64
    ensures reward == RewardOf(block)
  {
    var week := ToInt32(block / 2016);
    reward := INITIAL;
    var i := 0;
    while i < week
      invariant 0 <= i && (i <= week || i == 0)
      invariant reward == Decay(i) <= INITIAL
    {
      Fits(reward);
      reward := (reward * 95) % UINT64;
      reward := reward / 100;
      i := i + 1;
      assert Decay(i) == Decay(i - 1) * 95 / 100;
    }
  }

  lemma Fits(reward: nat)
    requires reward <= INITIAL
    ensures (reward * 95) % UINT64 == reward * 95 && reward * 95 / 100 <= INITIAL
  {}

  // ----- The decay -----

  lemma {:induction false} Falls(from: nat, to: nat)
    requires from <= to
    ensures Decay(to) <= Decay(from)
    ensures from < to && Decay(from) > 0 ==> Decay(to) < Decay(from)
  {
    if from < to {
      Falls(from, to - 1);
    }
  }

  // 50 coins times 0.95 to the power of the week
  ghost function Ideal(week: nat): real
  {
    if week == 0 then INITIAL as real else Ideal(week - 1) * 0.95
  }

  lemma {:induction false} NearIdeal(week: nat)
    ensures Decay(week) as real <= Ideal(week) < Decay(week) as real + 20.0
  {
    if week > 0 {
      NearIdeal(week - 1);
      var before, after := Decay(week - 1), Decay(week);
      assert 100 * after <= 95 * before < 100 * after + 100;
      assert (100 * after) as real == 100.0 * after as real && (95 * before) as real == 95.0 * before as real;
    }
  }

  // From week w on, and not before, no reward is left.
  ghost predicate RunsOutAt(w: nat) { forall v: nat :: Decay(v) == 0 <==> v >= w }

  lemma FirstReward()
    ensures Decay(0) == INITIAL
  {}

  lemma NextWeek(week: nat, v: nat, w: nat)
    requires Decay(week) == v && 0 <= 95 * v - 100 * w < 100
    ensures Decay(week + 1) == w
  {}

  lemma TenWeeks(week: nat, v0: nat, v1: nat, v2: nat, v3: nat, v4: nat, v5: nat, v6: nat, v7: nat, v8: nat, v9: nat,
                 v10: nat)
    requires Decay(week) == v0
    requires 0 <= 95 * v0 - 100 * v1 < 100 && 0 <= 95 * v1 - 100 * v2 < 100 && 0 <= 95 * v2 - 100 * v3 < 100
    requires 0 <= 95 * v3 - 100 * v4 < 100 && 0 <= 95 * v4 - 100 * v5 < 100 && 0 <= 95 * v5 - 100 * v6 < 100
    requires 0 <= 95 * v6 - 100 * v7 < 100 && 0 <= 95 * v7 - 100 * v8 < 100 && 0 <= 95 * v8 - 100 * v9 < 100
    requires 0 <= 95 * v9 - 100 * v10 < 100
    ensures Decay(week + 10) == v10
  {
    hide Decay;
    NextWeek(week, v0, v1);
    NextWeek(week + 1, v1, v2);
    NextWeek(week + 2, v2, v3);
    NextWeek(week + 3, v3, v4);
    NextWeek(week + 4, v4, v5);
    NextWeek(week + 5, v5, v6);
    NextWeek(week + 6, v6, v7);
    NextWeek(week + 7, v7, v8);
    NextWeek(week + 8, v8, v9);
    NextWeek(week + 9, v9, v10);
  }

  // Each row begins with the week and its reward, with which the row before ended.
  lemma WeeksTo100()
    ensures Decay(100) == 29602637
  {
    hide Decay;
    FirstReward();
    TenWeeks(0, 5000000000, 4750000000, 4512500000, 4286875000, 4072531250, 3868904687,
             3675459452, 3491686479, 3317102155, 3151247047, 2993684694);
    TenWeeks(10, 2993684694, 2844000459, 2701800436, 2566710414, 2438374893, 2316456148,
             2200633340, 2090601673, 1986071589, 1886768009, 1792429608);
    TenWeeks(20, 1792429608, 1702808127, 1617667720, 1536784334, 1459945117, 1386947861,
             1317600467, 1251720443, 1189134420, 1129677699, 1073193814);
    TenWeeks(30, 1073193814, 1019534123, 968557416, 920129545, 874123067, 830416913,
             788896067, 749451263, 711978699, 676379764, 642560775);
    TenWeeks(40, 642560775, 610432736, 579911099, 550915544, 523369766, 497201277,
             472341213, 448724152, 426287944, 404973546, 384724868);
    TenWeeks(50, 384724868, 365488624, 347214192, 329853482, 313360807, 297692766,
             282808127, 268667720, 255234334, 242472617, 230348986);
    TenWeeks(60, 230348986, 218831536, 207889959, 197495461, 187620687, 178239652,
             169327669, 160861285, 152818220, 145177309, 137918443);
    TenWeeks(70, 137918443, 131022520, 124471394, 118247824, 112335432, 106718660,
             101382727, 96313590, 91497910, 86923014, 82576863);
    TenWeeks(80, 82576863, 78448019, 74525618, 70799337, 67259370, 63896401,
             60701580, 57666501, 54783175, 52044016, 49441815);
    TenWeeks(90, 49441815, 46969724, 44621237, 42390175, 40270666, 38257132,
             36344275, 34527061, 32800707, 31160671, 29602637);
  }

  lemma WeeksTo200()
    ensures Decay(200) == 175254
  {
    hide Decay;
    WeeksTo100();
    TenWeeks(100, 29602637, 28122505, 26716379, 25380560, 24111532, 22905955,
             21760657, 20672624, 19638992, 18657042, 17724189);
    TenWeeks(110, 17724189, 16837979, 15996080, 15196276, 14436462, 13714638,
             13028906, 12377460, 11758587, 11170657, 10612124);
    TenWeeks(120, 10612124, 10081517, 9577441, 9098568, 8643639, 8211457, 7800884, 7410839, 7040297, 6688282, 6353867);
    TenWeeks(130, 6353867, 6036173, 5734364, 5447645, 5175262, 4916498, 4670673, 4437139, 4215282, 4004517, 3804291);
    TenWeeks(140, 3804291, 3614076, 3433372, 3261703, 3098617, 2943686, 2796501, 2656675, 2523841, 2397648, 2277765);
    TenWeeks(150, 2277765, 2163876, 2055682, 1952897, 1855252, 1762489, 1674364, 1590645, 1511112, 1435556, 1363778);
    TenWeeks(160, 1363778, 1295589, 1230809, 1169268, 1110804, 1055263, 1002499, 952374, 904755, 859517, 816541);
    TenWeeks(170, 816541, 775713, 736927, 700080, 665076, 631822, 600230, 570218, 541707, 514621, 488889);
    TenWeeks(180, 488889, 464444, 441221, 419159, 398201, 378290, 359375, 341406, 324335, 308118, 292712);
    TenWeeks(190, 292712, 278076, 264172, 250963, 238414, 226493, 215168, 204409, 194188, 184478, 175254);
  }

  lemma WeeksTo300()
    ensures Decay(300) == 1028
  {
    hide Decay;
    WeeksTo200();
    TenWeeks(200, 175254, 166491, 158166, 150257, 142744, 135606, 128825, 122383, 116263, 110449, 104926);
    TenWeeks(210, 104926, 99679, 94695, 89960, 85462, 81188, 77128, 73271, 69607, 66126, 62819);
    TenWeeks(220, 62819, 59678, 56694, 53859, 51166, 48607, 46176, 43867, 41673, 39589, 37609);
    TenWeeks(230, 37609, 35728, 33941, 32243, 30630, 29098, 27643, 26260, 24947, 23699, 22514);
    TenWeeks(240, 22514, 21388, 20318, 19302, 18336, 17419, 16548, 15720, 14934, 14187, 13477);
    TenWeeks(250, 13477, 12803, 12162, 11553, 10975, 10426, 9904, 9408, 8937, 8490, 8065);
    TenWeeks(260, 8065, 7661, 7277, 6913, 6567, 6238, 5926, 5629, 5347, 5079, 4825);
    TenWeeks(270, 4825, 4583, 4353, 4135, 3928, 3731, 3544, 3366, 3197, 3037, 2885);
    TenWeeks(280, 2885, 2740, 2603, 2472, 2348, 2230, 2118, 2012, 1911, 1815, 1724);
    TenWeeks(290, 1724, 1637, 1555, 1477, 1403, 1332, 1265, 1201, 1140, 1083, 1028);
  }

  lemma WeeksTo380()
    ensures Decay(380) == 9
  {
    hide Decay;
    WeeksTo300();
    TenWeeks(300, 1028, 976, 927, 880, 836, 794, 754, 716, 680, 646, 613);
    TenWeeks(310, 613, 582, 552, 524, 497, 472, 448, 425, 403, 382, 362);
    TenWeeks(320, 362, 343, 325, 308, 292, 277, 263, 249, 236, 224, 212);
    TenWeeks(330, 212, 201, 190, 180, 171, 162, 153, 145, 137, 130, 123);
    TenWeeks(340, 123, 116, 110, 104, 98, 93, 88, 83, 78, 74, 70);
    TenWeeks(350, 70, 66, 62, 58, 55, 52, 49, 46, 43, 40, 38);
    TenWeeks(360, 38, 36, 34, 32, 30, 28, 26, 24, 22, 20, 19);
    TenWeeks(370, 19, 18, 17, 16, 15, 14, 13, 12, 11, 10, 9);
  }

  // The last reward, a single unit, is paid in week 388.
  lemma LastReward()
    ensures Decay(388) == 1
  {
    hide Decay;
    WeeksTo380();
    NextWeek(380, 9, 8);
    NextWeek(381, 8, 7);
    NextWeek(382, 7, 6);
    NextWeek(383, 6, 5);
    NextWeek(384, 5, 4);
    NextWeek(385, 4, 3);
    NextWeek(386, 3, 2);
    NextWeek(387, 2, 1);
  }

  const FIRST_EMPTY_WEEK: nat := 389

  lemma RunsOut()
    ensures RunsOutAt(FIRST_EMPTY_WEEK)
  {
    hide Decay;
    LastReward();
    NextWeek(388, 1, 0);
    forall v: nat
      ensures Decay(v) == 0 <==> v >= 389
    {
      if v >= 389 { Falls(389, v); } else { Falls(v, 388); }
    }
  }

  // ----- The reward by block number -----

  // Never more for a later block, and strictly less in a later week, as long as there is any: for
  // every block whose week fits the 32 bits of the loop counter.
  lemma RewardFalls(early: nat, late: nat)
    requires early <= late < 2016 * 0x8000_0000
    ensures RewardOf(late) <= RewardOf(early)
    ensures early / 2016 < late / 2016 && RewardOf(early) > 0 ==> RewardOf(late) < RewardOf(early)
  {
    hide Decay;
    var from, to := early / 2016, late / 2016;
    assert from <= to < 0x8000_0000;
    Falls(from, to);
  }

  lemma RewardNearIdeal(block: nat)
    requires block < 2016 * 0x8000_0000
    ensures RewardOf(block) as real <= Ideal(block / 2016) < RewardOf(block) as real + 20.0
  {
    hide Decay, Ideal;
    NearIdeal(block / 2016);
  }

  // For every 64-bit block number: the reward is that of the block's week exactly when the week, cut
  // to 32 bits, is the week itself or one in which nothing is left. Otherwise a reward starts anew.
  lemma RewardIsDecay(block: nat)
    requires block < UINT64
    ensures var week := block / 2016;
            RewardOf(block) == Decay(week) <==> week < 0x8000_0000 || ToInt32(week) >= FIRST_EMPTY_WEEK
  {
    hide Decay;
    RunsOut();
    FirstReward();
  }

  // The first blocks past the range get the full reward again, after those of the week before got none.
  lemma RewardRestarts(block: nat)
    requires block / 2016 == 0x8000_0000
    ensures RewardOf(block - 2016) == 0 && RewardOf(block) == INITIAL
  {
    hide Decay;
    RunsOut();
    FirstReward();
    assert (block - 2016) / 2016 == 0x7fff_ffff;
  }
}
