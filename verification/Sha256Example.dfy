/** The first example of FIPS 180-4, computed in the logic: the digest of the three bytes `abc` is the
    published one, which checks each of the constants and functions that SHA-256 is defined by. */
module Sha256Example {
  import opened Utf8
  import opened Sha256

  /** The message as one padded block. */
  predicate IsBlock(block: Bytes) {
    && |block| == 64 && block[..4] == [0x61, 0x62, 0x63, 0x80] && block[63] == 0x18
    && forall i | 4 <= i < 63 :: block[i] == 0
  }

  lemma PaddedIsBlock()
    ensures var block := Padded([0x61, 0x62, 0x63]); |block| == 64 && IsBlock(block)
  {
    assert BigEndian(24, 8) == [0, 0, 0, 0, 0, 0, 0, 0x18] by {
      assert BigEndian(0, 7) == [0, 0, 0, 0, 0, 0, 0];
    }
  }

  /** Eight words of the message schedule, from position `t`. */
  predicate Words(block: Bytes, t: nat, w0: Word, w1: Word, w2: Word, w3: Word, w4: Word, w5: Word, w6: Word, w7: Word)
    requires |block| == 64 && t + 8 <= 64
  {
    && Schedule(block, t) == w0 && Schedule(block, t + 1) == w1 && Schedule(block, t + 2) == w2
    && Schedule(block, t + 3) == w3 && Schedule(block, t + 4) == w4 && Schedule(block, t + 5) == w5
    && Schedule(block, t + 6) == w6 && Schedule(block, t + 7) == w7
  }

  lemma FirstFour()
    ensures FromBytes(0x61, 0x62, 0x63, 0x80) == 0x61626380
  {
    assert 0x61 * 0x1000000 + 0x62 * 0x10000 + 0x63 * 0x100 + 0x80 == 0x61626380;
  }

  lemma NoBytes()
    ensures FromBytes(0, 0, 0, 0) == 0
  {
  }

  lemma LastFour()
    ensures FromBytes(0, 0, 0, 0x18) == 0x18
  {
  }

  lemma FirstWord(block: Bytes, t: nat)
    requires |block| == 64 && IsBlock(block) && t < 16
    ensures Schedule(block, t) == if t == 0 then 0x61626380 else if t == 15 then 0x18 else 0
  {
    FirstFour();
    NoBytes();
    LastFour();
    ScheduleStart(block, t);
    hide Schedule, FromBytes;
    assert block[..4][0] == block[0] && block[..4][1] == block[1] && block[..4][2] == block[2] && block[..4][3] == block[3];
  }

  lemma FirstWords(block: Bytes)
    requires |block| == 64 && IsBlock(block)
    ensures Words(block, 0, 0x61626380, 0x00000000, 0x00000000, 0x00000000, 0x00000000, 0x00000000, 0x00000000,
                  0x00000000)
    ensures Words(block, 8, 0x00000000, 0x00000000, 0x00000000, 0x00000000, 0x00000000, 0x00000000, 0x00000000,
                  0x00000018)
  {
    hide Schedule, IsBlock;
    forall t | 0 <= t < 16 ensures Schedule(block, t) == if t == 0 then 0x61626380 else if t == 15 then 0x18 else 0 {
      FirstWord(block, t);
    }
  }

  lemma Words16(block: Bytes)
    requires |block| == 64 && IsBlock(block)
    ensures Words(block, 16, 0x61626380, 0x000f0000, 0x7da86405, 0x600003c6, 0x3e9d7b78, 0x0183fc00, 0x12dcbfdb,
                  0xe2e2c38e)
  {
    hide Schedule, IsBlock, Add4, SmallSigma0, SmallSigma1;
    FirstWords(block);
    Sums16();
    ScheduleStep(block, 16); ScheduleStep(block, 17); ScheduleStep(block, 18); ScheduleStep(block, 19);
    ScheduleStep(block, 20); ScheduleStep(block, 21); ScheduleStep(block, 22); ScheduleStep(block, 23);
  }

  lemma Sums16()
    ensures Add4(0x61626380, SmallSigma0(0x00000000), 0x00000000, SmallSigma1(0x00000000)) == 0x61626380
    ensures Add4(0x00000000, SmallSigma0(0x00000000), 0x00000000, SmallSigma1(0x00000018)) == 0x000f0000
    ensures Add4(0x00000000, SmallSigma0(0x00000000), 0x00000000, SmallSigma1(0x61626380)) == 0x7da86405
    ensures Add4(0x00000000, SmallSigma0(0x00000000), 0x00000000, SmallSigma1(0x000f0000)) == 0x600003c6
    ensures Add4(0x00000000, SmallSigma0(0x00000000), 0x00000000, SmallSigma1(0x7da86405)) == 0x3e9d7b78
    ensures Add4(0x00000000, SmallSigma0(0x00000000), 0x00000000, SmallSigma1(0x600003c6)) == 0x0183fc00
    ensures Add4(0x00000000, SmallSigma0(0x00000000), 0x00000018, SmallSigma1(0x3e9d7b78)) == 0x12dcbfdb
    ensures Add4(0x00000000, SmallSigma0(0x00000000), 0x61626380, SmallSigma1(0x0183fc00)) == 0xe2e2c38e
  {
  }

  lemma Words24(block: Bytes)
    requires |block| == 64 && IsBlock(block)
    ensures Words(block, 24, 0xc8215c1a, 0xb73679a2, 0xe5bc3909, 0x32663c5b, 0x9d209d67, 0xec8726cb, 0x702138a4,
                  0xd3b7973b)
  {
    hide Schedule, IsBlock, Add4, SmallSigma0, SmallSigma1;
    FirstWords(block);
    Words16(block);
    Sums24();
    ScheduleStep(block, 24); ScheduleStep(block, 25); ScheduleStep(block, 26); ScheduleStep(block, 27);
    ScheduleStep(block, 28); ScheduleStep(block, 29); ScheduleStep(block, 30); ScheduleStep(block, 31);
  }

  lemma Sums24()
    ensures Add4(0x00000000, SmallSigma0(0x00000000), 0x000f0000, SmallSigma1(0x12dcbfdb)) == 0xc8215c1a
    ensures Add4(0x00000000, SmallSigma0(0x00000000), 0x7da86405, SmallSigma1(0xe2e2c38e)) == 0xb73679a2
    ensures Add4(0x00000000, SmallSigma0(0x00000000), 0x600003c6, SmallSigma1(0xc8215c1a)) == 0xe5bc3909
    ensures Add4(0x00000000, SmallSigma0(0x00000000), 0x3e9d7b78, SmallSigma1(0xb73679a2)) == 0x32663c5b
    ensures Add4(0x00000000, SmallSigma0(0x00000000), 0x0183fc00, SmallSigma1(0xe5bc3909)) == 0x9d209d67
    ensures Add4(0x00000000, SmallSigma0(0x00000000), 0x12dcbfdb, SmallSigma1(0x32663c5b)) == 0xec8726cb
    ensures Add4(0x00000000, SmallSigma0(0x00000018), 0xe2e2c38e, SmallSigma1(0x9d209d67)) == 0x702138a4
    ensures Add4(0x00000018, SmallSigma0(0x61626380), 0xc8215c1a, SmallSigma1(0xec8726cb)) == 0xd3b7973b
  {
  }

  lemma Words32(block: Bytes)
    requires |block| == 64 && IsBlock(block)
    ensures Words(block, 32, 0x93f5997f, 0x3b68ba73, 0xaff4ffc1, 0xf10a5c62, 0x0a8b3996, 0x72af830a, 0x9409e33e,
                  0x24641522)
  {
    hide Schedule, IsBlock, Add4, SmallSigma0, SmallSigma1;
    Words16(block);
    Words24(block);
    Sums32();
    ScheduleStep(block, 32); ScheduleStep(block, 33); ScheduleStep(block, 34); ScheduleStep(block, 35);
    ScheduleStep(block, 36); ScheduleStep(block, 37); ScheduleStep(block, 38); ScheduleStep(block, 39);
  }

  lemma Sums32()
    ensures Add4(0x61626380, SmallSigma0(0x000f0000), 0xb73679a2, SmallSigma1(0x702138a4)) == 0x93f5997f
    ensures Add4(0x000f0000, SmallSigma0(0x7da86405), 0xe5bc3909, SmallSigma1(0xd3b7973b)) == 0x3b68ba73
    ensures Add4(0x7da86405, SmallSigma0(0x600003c6), 0x32663c5b, SmallSigma1(0x93f5997f)) == 0xaff4ffc1
    ensures Add4(0x600003c6, SmallSigma0(0x3e9d7b78), 0x9d209d67, SmallSigma1(0x3b68ba73)) == 0xf10a5c62
    ensures Add4(0x3e9d7b78, SmallSigma0(0x0183fc00), 0xec8726cb, SmallSigma1(0xaff4ffc1)) == 0x0a8b3996
    ensures Add4(0x0183fc00, SmallSigma0(0x12dcbfdb), 0x702138a4, SmallSigma1(0xf10a5c62)) == 0x72af830a
    ensures Add4(0x12dcbfdb, SmallSigma0(0xe2e2c38e), 0xd3b7973b, SmallSigma1(0x0a8b3996)) == 0x9409e33e
    ensures Add4(0xe2e2c38e, SmallSigma0(0xc8215c1a), 0x93f5997f, SmallSigma1(0x72af830a)) == 0x24641522
  {
  }

  lemma Words40(block: Bytes)
    requires |block| == 64 && IsBlock(block)
    ensures Words(block, 40, 0x9f47bf94, 0xf0a64f5a, 0x3e246a79, 0x27333ba3, 0x0c4763f2, 0x840abf27, 0x7a290d5d,
                  0x065c43da)
  {
    hide Schedule, IsBlock, Add4, SmallSigma0, SmallSigma1;
    Words24(block);
    Words32(block);
    Sums40();
    ScheduleStep(block, 40); ScheduleStep(block, 41); ScheduleStep(block, 42); ScheduleStep(block, 43);
    ScheduleStep(block, 44); ScheduleStep(block, 45); ScheduleStep(block, 46); ScheduleStep(block, 47);
  }

  lemma Sums40()
    ensures Add4(0xc8215c1a, SmallSigma0(0xb73679a2), 0x3b68ba73, SmallSigma1(0x9409e33e)) == 0x9f47bf94
    ensures Add4(0xb73679a2, SmallSigma0(0xe5bc3909), 0xaff4ffc1, SmallSigma1(0x24641522)) == 0xf0a64f5a
    ensures Add4(0xe5bc3909, SmallSigma0(0x32663c5b), 0xf10a5c62, SmallSigma1(0x9f47bf94)) == 0x3e246a79
    ensures Add4(0x32663c5b, SmallSigma0(0x9d209d67), 0x0a8b3996, SmallSigma1(0xf0a64f5a)) == 0x27333ba3
    ensures Add4(0x9d209d67, SmallSigma0(0xec8726cb), 0x72af830a, SmallSigma1(0x3e246a79)) == 0x0c4763f2
    ensures Add4(0xec8726cb, SmallSigma0(0x702138a4), 0x9409e33e, SmallSigma1(0x27333ba3)) == 0x840abf27
    ensures Add4(0x702138a4, SmallSigma0(0xd3b7973b), 0x24641522, SmallSigma1(0x0c4763f2)) == 0x7a290d5d
    ensures Add4(0xd3b7973b, SmallSigma0(0x93f5997f), 0x9f47bf94, SmallSigma1(0x840abf27)) == 0x065c43da
  {
  }

  lemma Words48(block: Bytes)
    requires |block| == 64 && IsBlock(block)
    ensures Words(block, 48, 0xfb3e89cb, 0xcc7617db, 0xb9e66c34, 0xa9993667, 0x84badedd, 0xc21462bc, 0x1487472c,
                  0xb20f7a99)
  {
    hide Schedule, IsBlock, Add4, SmallSigma0, SmallSigma1;
    Words32(block);
    Words40(block);
    Sums48();
    ScheduleStep(block, 48); ScheduleStep(block, 49); ScheduleStep(block, 50); ScheduleStep(block, 51);
    ScheduleStep(block, 52); ScheduleStep(block, 53); ScheduleStep(block, 54); ScheduleStep(block, 55);
  }

  lemma Sums48()
    ensures Add4(0x93f5997f, SmallSigma0(0x3b68ba73), 0xf0a64f5a, SmallSigma1(0x7a290d5d)) == 0xfb3e89cb
    ensures Add4(0x3b68ba73, SmallSigma0(0xaff4ffc1), 0x3e246a79, SmallSigma1(0x065c43da)) == 0xcc7617db
    ensures Add4(0xaff4ffc1, SmallSigma0(0xf10a5c62), 0x27333ba3, SmallSigma1(0xfb3e89cb)) == 0xb9e66c34
    ensures Add4(0xf10a5c62, SmallSigma0(0x0a8b3996), 0x0c4763f2, SmallSigma1(0xcc7617db)) == 0xa9993667
    ensures Add4(0x0a8b3996, SmallSigma0(0x72af830a), 0x840abf27, SmallSigma1(0xb9e66c34)) == 0x84badedd
    ensures Add4(0x72af830a, SmallSigma0(0x9409e33e), 0x7a290d5d, SmallSigma1(0xa9993667)) == 0xc21462bc
    ensures Add4(0x9409e33e, SmallSigma0(0x24641522), 0x065c43da, SmallSigma1(0x84badedd)) == 0x1487472c
    ensures Add4(0x24641522, SmallSigma0(0x9f47bf94), 0xfb3e89cb, SmallSigma1(0xc21462bc)) == 0xb20f7a99
  {
  }

  lemma Words56(block: Bytes)
    requires |block| == 64 && IsBlock(block)
    ensures Words(block, 56, 0xef57b9cd, 0xebe6b238, 0x9fe3095e, 0x78bc8d4b, 0xa43fcf15, 0x668b2ff8, 0xeeaba2cc,
                  0x12b1edeb)
  {
    hide Schedule, IsBlock, Add4, SmallSigma0, SmallSigma1;
    Words40(block);
    Words48(block);
    Sums56();
    ScheduleStep(block, 56); ScheduleStep(block, 57); ScheduleStep(block, 58); ScheduleStep(block, 59);
    ScheduleStep(block, 60); ScheduleStep(block, 61); ScheduleStep(block, 62); ScheduleStep(block, 63);
  }

  lemma Sums56()
    ensures Add4(0x9f47bf94, SmallSigma0(0xf0a64f5a), 0xcc7617db, SmallSigma1(0x1487472c)) == 0xef57b9cd
    ensures Add4(0xf0a64f5a, SmallSigma0(0x3e246a79), 0xb9e66c34, SmallSigma1(0xb20f7a99)) == 0xebe6b238
    ensures Add4(0x3e246a79, SmallSigma0(0x27333ba3), 0xa9993667, SmallSigma1(0xef57b9cd)) == 0x9fe3095e
    ensures Add4(0x27333ba3, SmallSigma0(0x0c4763f2), 0x84badedd, SmallSigma1(0xebe6b238)) == 0x78bc8d4b
    ensures Add4(0x0c4763f2, SmallSigma0(0x840abf27), 0xc21462bc, SmallSigma1(0x9fe3095e)) == 0xa43fcf15
    ensures Add4(0x840abf27, SmallSigma0(0x7a290d5d), 0x1487472c, SmallSigma1(0x78bc8d4b)) == 0x668b2ff8
    ensures Add4(0x7a290d5d, SmallSigma0(0x065c43da), 0xb20f7a99, SmallSigma1(0xa43fcf15)) == 0xeeaba2cc
    ensures Add4(0x065c43da, SmallSigma0(0xfb3e89cb), 0xef57b9cd, SmallSigma1(0x668b2ff8)) == 0x12b1edeb
  {
  }

  /** Eight of the constants, from position `t`. */
  predicate Constants(ks: seq<Word>, t: nat, k0: Word, k1: Word, k2: Word, k3: Word, k4: Word, k5: Word, k6: Word,
                      k7: Word)
    requires |ks| == 64 && t + 8 <= 64
  {
    && ks[t] == k0 && ks[t + 1] == k1 && ks[t + 2] == k2 && ks[t + 3] == k3
    && ks[t + 4] == k4 && ks[t + 5] == k5 && ks[t + 6] == k6 && ks[t + 7] == k7
  }

  lemma Constants0()
    ensures Constants(K(), 0, 0x428a2f98, 0x71374491, 0xb5c0fbcf, 0xe9b5dba5, 0x3956c25b, 0x59f111f1, 0x923f82a4,
                      0xab1c5ed5)
  {
  }

  lemma Constants8()
    ensures Constants(K(), 8, 0xd807aa98, 0x12835b01, 0x243185be, 0x550c7dc3, 0x72be5d74, 0x80deb1fe, 0x9bdc06a7,
                      0xc19bf174)
  {
  }

  lemma Constants16()
    ensures Constants(K(), 16, 0xe49b69c1, 0xefbe4786, 0x0fc19dc6, 0x240ca1cc, 0x2de92c6f, 0x4a7484aa, 0x5cb0a9dc,
                      0x76f988da)
  {
  }

  lemma Constants24()
    ensures Constants(K(), 24, 0x983e5152, 0xa831c66d, 0xb00327c8, 0xbf597fc7, 0xc6e00bf3, 0xd5a79147, 0x06ca6351,
                      0x14292967)
  {
  }

  lemma Constants32()
    ensures Constants(K(), 32, 0x27b70a85, 0x2e1b2138, 0x4d2c6dfc, 0x53380d13, 0x650a7354, 0x766a0abb, 0x81c2c92e,
                      0x92722c85)
  {
  }

  lemma Constants40()
    ensures Constants(K(), 40, 0xa2bfe8a1, 0xa81a664b, 0xc24b8b70, 0xc76c51a3, 0xd192e819, 0xd6990624, 0xf40e3585,
                      0x106aa070)
  {
  }

  lemma Constants48()
    ensures Constants(K(), 48, 0x19a4c116, 0x1e376c08, 0x2748774c, 0x34b0bcb5, 0x391c0cb3, 0x4ed8aa4a, 0x5b9cca4f,
                      0x682e6ff3)
  {
  }

  lemma Constants56()
    ensures Constants(K(), 56, 0x748f82ee, 0x78a5636f, 0x84c87814, 0x8cc70208, 0x90befffa, 0xa4506ceb, 0xbef9a3f7,
                      0xc67178f2)
  {
  }

  lemma Rounds8(block: Bytes)
    requires |block| == 64 && IsBlock(block)
    ensures Rounds(Initial(), block, 8)
            == State(0x85a07b5f, 0xe5030380, 0x2b4209f5, 0x04409a6a, 0x0c657a79, 0x9b27a401, 0x714260ad, 0x43ada245)
  {
    var s := Initial();
    hide Schedule, IsBlock, K, Rounds, Round, Initial;
    RoundsNone(s, block);
    FirstWords(block);
    Constants0();
    Turns0();
    RoundsStep(s, block, 0); RoundsStep(s, block, 1); RoundsStep(s, block, 2); RoundsStep(s, block, 3);
    RoundsStep(s, block, 4); RoundsStep(s, block, 5); RoundsStep(s, block, 6); RoundsStep(s, block, 7);
  }

  lemma Turns0()
    ensures Round(Initial(), 0x428a2f98, 0x61626380)
            == State(0x5d6aebcd, 0x6a09e667, 0xbb67ae85, 0x3c6ef372, 0xfa2a4622, 0x510e527f, 0x9b05688c, 0x1f83d9ab)
    ensures Round(State(0x5d6aebcd, 0x6a09e667, 0xbb67ae85, 0x3c6ef372, 0xfa2a4622, 0x510e527f, 0x9b05688c,
                        0x1f83d9ab), 0x71374491, 0x00000000)
            == State(0x5a6ad9ad, 0x5d6aebcd, 0x6a09e667, 0xbb67ae85, 0x78ce7989, 0xfa2a4622, 0x510e527f, 0x9b05688c)
    ensures Round(State(0x5a6ad9ad, 0x5d6aebcd, 0x6a09e667, 0xbb67ae85, 0x78ce7989, 0xfa2a4622, 0x510e527f,
                        0x9b05688c), 0xb5c0fbcf, 0x00000000)
            == State(0xc8c347a7, 0x5a6ad9ad, 0x5d6aebcd, 0x6a09e667, 0xf92939eb, 0x78ce7989, 0xfa2a4622, 0x510e527f)
    ensures Round(State(0xc8c347a7, 0x5a6ad9ad, 0x5d6aebcd, 0x6a09e667, 0xf92939eb, 0x78ce7989, 0xfa2a4622,
                        0x510e527f), 0xe9b5dba5, 0x00000000)
            == State(0xd550f666, 0xc8c347a7, 0x5a6ad9ad, 0x5d6aebcd, 0x24e00850, 0xf92939eb, 0x78ce7989, 0xfa2a4622)
    ensures Round(State(0xd550f666, 0xc8c347a7, 0x5a6ad9ad, 0x5d6aebcd, 0x24e00850, 0xf92939eb, 0x78ce7989,
                        0xfa2a4622), 0x3956c25b, 0x00000000)
            == State(0x04409a6a, 0xd550f666, 0xc8c347a7, 0x5a6ad9ad, 0x43ada245, 0x24e00850, 0xf92939eb, 0x78ce7989)
    ensures Round(State(0x04409a6a, 0xd550f666, 0xc8c347a7, 0x5a6ad9ad, 0x43ada245, 0x24e00850, 0xf92939eb,
                        0x78ce7989), 0x59f111f1, 0x00000000)
            == State(0x2b4209f5, 0x04409a6a, 0xd550f666, 0xc8c347a7, 0x714260ad, 0x43ada245, 0x24e00850, 0xf92939eb)
    ensures Round(State(0x2b4209f5, 0x04409a6a, 0xd550f666, 0xc8c347a7, 0x714260ad, 0x43ada245, 0x24e00850,
                        0xf92939eb), 0x923f82a4, 0x00000000)
            == State(0xe5030380, 0x2b4209f5, 0x04409a6a, 0xd550f666, 0x9b27a401, 0x714260ad, 0x43ada245, 0x24e00850)
    ensures Round(State(0xe5030380, 0x2b4209f5, 0x04409a6a, 0xd550f666, 0x9b27a401, 0x714260ad, 0x43ada245,
                        0x24e00850), 0xab1c5ed5, 0x00000000)
            == State(0x85a07b5f, 0xe5030380, 0x2b4209f5, 0x04409a6a, 0x0c657a79, 0x9b27a401, 0x714260ad, 0x43ada245)
  {
  }

  lemma Rounds16(block: Bytes)
    requires |block| == 64 && IsBlock(block)
    ensures Rounds(Initial(), block, 16)
            == State(0xb0fa238e, 0xc0645fde, 0xd932eb16, 0x87912990, 0x07590dcd, 0x0b92f20c, 0x745a48de, 0x1e578218)
  {
    var s := Initial();
    hide Schedule, IsBlock, K, Rounds, Round, Initial;
    Rounds8(block);
    FirstWords(block);
    Constants8();
    Turns8();
    RoundsStep(s, block, 8); RoundsStep(s, block, 9); RoundsStep(s, block, 10); RoundsStep(s, block, 11);
    RoundsStep(s, block, 12); RoundsStep(s, block, 13); RoundsStep(s, block, 14); RoundsStep(s, block, 15);
  }

  lemma Turns8()
    ensures Round(State(0x85a07b5f, 0xe5030380, 0x2b4209f5, 0x04409a6a, 0x0c657a79, 0x9b27a401, 0x714260ad,
                        0x43ada245), 0xd807aa98, 0x00000000)
            == State(0x8e04ecb9, 0x85a07b5f, 0xe5030380, 0x2b4209f5, 0x32ca2d8c, 0x0c657a79, 0x9b27a401, 0x714260ad)
    ensures Round(State(0x8e04ecb9, 0x85a07b5f, 0xe5030380, 0x2b4209f5, 0x32ca2d8c, 0x0c657a79, 0x9b27a401,
                        0x714260ad), 0x12835b01, 0x00000000)
            == State(0x8c87346b, 0x8e04ecb9, 0x85a07b5f, 0xe5030380, 0x1cc92596, 0x32ca2d8c, 0x0c657a79, 0x9b27a401)
    ensures Round(State(0x8c87346b, 0x8e04ecb9, 0x85a07b5f, 0xe5030380, 0x1cc92596, 0x32ca2d8c, 0x0c657a79,
                        0x9b27a401), 0x243185be, 0x00000000)
            == State(0x4798a3f4, 0x8c87346b, 0x8e04ecb9, 0x85a07b5f, 0x436b23e8, 0x1cc92596, 0x32ca2d8c, 0x0c657a79)
    ensures Round(State(0x4798a3f4, 0x8c87346b, 0x8e04ecb9, 0x85a07b5f, 0x436b23e8, 0x1cc92596, 0x32ca2d8c,
                        0x0c657a79), 0x550c7dc3, 0x00000000)
            == State(0xf71fc5a9, 0x4798a3f4, 0x8c87346b, 0x8e04ecb9, 0x816fd6e9, 0x436b23e8, 0x1cc92596, 0x32ca2d8c)
    ensures Round(State(0xf71fc5a9, 0x4798a3f4, 0x8c87346b, 0x8e04ecb9, 0x816fd6e9, 0x436b23e8, 0x1cc92596,
                        0x32ca2d8c), 0x72be5d74, 0x00000000)
            == State(0x87912990, 0xf71fc5a9, 0x4798a3f4, 0x8c87346b, 0x1e578218, 0x816fd6e9, 0x436b23e8, 0x1cc92596)
    ensures Round(State(0x87912990, 0xf71fc5a9, 0x4798a3f4, 0x8c87346b, 0x1e578218, 0x816fd6e9, 0x436b23e8,
                        0x1cc92596), 0x80deb1fe, 0x00000000)
            == State(0xd932eb16, 0x87912990, 0xf71fc5a9, 0x4798a3f4, 0x745a48de, 0x1e578218, 0x816fd6e9, 0x436b23e8)
    ensures Round(State(0xd932eb16, 0x87912990, 0xf71fc5a9, 0x4798a3f4, 0x745a48de, 0x1e578218, 0x816fd6e9,
                        0x436b23e8), 0x9bdc06a7, 0x00000000)
            == State(0xc0645fde, 0xd932eb16, 0x87912990, 0xf71fc5a9, 0x0b92f20c, 0x745a48de, 0x1e578218, 0x816fd6e9)
    ensures Round(State(0xc0645fde, 0xd932eb16, 0x87912990, 0xf71fc5a9, 0x0b92f20c, 0x745a48de, 0x1e578218,
                        0x816fd6e9), 0xc19bf174, 0x00000018)
            == State(0xb0fa238e, 0xc0645fde, 0xd932eb16, 0x87912990, 0x07590dcd, 0x0b92f20c, 0x745a48de, 0x1e578218)
  {
  }

  lemma Rounds24(block: Bytes)
    requires |block| == 64 && IsBlock(block)
    ensures Rounds(Initial(), block, 24)
            == State(0xc5d53d8d, 0xa7a3623f, 0xc2606d6d, 0x9dc68b63, 0xaa47c347, 0x49f5114a, 0xe1257970, 0x8ada8930)
  {
    var s := Initial();
    hide Schedule, IsBlock, K, Rounds, Round, Initial;
    Rounds16(block);
    Words16(block);
    Constants16();
    Turns16();
    RoundsStep(s, block, 16); RoundsStep(s, block, 17); RoundsStep(s, block, 18); RoundsStep(s, block, 19);
    RoundsStep(s, block, 20); RoundsStep(s, block, 21); RoundsStep(s, block, 22); RoundsStep(s, block, 23);
  }

  lemma Turns16()
    ensures Round(State(0xb0fa238e, 0xc0645fde, 0xd932eb16, 0x87912990, 0x07590dcd, 0x0b92f20c, 0x745a48de,
                        0x1e578218), 0xe49b69c1, 0x61626380)
            == State(0x21da9a9b, 0xb0fa238e, 0xc0645fde, 0xd932eb16, 0x8034229c, 0x07590dcd, 0x0b92f20c, 0x745a48de)
    ensures Round(State(0x21da9a9b, 0xb0fa238e, 0xc0645fde, 0xd932eb16, 0x8034229c, 0x07590dcd, 0x0b92f20c,
                        0x745a48de), 0xefbe4786, 0x000f0000)
            == State(0xc2fbd9d1, 0x21da9a9b, 0xb0fa238e, 0xc0645fde, 0x846ee454, 0x8034229c, 0x07590dcd, 0x0b92f20c)
    ensures Round(State(0xc2fbd9d1, 0x21da9a9b, 0xb0fa238e, 0xc0645fde, 0x846ee454, 0x8034229c, 0x07590dcd,
                        0x0b92f20c), 0x0fc19dc6, 0x7da86405)
            == State(0xfe777bbf, 0xc2fbd9d1, 0x21da9a9b, 0xb0fa238e, 0xcc899961, 0x846ee454, 0x8034229c, 0x07590dcd)
    ensures Round(State(0xfe777bbf, 0xc2fbd9d1, 0x21da9a9b, 0xb0fa238e, 0xcc899961, 0x846ee454, 0x8034229c,
                        0x07590dcd), 0x240ca1cc, 0x600003c6)
            == State(0xe1f20c33, 0xfe777bbf, 0xc2fbd9d1, 0x21da9a9b, 0xb0638179, 0xcc899961, 0x846ee454, 0x8034229c)
    ensures Round(State(0xe1f20c33, 0xfe777bbf, 0xc2fbd9d1, 0x21da9a9b, 0xb0638179, 0xcc899961, 0x846ee454,
                        0x8034229c), 0x2de92c6f, 0x3e9d7b78)
            == State(0x9dc68b63, 0xe1f20c33, 0xfe777bbf, 0xc2fbd9d1, 0x8ada8930, 0xb0638179, 0xcc899961, 0x846ee454)
    ensures Round(State(0x9dc68b63, 0xe1f20c33, 0xfe777bbf, 0xc2fbd9d1, 0x8ada8930, 0xb0638179, 0xcc899961,
                        0x846ee454), 0x4a7484aa, 0x0183fc00)
            == State(0xc2606d6d, 0x9dc68b63, 0xe1f20c33, 0xfe777bbf, 0xe1257970, 0x8ada8930, 0xb0638179, 0xcc899961)
    ensures Round(State(0xc2606d6d, 0x9dc68b63, 0xe1f20c33, 0xfe777bbf, 0xe1257970, 0x8ada8930, 0xb0638179,
                        0xcc899961), 0x5cb0a9dc, 0x12dcbfdb)
            == State(0xa7a3623f, 0xc2606d6d, 0x9dc68b63, 0xe1f20c33, 0x49f5114a, 0xe1257970, 0x8ada8930, 0xb0638179)
    ensures Round(State(0xa7a3623f, 0xc2606d6d, 0x9dc68b63, 0xe1f20c33, 0x49f5114a, 0xe1257970, 0x8ada8930,
                        0xb0638179), 0x76f988da, 0xe2e2c38e)
            == State(0xc5d53d8d, 0xa7a3623f, 0xc2606d6d, 0x9dc68b63, 0xaa47c347, 0x49f5114a, 0xe1257970, 0x8ada8930)
  {
  }

  lemma Rounds32(block: Bytes)
    requires |block| == 64 && IsBlock(block)
    ensures Rounds(Initial(), block, 32)
            == State(0x73b33bf5, 0xea992a22, 0xa0060b30, 0x363482c9, 0xba591112, 0x0109ab3a, 0xade79437, 0x6112a3b7)
  {
    var s := Initial();
    hide Schedule, IsBlock, K, Rounds, Round, Initial;
    Rounds24(block);
    Words24(block);
    Constants24();
    Turns24();
    RoundsStep(s, block, 24); RoundsStep(s, block, 25); RoundsStep(s, block, 26); RoundsStep(s, block, 27);
    RoundsStep(s, block, 28); RoundsStep(s, block, 29); RoundsStep(s, block, 30); RoundsStep(s, block, 31);
  }

  lemma Turns24()
    ensures Round(State(0xc5d53d8d, 0xa7a3623f, 0xc2606d6d, 0x9dc68b63, 0xaa47c347, 0x49f5114a, 0xe1257970,
                        0x8ada8930), 0x983e5152, 0xc8215c1a)
            == State(0x1c2c2838, 0xc5d53d8d, 0xa7a3623f, 0xc2606d6d, 0x2823ef91, 0xaa47c347, 0x49f5114a, 0xe1257970)
    ensures Round(State(0x1c2c2838, 0xc5d53d8d, 0xa7a3623f, 0xc2606d6d, 0x2823ef91, 0xaa47c347, 0x49f5114a,
                        0xe1257970), 0xa831c66d, 0xb73679a2)
            == State(0xcde8037d, 0x1c2c2838, 0xc5d53d8d, 0xa7a3623f, 0x14383d8e, 0x2823ef91, 0xaa47c347, 0x49f5114a)
    ensures Round(State(0xcde8037d, 0x1c2c2838, 0xc5d53d8d, 0xa7a3623f, 0x14383d8e, 0x2823ef91, 0xaa47c347,
                        0x49f5114a), 0xb00327c8, 0xe5bc3909)
            == State(0xb62ec4bc, 0xcde8037d, 0x1c2c2838, 0xc5d53d8d, 0xc74c6516, 0x14383d8e, 0x2823ef91, 0xaa47c347)
    ensures Round(State(0xb62ec4bc, 0xcde8037d, 0x1c2c2838, 0xc5d53d8d, 0xc74c6516, 0x14383d8e, 0x2823ef91,
                        0xaa47c347), 0xbf597fc7, 0x32663c5b)
            == State(0x77d37528, 0xb62ec4bc, 0xcde8037d, 0x1c2c2838, 0xedffbff8, 0xc74c6516, 0x14383d8e, 0x2823ef91)
    ensures Round(State(0x77d37528, 0xb62ec4bc, 0xcde8037d, 0x1c2c2838, 0xedffbff8, 0xc74c6516, 0x14383d8e,
                        0x2823ef91), 0xc6e00bf3, 0x9d209d67)
            == State(0x363482c9, 0x77d37528, 0xb62ec4bc, 0xcde8037d, 0x6112a3b7, 0xedffbff8, 0xc74c6516, 0x14383d8e)
    ensures Round(State(0x363482c9, 0x77d37528, 0xb62ec4bc, 0xcde8037d, 0x6112a3b7, 0xedffbff8, 0xc74c6516,
                        0x14383d8e), 0xd5a79147, 0xec8726cb)
            == State(0xa0060b30, 0x363482c9, 0x77d37528, 0xb62ec4bc, 0xade79437, 0x6112a3b7, 0xedffbff8, 0xc74c6516)
    ensures Round(State(0xa0060b30, 0x363482c9, 0x77d37528, 0xb62ec4bc, 0xade79437, 0x6112a3b7, 0xedffbff8,
                        0xc74c6516), 0x06ca6351, 0x702138a4)
            == State(0xea992a22, 0xa0060b30, 0x363482c9, 0x77d37528, 0x0109ab3a, 0xade79437, 0x6112a3b7, 0xedffbff8)
    ensures Round(State(0xea992a22, 0xa0060b30, 0x363482c9, 0x77d37528, 0x0109ab3a, 0xade79437, 0x6112a3b7,
                        0xedffbff8), 0x14292967, 0xd3b7973b)
            == State(0x73b33bf5, 0xea992a22, 0xa0060b30, 0x363482c9, 0xba591112, 0x0109ab3a, 0xade79437, 0x6112a3b7)
  {
  }

  lemma Rounds40(block: Bytes)
    requires |block| == 64 && IsBlock(block)
    ensures Rounds(Initial(), block, 40)
            == State(0x79ea687a, 0x6dc57a8a, 0x34df1604, 0x41a65cb1, 0x1efbc0a0, 0xf0781bc8, 0xa507a53d, 0x0772a26b)
  {
    var s := Initial();
    hide Schedule, IsBlock, K, Rounds, Round, Initial;
    Rounds32(block);
    Words32(block);
    Constants32();
    Turns32();
    RoundsStep(s, block, 32); RoundsStep(s, block, 33); RoundsStep(s, block, 34); RoundsStep(s, block, 35);
    RoundsStep(s, block, 36); RoundsStep(s, block, 37); RoundsStep(s, block, 38); RoundsStep(s, block, 39);
  }

  lemma Turns32()
    ensures Round(State(0x73b33bf5, 0xea992a22, 0xa0060b30, 0x363482c9, 0xba591112, 0x0109ab3a, 0xade79437,
                        0x6112a3b7), 0x27b70a85, 0x93f5997f)
            == State(0x98e12507, 0x73b33bf5, 0xea992a22, 0xa0060b30, 0x9cd9f5f6, 0xba591112, 0x0109ab3a, 0xade79437)
    ensures Round(State(0x98e12507, 0x73b33bf5, 0xea992a22, 0xa0060b30, 0x9cd9f5f6, 0xba591112, 0x0109ab3a,
                        0xade79437), 0x2e1b2138, 0x3b68ba73)
            == State(0xfe604df5, 0x98e12507, 0x73b33bf5, 0xea992a22, 0x59249dd3, 0x9cd9f5f6, 0xba591112, 0x0109ab3a)
    ensures Round(State(0xfe604df5, 0x98e12507, 0x73b33bf5, 0xea992a22, 0x59249dd3, 0x9cd9f5f6, 0xba591112,
                        0x0109ab3a), 0x4d2c6dfc, 0xaff4ffc1)
            == State(0xa9a7738c, 0xfe604df5, 0x98e12507, 0x73b33bf5, 0x085f3833, 0x59249dd3, 0x9cd9f5f6, 0xba591112)
    ensures Round(State(0xa9a7738c, 0xfe604df5, 0x98e12507, 0x73b33bf5, 0x085f3833, 0x59249dd3, 0x9cd9f5f6,
                        0xba591112), 0x53380d13, 0xf10a5c62)
            == State(0x65a0cfe4, 0xa9a7738c, 0xfe604df5, 0x98e12507, 0xf4b002d6, 0x085f3833, 0x59249dd3, 0x9cd9f5f6)
    ensures Round(State(0x65a0cfe4, 0xa9a7738c, 0xfe604df5, 0x98e12507, 0xf4b002d6, 0x085f3833, 0x59249dd3,
                        0x9cd9f5f6), 0x650a7354, 0x0a8b3996)
            == State(0x41a65cb1, 0x65a0cfe4, 0xa9a7738c, 0xfe604df5, 0x0772a26b, 0xf4b002d6, 0x085f3833, 0x59249dd3)
    ensures Round(State(0x41a65cb1, 0x65a0cfe4, 0xa9a7738c, 0xfe604df5, 0x0772a26b, 0xf4b002d6, 0x085f3833,
                        0x59249dd3), 0x766a0abb, 0x72af830a)
            == State(0x34df1604, 0x41a65cb1, 0x65a0cfe4, 0xa9a7738c, 0xa507a53d, 0x0772a26b, 0xf4b002d6, 0x085f3833)
    ensures Round(State(0x34df1604, 0x41a65cb1, 0x65a0cfe4, 0xa9a7738c, 0xa507a53d, 0x0772a26b, 0xf4b002d6,
                        0x085f3833), 0x81c2c92e, 0x9409e33e)
            == State(0x6dc57a8a, 0x34df1604, 0x41a65cb1, 0x65a0cfe4, 0xf0781bc8, 0xa507a53d, 0x0772a26b, 0xf4b002d6)
    ensures Round(State(0x6dc57a8a, 0x34df1604, 0x41a65cb1, 0x65a0cfe4, 0xf0781bc8, 0xa507a53d, 0x0772a26b,
                        0xf4b002d6), 0x92722c85, 0x24641522)
            == State(0x79ea687a, 0x6dc57a8a, 0x34df1604, 0x41a65cb1, 0x1efbc0a0, 0xf0781bc8, 0xa507a53d, 0x0772a26b)
  {
  }

  lemma Rounds48(block: Bytes)
    requires |block| == 64 && IsBlock(block)
    ensures Rounds(Initial(), block, 48)
            == State(0x4172328d, 0xa14c14b0, 0x72ab4b91, 0x26628815, 0xfecf0bc6, 0xd57b94a9, 0xb7755da1, 0xa80f11f0)
  {
    var s := Initial();
    hide Schedule, IsBlock, K, Rounds, Round, Initial;
    Rounds40(block);
    Words40(block);
    Constants40();
    Turns40();
    RoundsStep(s, block, 40); RoundsStep(s, block, 41); RoundsStep(s, block, 42); RoundsStep(s, block, 43);
    RoundsStep(s, block, 44); RoundsStep(s, block, 45); RoundsStep(s, block, 46); RoundsStep(s, block, 47);
  }

  lemma Turns40()
    ensures Round(State(0x79ea687a, 0x6dc57a8a, 0x34df1604, 0x41a65cb1, 0x1efbc0a0, 0xf0781bc8, 0xa507a53d,
                        0x0772a26b), 0xa2bfe8a1, 0x9f47bf94)
            == State(0xd6670766, 0x79ea687a, 0x6dc57a8a, 0x34df1604, 0x26352d63, 0x1efbc0a0, 0xf0781bc8, 0xa507a53d)
    ensures Round(State(0xd6670766, 0x79ea687a, 0x6dc57a8a, 0x34df1604, 0x26352d63, 0x1efbc0a0, 0xf0781bc8,
                        0xa507a53d), 0xa81a664b, 0xf0a64f5a)
            == State(0xdf46652f, 0xd6670766, 0x79ea687a, 0x6dc57a8a, 0x838b2711, 0x26352d63, 0x1efbc0a0, 0xf0781bc8)
    ensures Round(State(0xdf46652f, 0xd6670766, 0x79ea687a, 0x6dc57a8a, 0x838b2711, 0x26352d63, 0x1efbc0a0,
                        0xf0781bc8), 0xc24b8b70, 0x3e246a79)
            == State(0x17aa0dfe, 0xdf46652f, 0xd6670766, 0x79ea687a, 0xdecd4715, 0x838b2711, 0x26352d63, 0x1efbc0a0)
    ensures Round(State(0x17aa0dfe, 0xdf46652f, 0xd6670766, 0x79ea687a, 0xdecd4715, 0x838b2711, 0x26352d63,
                        0x1efbc0a0), 0xc76c51a3, 0x27333ba3)
            == State(0x9d4baf93, 0x17aa0dfe, 0xdf46652f, 0xd6670766, 0xfda24c2e, 0xdecd4715, 0x838b2711, 0x26352d63)
    ensures Round(State(0x9d4baf93, 0x17aa0dfe, 0xdf46652f, 0xd6670766, 0xfda24c2e, 0xdecd4715, 0x838b2711,
                        0x26352d63), 0xd192e819, 0x0c4763f2)
            == State(0x26628815, 0x9d4baf93, 0x17aa0dfe, 0xdf46652f, 0xa80f11f0, 0xfda24c2e, 0xdecd4715, 0x838b2711)
    ensures Round(State(0x26628815, 0x9d4baf93, 0x17aa0dfe, 0xdf46652f, 0xa80f11f0, 0xfda24c2e, 0xdecd4715,
                        0x838b2711), 0xd6990624, 0x840abf27)
            == State(0x72ab4b91, 0x26628815, 0x9d4baf93, 0x17aa0dfe, 0xb7755da1, 0xa80f11f0, 0xfda24c2e, 0xdecd4715)
    ensures Round(State(0x72ab4b91, 0x26628815, 0x9d4baf93, 0x17aa0dfe, 0xb7755da1, 0xa80f11f0, 0xfda24c2e,
                        0xdecd4715), 0xf40e3585, 0x7a290d5d)
            == State(0xa14c14b0, 0x72ab4b91, 0x26628815, 0x9d4baf93, 0xd57b94a9, 0xb7755da1, 0xa80f11f0, 0xfda24c2e)
    ensures Round(State(0xa14c14b0, 0x72ab4b91, 0x26628815, 0x9d4baf93, 0xd57b94a9, 0xb7755da1, 0xa80f11f0,
                        0xfda24c2e), 0x106aa070, 0x065c43da)
            == State(0x4172328d, 0xa14c14b0, 0x72ab4b91, 0x26628815, 0xfecf0bc6, 0xd57b94a9, 0xb7755da1, 0xa80f11f0)
  {
  }

  lemma Rounds56(block: Bytes)
    requires |block| == 64 && IsBlock(block)
    ensures Rounds(Initial(), block, 56)
            == State(0x38cc9913, 0x3ec45cdb, 0xf5702fdb, 0x101fd28f, 0x54cb266b, 0xe50e1b4f, 0x9f4787c3, 0x529e7d00)
  {
    var s := Initial();
    hide Schedule, IsBlock, K, Rounds, Round, Initial;
    Rounds48(block);
    Words48(block);
    Constants48();
    Turns48();
    RoundsStep(s, block, 48); RoundsStep(s, block, 49); RoundsStep(s, block, 50); RoundsStep(s, block, 51);
    RoundsStep(s, block, 52); RoundsStep(s, block, 53); RoundsStep(s, block, 54); RoundsStep(s, block, 55);
  }

  lemma Turns48()
    ensures Round(State(0x4172328d, 0xa14c14b0, 0x72ab4b91, 0x26628815, 0xfecf0bc6, 0xd57b94a9, 0xb7755da1,
                        0xa80f11f0), 0x19a4c116, 0xfb3e89cb)
            == State(0x05757ceb, 0x4172328d, 0xa14c14b0, 0x72ab4b91, 0xbd714038, 0xfecf0bc6, 0xd57b94a9, 0xb7755da1)
    ensures Round(State(0x05757ceb, 0x4172328d, 0xa14c14b0, 0x72ab4b91, 0xbd714038, 0xfecf0bc6, 0xd57b94a9,
                        0xb7755da1), 0x1e376c08, 0xcc7617db)
            == State(0xf11bfaa8, 0x05757ceb, 0x4172328d, 0xa14c14b0, 0x6e5c390c, 0xbd714038, 0xfecf0bc6, 0xd57b94a9)
    ensures Round(State(0xf11bfaa8, 0x05757ceb, 0x4172328d, 0xa14c14b0, 0x6e5c390c, 0xbd714038, 0xfecf0bc6,
                        0xd57b94a9), 0x2748774c, 0xb9e66c34)
            == State(0x7a0508a1, 0xf11bfaa8, 0x05757ceb, 0x4172328d, 0x52f1ccf7, 0x6e5c390c, 0xbd714038, 0xfecf0bc6)
    ensures Round(State(0x7a0508a1, 0xf11bfaa8, 0x05757ceb, 0x4172328d, 0x52f1ccf7, 0x6e5c390c, 0xbd714038,
                        0xfecf0bc6), 0x34b0bcb5, 0xa9993667)
            == State(0x886e7a22, 0x7a0508a1, 0xf11bfaa8, 0x05757ceb, 0x49231c1e, 0x52f1ccf7, 0x6e5c390c, 0xbd714038)
    ensures Round(State(0x886e7a22, 0x7a0508a1, 0xf11bfaa8, 0x05757ceb, 0x49231c1e, 0x52f1ccf7, 0x6e5c390c,
                        0xbd714038), 0x391c0cb3, 0x84badedd)
            == State(0x101fd28f, 0x886e7a22, 0x7a0508a1, 0xf11bfaa8, 0x529e7d00, 0x49231c1e, 0x52f1ccf7, 0x6e5c390c)
    ensures Round(State(0x101fd28f, 0x886e7a22, 0x7a0508a1, 0xf11bfaa8, 0x529e7d00, 0x49231c1e, 0x52f1ccf7,
                        0x6e5c390c), 0x4ed8aa4a, 0xc21462bc)
            == State(0xf5702fdb, 0x101fd28f, 0x886e7a22, 0x7a0508a1, 0x9f4787c3, 0x529e7d00, 0x49231c1e, 0x52f1ccf7)
    ensures Round(State(0xf5702fdb, 0x101fd28f, 0x886e7a22, 0x7a0508a1, 0x9f4787c3, 0x529e7d00, 0x49231c1e,
                        0x52f1ccf7), 0x5b9cca4f, 0x1487472c)
            == State(0x3ec45cdb, 0xf5702fdb, 0x101fd28f, 0x886e7a22, 0xe50e1b4f, 0x9f4787c3, 0x529e7d00, 0x49231c1e)
    ensures Round(State(0x3ec45cdb, 0xf5702fdb, 0x101fd28f, 0x886e7a22, 0xe50e1b4f, 0x9f4787c3, 0x529e7d00,
                        0x49231c1e), 0x682e6ff3, 0xb20f7a99)
            == State(0x38cc9913, 0x3ec45cdb, 0xf5702fdb, 0x101fd28f, 0x54cb266b, 0xe50e1b4f, 0x9f4787c3, 0x529e7d00)
  {
  }

  lemma Rounds64(block: Bytes)
    requires |block| == 64 && IsBlock(block)
    ensures Rounds(Initial(), block, 64)
            == State(0x506e3058, 0xd39a2165, 0x04d24d6c, 0xb85e2ce9, 0x5ef50f24, 0xfb121210, 0x948d25b6, 0x961f4894)
  {
    var s := Initial();
    hide Schedule, IsBlock, K, Rounds, Round, Initial;
    Rounds56(block);
    Words56(block);
    Constants56();
    Turns56();
    RoundsStep(s, block, 56); RoundsStep(s, block, 57); RoundsStep(s, block, 58); RoundsStep(s, block, 59);
    RoundsStep(s, block, 60); RoundsStep(s, block, 61); RoundsStep(s, block, 62); RoundsStep(s, block, 63);
  }

  lemma Turns56()
    ensures Round(State(0x38cc9913, 0x3ec45cdb, 0xf5702fdb, 0x101fd28f, 0x54cb266b, 0xe50e1b4f, 0x9f4787c3,
                        0x529e7d00), 0x748f82ee, 0xef57b9cd)
            == State(0xfcd1887b, 0x38cc9913, 0x3ec45cdb, 0xf5702fdb, 0x9b5e906c, 0x54cb266b, 0xe50e1b4f, 0x9f4787c3)
    ensures Round(State(0xfcd1887b, 0x38cc9913, 0x3ec45cdb, 0xf5702fdb, 0x9b5e906c, 0x54cb266b, 0xe50e1b4f,
                        0x9f4787c3), 0x78a5636f, 0xebe6b238)
            == State(0xc062d46f, 0xfcd1887b, 0x38cc9913, 0x3ec45cdb, 0x7e44008e, 0x9b5e906c, 0x54cb266b, 0xe50e1b4f)
    ensures Round(State(0xc062d46f, 0xfcd1887b, 0x38cc9913, 0x3ec45cdb, 0x7e44008e, 0x9b5e906c, 0x54cb266b,
                        0xe50e1b4f), 0x84c87814, 0x9fe3095e)
            == State(0xffb70472, 0xc062d46f, 0xfcd1887b, 0x38cc9913, 0x6d83bfc6, 0x7e44008e, 0x9b5e906c, 0x54cb266b)
    ensures Round(State(0xffb70472, 0xc062d46f, 0xfcd1887b, 0x38cc9913, 0x6d83bfc6, 0x7e44008e, 0x9b5e906c,
                        0x54cb266b), 0x8cc70208, 0x78bc8d4b)
            == State(0xb6ae8fff, 0xffb70472, 0xc062d46f, 0xfcd1887b, 0xb21bad3d, 0x6d83bfc6, 0x7e44008e, 0x9b5e906c)
    ensures Round(State(0xb6ae8fff, 0xffb70472, 0xc062d46f, 0xfcd1887b, 0xb21bad3d, 0x6d83bfc6, 0x7e44008e,
                        0x9b5e906c), 0x90befffa, 0xa43fcf15)
            == State(0xb85e2ce9, 0xb6ae8fff, 0xffb70472, 0xc062d46f, 0x961f4894, 0xb21bad3d, 0x6d83bfc6, 0x7e44008e)
    ensures Round(State(0xb85e2ce9, 0xb6ae8fff, 0xffb70472, 0xc062d46f, 0x961f4894, 0xb21bad3d, 0x6d83bfc6,
                        0x7e44008e), 0xa4506ceb, 0x668b2ff8)
            == State(0x04d24d6c, 0xb85e2ce9, 0xb6ae8fff, 0xffb70472, 0x948d25b6, 0x961f4894, 0xb21bad3d, 0x6d83bfc6)
    ensures Round(State(0x04d24d6c, 0xb85e2ce9, 0xb6ae8fff, 0xffb70472, 0x948d25b6, 0x961f4894, 0xb21bad3d,
                        0x6d83bfc6), 0xbef9a3f7, 0xeeaba2cc)
            == State(0xd39a2165, 0x04d24d6c, 0xb85e2ce9, 0xb6ae8fff, 0xfb121210, 0x948d25b6, 0x961f4894, 0xb21bad3d)
    ensures Round(State(0xd39a2165, 0x04d24d6c, 0xb85e2ce9, 0xb6ae8fff, 0xfb121210, 0x948d25b6, 0x961f4894,
                        0xb21bad3d), 0xc67178f2, 0x12b1edeb)
            == State(0x506e3058, 0xd39a2165, 0x04d24d6c, 0xb85e2ce9, 0x5ef50f24, 0xfb121210, 0x948d25b6, 0x961f4894)
  {
  }

  lemma LastSum()
    ensures Sum(Initial(),
                State(0x506e3058, 0xd39a2165, 0x04d24d6c, 0xb85e2ce9, 0x5ef50f24, 0xfb121210, 0x948d25b6, 0x961f4894))
            == State(0xba7816bf, 0x8f01cfea, 0x414140de, 0x5dae2223, 0xb00361a3, 0x96177a9c, 0xb410ff61, 0xf20015ad)
  {
  }

  lemma Bytes0()
    ensures ToBytes(0xba7816bf) == [0xba, 0x78, 0x16, 0xbf]
  {
  }

  lemma Bytes1()
    ensures ToBytes(0x8f01cfea) == [0x8f, 0x01, 0xcf, 0xea]
  {
  }

  lemma Bytes2()
    ensures ToBytes(0x414140de) == [0x41, 0x41, 0x40, 0xde]
  {
  }

  lemma Bytes3()
    ensures ToBytes(0x5dae2223) == [0x5d, 0xae, 0x22, 0x23]
  {
  }

  lemma Bytes4()
    ensures ToBytes(0xb00361a3) == [0xb0, 0x03, 0x61, 0xa3]
  {
  }

  lemma Bytes5()
    ensures ToBytes(0x96177a9c) == [0x96, 0x17, 0x7a, 0x9c]
  {
  }

  lemma Bytes6()
    ensures ToBytes(0xb410ff61) == [0xb4, 0x10, 0xff, 0x61]
  {
  }

  lemma Bytes7()
    ensures ToBytes(0xf20015ad) == [0xf2, 0x00, 0x15, 0xad]
  {
  }

  lemma LastBytes()
    ensures Output(State(0xba7816bf, 0x8f01cfea, 0x414140de, 0x5dae2223, 0xb00361a3, 0x96177a9c, 0xb410ff61,
                         0xf20015ad))
            == [0xba, 0x78, 0x16, 0xbf, 0x8f, 0x01, 0xcf, 0xea, 0x41, 0x41, 0x40, 0xde, 0x5d, 0xae, 0x22, 0x23,
                0xb0, 0x03, 0x61, 0xa3, 0x96, 0x17, 0x7a, 0x9c, 0xb4, 0x10, 0xff, 0x61, 0xf2, 0x00, 0x15, 0xad]
  {
    Bytes0();
    Bytes1();
    Bytes2();
    Bytes3();
    Bytes4();
    Bytes5();
    Bytes6();
    Bytes7();
    hide ToBytes;
  }

  lemma DigestOfBlock(block: Bytes)
    requires |block| == 64 && IsBlock(block)
    ensures Output(HashBlocks(block, 1))
            == [0xba, 0x78, 0x16, 0xbf, 0x8f, 0x01, 0xcf, 0xea, 0x41, 0x41, 0x40, 0xde, 0x5d, 0xae, 0x22, 0x23,
                0xb0, 0x03, 0x61, 0xa3, 0x96, 0x17, 0x7a, 0x9c, 0xb4, 0x10, 0xff, 0x61, 0xf2, 0x00, 0x15, 0xad]
  {
    hide Rounds, Sum, Output, IsBlock;
    Rounds64(block);
    LastSum();
    LastBytes();
    assert block[0..64] == block;
    assert HashBlocks(block, 1) == Sum(HashBlocks(block, 0), Rounds(HashBlocks(block, 0), block, 64));
  }

  /** SHA-256 of `abc`. */
  lemma DigestOfAbc()
    ensures Digest([0x61, 0x62, 0x63])
            == [0xba, 0x78, 0x16, 0xbf, 0x8f, 0x01, 0xcf, 0xea, 0x41, 0x41, 0x40, 0xde, 0x5d, 0xae, 0x22, 0x23,
                0xb0, 0x03, 0x61, 0xa3, 0x96, 0x17, 0x7a, 0x9c, 0xb4, 0x10, 0xff, 0x61, 0xf2, 0x00, 0x15, 0xad]
  {
    PaddedIsBlock();
    hide HashBlocks, Output, Padded, IsBlock;
    DigestOfBlock(Padded([0x61, 0x62, 0x63]));
  }
}
