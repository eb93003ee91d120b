/**
 The words of the first 112 powers of x modulo the generator, stepped through a
 few at a time: all are in one table, and no two of them sum, with one, to a third.
 */
module PowerTable {
  import opened Crc

  function NextWord(w: bv32): bv32
  {
    (if w & 0x80_0000 != 0 then (w << 1) ^ GENERATOR else w << 1) & LOW24
  }

  lemma NextWordTimesX(w: bv32)
    ensures NextWord(w) <= LOW24 && PolyOf(NextWord(w)) == TimesX(PolyOf(w))
  {
    ShiftedOut(w);
    PolyOfLow(if w & 0x80_0000 != 0 then (w << 1) ^ GENERATOR else w << 1);
  }

  /** The words of `n` powers, from the k-th on, pass a test; `last` is the word after them. */
  predicate Throughout(test: (bv32, nat) -> bool, w: bv32, k: nat, n: nat, last: bv32)
    decreases n
  {
    if n == 0 then w == last else test(w, k) && Throughout(test, NextWord(w), k + 1, n - 1, last)
  }

  lemma {:induction false} Joined(test: (bv32, nat) -> bool, w: bv32, k: nat, m: nat, middle: bv32, n: nat, last: bv32)
    requires Throughout(test, w, k, m, middle) && Throughout(test, middle, k + m, n, last)
    ensures Throughout(test, w, k, m + n, last)
    decreases m
  {
    if m > 0 {
      Joined(test, NextWord(w), k + 1, m - 1, middle, n, last);
    }
  }

  lemma FourJoined(test: (bv32, nat) -> bool, w0: bv32, w1: bv32, w2: bv32, w3: bv32, w4: bv32, k: nat, n: nat)
    requires Throughout(test, w0, k, n, w1) && Throughout(test, w1, k + n, n, w2)
    requires Throughout(test, w2, k + 2 * n, n, w3) && Throughout(test, w3, k + 3 * n, n, w4)
    ensures Throughout(test, w0, k, 4 * n, w4)
  {
    Joined(test, w0, k, n, w1, n, w2);
    Joined(test, w0, k, 2 * n, w2, n, w3);
    Joined(test, w0, k, 3 * n, w3, n, w4);
  }

  /** Each power within a stretch has a word, which passes the test. */
  lemma {:induction false} WordWithin(test: (bv32, nat) -> bool, w: bv32, k: nat, n: nat, last: bv32, a: nat)
    returns (word: bv32)
    requires Throughout(test, w, k, n, last) && w <= LOW24 && PolyOf(w) == Power(k) && k <= a < k + n
    ensures word <= LOW24 && PolyOf(word) == Power(a) && test(word, a)
    decreases n
  {
    if a == k {
      word := w;
    } else {
      NextWordTimesX(w);
      word := WordWithin(test, NextWord(w), k + 1, n - 1, last, a);
    }
  }

  // ---------------------------------------------------------------------
  // The table of the words
  // ---------------------------------------------------------------------

  /** A word is that of a power of x, from the first to the 112th. */
  predicate IsPower(w: bv32)
  {
    if w & (w - 1) == 0 then
      2 <= w <= 0x80_0000
    else if w & 0x4000 != 0 then
      (if w & 0x10 != 0 then
        (if w & 0x400000 != 0 then
          (if w & 0x1 != 0 then
            (if w & 0x4 != 0 then
              (if w & 0x2 != 0 then (if w & 0x8 != 0 then w == 0x78DBBF else w == 0xDC7AF7) else w == 0xE3F395)
            else
              (if w & 0x8 != 0 then w == 0x4E5C9B else w == 0xFA7D13))
          else
            (if w & 0x4 != 0 then
              (if w & 0x20 != 0 then w == 0x56E0B4 else (if w & 0x40 != 0 then w == 0x726BD4 else w == 0xD05C14))
            else
              (if w & 0x8 != 0 then w == 0x587178 else (if w & 0x400 != 0 then w == 0xDD4410 else w == 0x49C810))))
        else
          (if w & 0x1 != 0 then
            (if w & 0x2 != 0 then
              (if w & 0x4 != 0 then (if w & 0x20 != 0 then w == 0x91C77F else w == 0x80665F) else w == 0x2BFD53)
            else
              (if w & 0x8 != 0 then w == 0xA476D9 else w == 0x3F6D11))
          else
            (if w & 0x20 != 0 then
              (if w & 0x40 != 0 then (if w & 0x80 != 0 then w == 0xB0E2F0 else w == 0x185670) else w == 0x1C1B0)
            else
              (if w & 0x2 != 0 then (if w & 0x8 != 0 then w == 0x2B705A else w == 0x8AF852) else w == 0xE0D8))))
      else
        (if w & 0x8 != 0 then
          (if w & 0x1 != 0 then
            (if w & 0x1000 != 0 then
              (if w & 0x20 != 0 then w == 0x457C29 else (if w & 0x40 != 0 then w == 0xD8D449 else w == 0xFFF409))
            else
              (if w & 0x2 != 0 then w == 0xBFC92B else (if w & 0x4 != 0 then w == 0x82C48D else w == 0x3E4409)))
          else
            (if w & 0x4 != 0 then
              (if w & 0x20 != 0 then w == 0x706C else (if w & 0x40 != 0 then w == 0xAFF54C else w == 0xE04C8C))
            else
              (if w & 0x20 != 0 then w == 0xADC168 else w == 0x24E408)))
        else
          (if w & 0x2000 != 0 then
            (if w & 0x2 != 0 then
              (if w & 0x1 != 0 then w == 0x72F8C3 else (if w & 0x20 != 0 then w == 0x57FAA6 else w == 0xE5F186))
            else
              (if w & 0x4 != 0 then w == 0x127204 else w == 0x706C00))
          else
            (if w & 0x8000 != 0 then
              (if w & 0x1 != 0 then w == 0xDD441 else (if w & 0x2 != 0 then w == 0x7EDA22 else w == 0xE0D800))
            else
              (if w & 0x1 != 0 then w == 0x5F4C21 else (if w & 0x4 != 0 then w == 0x375104 else w == 0x6159C0))))))
    else
      (if w & 0x2 != 0 then
        (if w & 0x4 != 0 then
          (if w & 0x8 != 0 then
            (if w & 0x10 != 0 then
              (if w & 0x20 != 0 then w == 0xF1B77E else w == 0x161C5E)
            else
              (if w & 0x1 != 0 then w == 0xB0E2F else (if w & 0x100 != 0 then w == 0x8E03CE else w == 0x30ACE)))
          else
            (if w & 0x1 != 0 then
              (if w & 0x10 != 0 then w == 0xFF38B7 else (if w & 0x80 != 0 then w == 0x4701E7 else w == 0x18567))
            else
              (if w & 0x10 != 0 then (if w & 0x100 != 0 then w == 0x9CB936 else w == 0x3836) else w == 0x702646)))
        else
          (if w & 0x8 != 0 then
            (if w & 0x1 != 0 then
              (if w & 0x20 != 0 then w == 0xB719BB else (if w & 0x40 != 0 then w == 0xC397DB else w == 0x1C1B))
            else
              (if w & 0x20 != 0 then w == 0x3935EA else w == 0x682E0A))
          else
            (if w & 0x1000 != 0 then
              (if w & 0x1 != 0 then w == 0x381323 else (if w & 0x40 != 0 then w == 0xBE9842 else w == 0x93902))
            else
              (if w & 0x10 != 0 then (if w & 0x200 != 0 then w == 0xF52612 else w == 0x7C8812) else w == 0x1BA882))))
      else
        (if w & 0x20 != 0 then
          (if w & 0x1 != 0 then
            (if w & 0x8 != 0 then
              (if w & 0x4 != 0 then (if w & 0x80 != 0 then w == 0xEA04AD else w == 0x15B82D) else w == 0x9E31E9)
            else
              (if w & 0x10 != 0 then w == 0x1C9AF5 else w == 0xC68665))
          else
            (if w & 0x800 != 0 then
              (if w & 0x4 != 0 then w == 0x2C38BC else (if w & 0x8 != 0 then w == 0xC2B38 else w == 0x30ACE0))
            else
              (if w & 0x4 != 0 then w == 0xF91024 else (if w & 0x40 != 0 then w == 0x38360 else w == 0x939020))))
        else
          (if w & 0x80 != 0 then
            (if w & 0x100 != 0 then
              (if w & 0x4 != 0 then w == 0x6159C else (if w & 0x200 != 0 then w == 0xC2B380 else w == 0xE0D80))
            else
              (if w & 0x1 != 0 then (if w & 0x10 != 0 then w == 0xA01E91 else w == 0x49C81) else w == 0x706C0))
          else
            (if w & 0x100 != 0 then
              (if w & 0x1 != 0 then (if w & 0x4 != 0 then w == 0x341705 else w == 0x7A9309) else w == 0x1C1B00)
            else
              (if w & 0x4 != 0 then w == 0xFDB444 else (if w & 0x8 != 0 then w == 0x6EA208 else w == 0x383600))))))
  }

  predicate InTable(w: bv32, k: nat) { IsPower(w) }

  lemma TableFrom1()
    ensures Throughout(InTable, 0x000002, 1, 7, 0x000100)
  {
  }

  lemma TableFrom8()
    ensures Throughout(InTable, 0x000100, 8, 7, 0x008000)
  {
  }

  lemma TableFrom15()
    ensures Throughout(InTable, 0x008000, 15, 7, 0x400000)
  {
  }

  lemma TableFrom22()
    ensures Throughout(InTable, 0x400000, 22, 7, 0x01C1B0)
  {
  }

  lemma TableFrom29()
    ensures Throughout(InTable, 0x01C1B0, 29, 7, 0xE0D800)
  {
  }

  lemma TableFrom36()
    ensures Throughout(InTable, 0xE0D800, 36, 7, 0x6EA208)
  {
  }

  lemma TableFrom43()
    ensures Throughout(InTable, 0x6EA208, 43, 7, 0xAFF54C)
  {
  }

  lemma TableFrom50()
    ensures Throughout(InTable, 0xAFF54C, 50, 7, 0x06159C)
  {
  }

  lemma TableFrom57()
    ensures Throughout(InTable, 0x06159C, 57, 7, 0xF52612)
  {
  }

  lemma TableFrom64()
    ensures Throughout(InTable, 0xF52612, 64, 7, 0x91C77F)
  {
  }

  lemma TableFrom71()
    ensures Throughout(InTable, 0x91C77F, 71, 7, 0xE04C8C)
  {
  }

  lemma TableFrom78()
    ensures Throughout(InTable, 0xE04C8C, 78, 7, 0x24E408)
  {
  }

  lemma TableFrom85()
    ensures Throughout(InTable, 0x24E408, 85, 7, 0x72F8C3)
  {
  }

  lemma TableFrom92()
    ensures Throughout(InTable, 0x72F8C3, 92, 7, 0x82C48D)
  {
  }

  lemma TableFrom99()
    ensures Throughout(InTable, 0x82C48D, 99, 7, 0x9E31E9)
  {
  }

  lemma TableFrom106()
    ensures Throughout(InTable, 0x9E31E9, 106, 7, 0xE4D7A8)
  {
  }

  lemma TableHolds()
    ensures Throughout(InTable, 0x000002, 1, 112, 0xE4D7A8)
  {
    TableFrom1();
    TableFrom8();
    TableFrom15();
    TableFrom22();
    FourJoined(InTable, 0x000002, 0x000100, 0x008000, 0x400000, 0x01C1B0, 1, 7);
    TableFrom29();
    TableFrom36();
    TableFrom43();
    TableFrom50();
    FourJoined(InTable, 0x01C1B0, 0xE0D800, 0x6EA208, 0xAFF54C, 0x06159C, 29, 7);
    TableFrom57();
    TableFrom64();
    TableFrom71();
    TableFrom78();
    FourJoined(InTable, 0x06159C, 0xF52612, 0x91C77F, 0xE04C8C, 0x24E408, 57, 7);
    TableFrom85();
    TableFrom92();
    TableFrom99();
    TableFrom106();
    FourJoined(InTable, 0x24E408, 0x72F8C3, 0x82C48D, 0x9E31E9, 0xE4D7A8, 85, 7);
    FourJoined(InTable, 0x000002, 0x01C1B0, 0x06159C, 0x24E408, 0xE4D7A8, 1, 28);
  }

  // ---------------------------------------------------------------------
  // The words of which no pair sums, with one, to a word of the table
  // ---------------------------------------------------------------------

  /** Two powers and one sum to a power. */
  predicate SumToPower(v: bv32, u: bv32) { IsPower(v) && IsPower(v ^ u ^ 1) }

  ghost predicate Lonely(u: bv32, k: nat)
  {
    forall v: bv32 :: !SumToPower(v, u)
  }

  lemma LonelyFrom1()
    ensures Throughout(Lonely, 0x000002, 1, 2, 0x000008)
  {
  }

  lemma LonelyFrom3()
    ensures Throughout(Lonely, 0x000008, 3, 2, 0x000020)
  {
  }

  lemma LonelyFrom5()
    ensures Throughout(Lonely, 0x000020, 5, 2, 0x000080)
  {
  }

  lemma LonelyFrom7()
    ensures Throughout(Lonely, 0x000080, 7, 2, 0x000200)
  {
  }

  lemma LonelyFrom9()
    ensures Throughout(Lonely, 0x000200, 9, 2, 0x000800)
  {
  }

  lemma LonelyFrom11()
    ensures Throughout(Lonely, 0x000800, 11, 2, 0x002000)
  {
  }

  lemma LonelyFrom13()
    ensures Throughout(Lonely, 0x002000, 13, 2, 0x008000)
  {
  }

  lemma LonelyFrom15()
    ensures Throughout(Lonely, 0x008000, 15, 2, 0x020000)
  {
  }

  lemma LonelyFrom17()
    ensures Throughout(Lonely, 0x020000, 17, 2, 0x080000)
  {
  }

  lemma LonelyFrom19()
    ensures Throughout(Lonely, 0x080000, 19, 2, 0x200000)
  {
  }

  lemma LonelyFrom21()
    ensures Throughout(Lonely, 0x200000, 21, 2, 0x800000)
  {
  }

  lemma LonelyFrom23()
    ensures Throughout(Lonely, 0x800000, 23, 2, 0x001C1B)
  {
  }

  lemma LonelyFrom25()
    ensures Throughout(Lonely, 0x001C1B, 25, 2, 0x00706C)
  {
  }

  lemma LonelyFrom27()
    ensures Throughout(Lonely, 0x00706C, 27, 2, 0x01C1B0)
  {
  }

  lemma LonelyFrom29()
    ensures Throughout(Lonely, 0x01C1B0, 29, 2, 0x0706C0)
  {
  }

  lemma LonelyFrom31()
    ensures Throughout(Lonely, 0x0706C0, 31, 2, 0x1C1B00)
  {
  }

  lemma LonelyFrom33()
    ensures Throughout(Lonely, 0x1C1B00, 33, 2, 0x706C00)
  {
  }

  lemma LonelyFrom35()
    ensures Throughout(Lonely, 0x706C00, 35, 2, 0x3E4409)
  {
  }

  lemma LonelyFrom37()
    ensures Throughout(Lonely, 0x3E4409, 37, 2, 0xF91024)
  {
  }

  lemma LonelyFrom39()
    ensures Throughout(Lonely, 0xF91024, 39, 2, 0x1BA882)
  {
  }

  lemma LonelyFrom41()
    ensures Throughout(Lonely, 0x1BA882, 41, 2, 0x6EA208)
  {
  }

  lemma LonelyFrom43()
    ensures Throughout(Lonely, 0x6EA208, 43, 2, 0x457C29)
  {
  }

  lemma LonelyFrom45()
    ensures Throughout(Lonely, 0x457C29, 45, 2, 0xEA04AD)
  {
  }

  lemma LonelyFrom47()
    ensures Throughout(Lonely, 0xEA04AD, 47, 2, 0x57FAA6)
  {
  }

  lemma LonelyFrom49()
    ensures Throughout(Lonely, 0x57FAA6, 49, 2, 0xA01E91)
  {
  }

  lemma LonelyFrom51()
    ensures Throughout(Lonely, 0xA01E91, 51, 2, 0x80665F)
  {
  }

  lemma LonelyFrom53()
    ensures Throughout(Lonely, 0x80665F, 53, 2, 0x018567)
  {
  }

  lemma LonelyFrom55()
    ensures Throughout(Lonely, 0x018567, 55, 2, 0x06159C)
  {
  }

  lemma LonelyFrom57()
    ensures Throughout(Lonely, 0x06159C, 57, 2, 0x185670)
  {
  }

  lemma LonelyFrom59()
    ensures Throughout(Lonely, 0x185670, 59, 2, 0x6159C0)
  {
  }

  lemma LonelyFrom61()
    ensures Throughout(Lonely, 0x6159C0, 61, 2, 0x7A9309)
  {
  }

  lemma LonelyFrom63()
    ensures Throughout(Lonely, 0x7A9309, 63, 2, 0x15B82D)
  {
  }

  lemma LonelyFrom65()
    ensures Throughout(Lonely, 0x15B82D, 65, 2, 0x56E0B4)
  {
  }

  lemma LonelyFrom67()
    ensures Throughout(Lonely, 0x56E0B4, 67, 2, 0xA476D9)
  {
  }

  lemma LonelyFrom69()
    ensures Throughout(Lonely, 0xA476D9, 69, 2, 0x91C77F)
  {
  }

  lemma LonelyFrom71()
    ensures Throughout(Lonely, 0x91C77F, 71, 2, 0x4701E7)
  {
  }

  lemma LonelyFrom73()
    ensures Throughout(Lonely, 0x4701E7, 73, 2, 0xE3F395)
  {
  }

  lemma LonelyFrom75()
    ensures Throughout(Lonely, 0xE3F395, 75, 2, 0x702646)
  {
  }

  lemma LonelyFrom77()
    ensures Throughout(Lonely, 0x702646, 77, 2, 0x3F6D11)
  {
  }

  lemma LonelyFrom79()
    ensures Throughout(Lonely, 0x3F6D11, 79, 2, 0xFDB444)
  {
  }

  lemma LonelyFrom81()
    ensures Throughout(Lonely, 0xFDB444, 81, 2, 0x093902)
  {
  }

  lemma LonelyFrom83()
    ensures Throughout(Lonely, 0x093902, 83, 2, 0x24E408)
  {
  }

  lemma LonelyFrom85()
    ensures Throughout(Lonely, 0x24E408, 85, 2, 0x939020)
  {
  }

  lemma LonelyFrom87()
    ensures Throughout(Lonely, 0x939020, 87, 2, 0x4E5C9B)
  {
  }

  lemma LonelyFrom89()
    ensures Throughout(Lonely, 0x4E5C9B, 89, 2, 0xC68665)
  {
  }

  lemma LonelyFrom91()
    ensures Throughout(Lonely, 0xC68665, 91, 2, 0xE5F186)
  {
  }

  lemma LonelyFrom93()
    ensures Throughout(Lonely, 0xE5F186, 93, 2, 0x682E0A)
  {
  }

  lemma LonelyFrom95()
    ensures Throughout(Lonely, 0x682E0A, 95, 2, 0x5F4C21)
  {
  }

  lemma LonelyFrom97()
    ensures Throughout(Lonely, 0x5F4C21, 97, 2, 0x82C48D)
  {
  }

  lemma LonelyFrom99()
    ensures Throughout(Lonely, 0x82C48D, 99, 2, 0x0B0E2F)
  {
  }

  lemma LonelyFrom101()
    ensures Throughout(Lonely, 0x0B0E2F, 101, 2, 0x2C38BC)
  {
  }

  lemma LonelyFrom103()
    ensures Throughout(Lonely, 0x2C38BC, 103, 2, 0xB0E2F0)
  {
  }

  lemma LonelyFrom105()
    ensures Throughout(Lonely, 0xB0E2F0, 105, 2, 0xC397DB)
  {
  }

  lemma LonelyFrom107()
    ensures Throughout(Lonely, 0xC397DB, 107, 2, 0xF1B77E)
  {
  }

  lemma LonelyFrom109()
    ensures Throughout(Lonely, 0xF1B77E, 109, 2, 0x3935EA)
  {
  }

  lemma LonelyFrom111()
    ensures Throughout(Lonely, 0x3935EA, 111, 2, 0xE4D7A8)
  {
  }

  lemma SixteenFrom1()
    ensures Throughout(Lonely, 0x000002, 1, 16, 0x020000)
  {
    LonelyFrom1();
    LonelyFrom3();
    LonelyFrom5();
    LonelyFrom7();
    FourJoined(Lonely, 0x000002, 0x000008, 0x000020, 0x000080, 0x000200, 1, 2);
    LonelyFrom9();
    LonelyFrom11();
    LonelyFrom13();
    LonelyFrom15();
    FourJoined(Lonely, 0x000200, 0x000800, 0x002000, 0x008000, 0x020000, 9, 2);
    Joined(Lonely, 0x000002, 1, 8, 0x000200, 8, 0x020000);
  }

  lemma SixteenFrom17()
    ensures Throughout(Lonely, 0x020000, 17, 16, 0x1C1B00)
  {
    LonelyFrom17();
    LonelyFrom19();
    LonelyFrom21();
    LonelyFrom23();
    FourJoined(Lonely, 0x020000, 0x080000, 0x200000, 0x800000, 0x001C1B, 17, 2);
    LonelyFrom25();
    LonelyFrom27();
    LonelyFrom29();
    LonelyFrom31();
    FourJoined(Lonely, 0x001C1B, 0x00706C, 0x01C1B0, 0x0706C0, 0x1C1B00, 25, 2);
    Joined(Lonely, 0x020000, 17, 8, 0x001C1B, 8, 0x1C1B00);
  }

  lemma SixteenFrom33()
    ensures Throughout(Lonely, 0x1C1B00, 33, 16, 0x57FAA6)
  {
    LonelyFrom33();
    LonelyFrom35();
    LonelyFrom37();
    LonelyFrom39();
    FourJoined(Lonely, 0x1C1B00, 0x706C00, 0x3E4409, 0xF91024, 0x1BA882, 33, 2);
    LonelyFrom41();
    LonelyFrom43();
    LonelyFrom45();
    LonelyFrom47();
    FourJoined(Lonely, 0x1BA882, 0x6EA208, 0x457C29, 0xEA04AD, 0x57FAA6, 41, 2);
    Joined(Lonely, 0x1C1B00, 33, 8, 0x1BA882, 8, 0x57FAA6);
  }

  lemma SixteenFrom49()
    ensures Throughout(Lonely, 0x57FAA6, 49, 16, 0x15B82D)
  {
    LonelyFrom49();
    LonelyFrom51();
    LonelyFrom53();
    LonelyFrom55();
    FourJoined(Lonely, 0x57FAA6, 0xA01E91, 0x80665F, 0x018567, 0x06159C, 49, 2);
    LonelyFrom57();
    LonelyFrom59();
    LonelyFrom61();
    LonelyFrom63();
    FourJoined(Lonely, 0x06159C, 0x185670, 0x6159C0, 0x7A9309, 0x15B82D, 57, 2);
    Joined(Lonely, 0x57FAA6, 49, 8, 0x06159C, 8, 0x15B82D);
  }

  lemma SixteenFrom65()
    ensures Throughout(Lonely, 0x15B82D, 65, 16, 0xFDB444)
  {
    LonelyFrom65();
    LonelyFrom67();
    LonelyFrom69();
    LonelyFrom71();
    FourJoined(Lonely, 0x15B82D, 0x56E0B4, 0xA476D9, 0x91C77F, 0x4701E7, 65, 2);
    LonelyFrom73();
    LonelyFrom75();
    LonelyFrom77();
    LonelyFrom79();
    FourJoined(Lonely, 0x4701E7, 0xE3F395, 0x702646, 0x3F6D11, 0xFDB444, 73, 2);
    Joined(Lonely, 0x15B82D, 65, 8, 0x4701E7, 8, 0xFDB444);
  }

  lemma SixteenFrom81()
    ensures Throughout(Lonely, 0xFDB444, 81, 16, 0x5F4C21)
  {
    LonelyFrom81();
    LonelyFrom83();
    LonelyFrom85();
    LonelyFrom87();
    FourJoined(Lonely, 0xFDB444, 0x093902, 0x24E408, 0x939020, 0x4E5C9B, 81, 2);
    LonelyFrom89();
    LonelyFrom91();
    LonelyFrom93();
    LonelyFrom95();
    FourJoined(Lonely, 0x4E5C9B, 0xC68665, 0xE5F186, 0x682E0A, 0x5F4C21, 89, 2);
    Joined(Lonely, 0xFDB444, 81, 8, 0x4E5C9B, 8, 0x5F4C21);
  }

  lemma SixteenFrom97()
    ensures Throughout(Lonely, 0x5F4C21, 97, 16, 0xE4D7A8)
  {
    LonelyFrom97();
    LonelyFrom99();
    LonelyFrom101();
    LonelyFrom103();
    FourJoined(Lonely, 0x5F4C21, 0x82C48D, 0x0B0E2F, 0x2C38BC, 0xB0E2F0, 97, 2);
    LonelyFrom105();
    LonelyFrom107();
    LonelyFrom109();
    LonelyFrom111();
    FourJoined(Lonely, 0xB0E2F0, 0xC397DB, 0xF1B77E, 0x3935EA, 0xE4D7A8, 105, 2);
    Joined(Lonely, 0x5F4C21, 97, 8, 0xB0E2F0, 8, 0xE4D7A8);
  }

  lemma LonelyHolds()
    ensures Throughout(Lonely, 0x000002, 1, 112, 0xE4D7A8)
  {
    SixteenFrom1();
    SixteenFrom17();
    SixteenFrom33();
    SixteenFrom49();
    SixteenFrom65();
    SixteenFrom81();
    SixteenFrom97();
    FourJoined(Lonely, 0x000002, 0x020000, 0x1C1B00, 0x57FAA6, 0x15B82D, 1, 16);
    Joined(Lonely, 0x15B82D, 65, 16, 0xFDB444, 16, 0x5F4C21);
    Joined(Lonely, 0x15B82D, 65, 32, 0x5F4C21, 16, 0xE4D7A8);
    Joined(Lonely, 0x000002, 1, 64, 0x15B82D, 48, 0xE4D7A8);
  }
}
