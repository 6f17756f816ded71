/** Published test sets of ZUC, followed through the generator round by round (zuc.cc).  A round is given
    by the cell that is shifted in, the quotient that the sum leaves behind modulo 2^31 - 1, the word of
    the nonlinear function, what its linear maps give, and the new registers. */
module ZucTestSets {
  import opened Bytes
  import opened Modular
  import opened Tables
  import opened Word32
  import opened Zuc

  // ----- Cells as bit vectors -----

  // The number of a nibble, and of a word.
  function Digit(n: bv32): nat {
    if n == 0 then 0 else if n == 1 then 1 else if n == 2 then 2 else if n == 3 then 3
    else if n == 4 then 4 else if n == 5 then 5 else if n == 6 then 6 else if n == 7 then 7
    else if n == 8 then 8 else if n == 9 then 9 else if n == 10 then 10 else if n == 11 then 11
    else if n == 12 then 12 else if n == 13 then 13 else if n == 14 then 14 else 15
  }

  function Half16(x: bv32): nat {
    0x1000 * Digit((x >> 12) & 15) + 0x100 * Digit((x >> 8) & 15) + 0x10 * Digit((x >> 4) & 15) + Digit(x & 15)
  }

  // One, two and four more bits.
  function Even(x: bv32): bv32 { x << 1 }
  function Odd(x: bv32): bv32 { (x << 1) | 1 }
  function Append2(x: bv32, n: bv32): bv32 { (x << 2) | n }
  function Append4(x: bv32, n: bv32): bv32 { (x << 4) | n }

  lemma BitsEven(v: nat)
    ensures Bits(2 * v) == Even(Bits(v))
  {
    assert (2 * v) / 2 == v && (2 * v) % 2 == 0;
    if v == 0 {
      assert Bits(0) == 0;
    }
  }

  lemma BitsOdd(v: nat)
    ensures Bits(2 * v + 1) == Odd(Bits(v))
  {
    assert (2 * v + 1) / 2 == v && (2 * v + 1) % 2 == 1;
  }

  lemma EvenEven(x: bv32)
    ensures Even(Even(x)) == Append2(x, 0)
  {
  }
  lemma EvenOdd(x: bv32)
    ensures Odd(Even(x)) == Append2(x, 1)
  {
  }
  lemma OddEven(x: bv32)
    ensures Even(Odd(x)) == Append2(x, 2)
  {
  }
  lemma OddOdd(x: bv32)
    ensures Odd(Odd(x)) == Append2(x, 3)
  {
  }

  lemma BitsPair(v: nat)
    ensures Bits(4 * v) == Append2(Bits(v), 0) && Bits(4 * v + 1) == Append2(Bits(v), 1)
    ensures Bits(4 * v + 2) == Append2(Bits(v), 2) && Bits(4 * v + 3) == Append2(Bits(v), 3)
  {
    hide *;
    BitsEven(v);
    BitsOdd(v);
    BitsEven(2 * v);
    BitsOdd(2 * v);
    BitsEven(2 * v + 1);
    BitsOdd(2 * v + 1);
    EvenEven(Bits(v));
    EvenOdd(Bits(v));
    OddEven(Bits(v));
    OddOdd(Bits(v));
    assert 2 * (2 * v) == 4 * v && 2 * (2 * v + 1) == 4 * v + 2;
  }

  lemma SmallDigits()
    ensures Digit(0) == 0 && Digit(1) == 1 && Digit(2) == 2 && Digit(3) == 3
  {
  }

  lemma PairDigit(v: nat, n: bv32)
    requires n < 4
    ensures Bits(4 * v + Digit(n)) == Append2(Bits(v), n)
  {
    hide *;
    SmallDigits();
    BitsPair(v);
    BelowFour(n);
  }

  lemma BelowFour(n: bv32)
    requires n < 4
    ensures n == 0 || n == 1 || n == 2 || n == 3
  {
  }

  lemma DigitPairs(n: bv32)
    requires n < 16
    ensures Digit(n) == 4 * Digit(n >> 2) + Digit(n & 3) && n >> 2 < 4 && n & 3 < 4
  {
  }

  lemma TwoPairs(x: bv32, n: bv32)
    requires n < 16
    ensures Append2(Append2(x, n >> 2), n & 3) == Append4(x, n)
  {
  }

  lemma BitsDigit(v: nat, n: bv32)
    requires n < 16
    ensures Bits(16 * v + Digit(n)) == Append4(Bits(v), n)
  {
    hide *;
    DigitPairs(n);
    PairDigit(v, n >> 2);
    PairDigit(4 * v + Digit(n >> 2), n & 3);
    TwoPairs(Bits(v), n);
  }

  lemma HalfBits(x: bv32)
    requires x <= 0xffff
    ensures Bits(Half16(x)) == x
  {
    hide Bits, Digit, Append4;
    var a, b, c, d := (x >> 12) & 15, (x >> 8) & 15, (x >> 4) & 15, x & 15;
    BitsDigit(0, a);
    BitsDigit(Digit(a), b);
    BitsDigit(16 * Digit(a) + Digit(b), c);
    BitsDigit(16 * (16 * Digit(a) + Digit(b)) + Digit(c), d);
    NoBits();
    assert Half16(x) == 16 * (16 * (16 * Digit(a) + Digit(b)) + Digit(c)) + Digit(d);
    Nibbles(x);
  }

  lemma NoBits()
    ensures Bits(0) == 0
  {
  }

  lemma Nibbles(x: bv32)
    requires x <= 0xffff
    ensures Append4(Append4(Append4(Append4(0, (x >> 12) & 15), (x >> 8) & 15), (x >> 4) & 15), x & 15) == x
  {
    FourNibbles(x);
  }

  lemma FourNibbles(x: bv32)
    requires x <= 0xffff
    ensures ((((((((0 << 4) | ((x >> 12) & 15)) << 4) | ((x >> 8) & 15)) << 4) | ((x >> 4) & 15)) << 4) | (x & 15)) == x
  {
  }

  // A cell with the sixteen bits that its high half gives, and the sixteen that its low half gives.
  datatype Cell = Cell(n: nat, high: bv32, low: bv32)

  predicate Right(c: Cell) {
    1 <= c.n <= P && Bits(High(c.n)) == c.high && Bits(Low(c.n)) == c.low
  }

  lemma RightCell(n: nat, high: bv32, low: bv32)
    requires 1 <= n <= P && high <= 0xffff && low <= 0xffff
    requires n / 0x8000 == Half16(high) && n % 0x1_0000 == Half16(low)
    ensures Right(Cell(n, high, low))
  {
    HalfBits(high);
    HalfBits(low);
    hide Half16, Bits;
  }

  // ----- States -----

  datatype Words = Words(c0: Cell, c1: Cell, c2: Cell, c3: Cell, c4: Cell, c5: Cell, c6: Cell, c7: Cell,
                         c8: Cell, c9: Cell, c10: Cell, c11: Cell, c12: Cell, c13: Cell, c14: Cell, c15: Cell,
                         r1: bv32, r2: bv32)
  {
    function Value(): State {
      State([c0.n, c1.n, c2.n, c3.n, c4.n, c5.n, c6.n, c7.n, c8.n, c9.n, c10.n, c11.n, c12.n, c13.n, c14.n, c15.n], r1, r2)
    }

    predicate AllRight() {
      && Right(c0) && Right(c1) && Right(c2) && Right(c3) && Right(c4) && Right(c5) && Right(c6) && Right(c7)
      && Right(c8) && Right(c9) && Right(c10) && Right(c11) && Right(c12) && Right(c13) && Right(c14) && Right(c15)
    }

    function Next(c: Cell, a: bv32, b: bv32): Words {
      Words(c1, c2, c3, c4, c5, c6, c7, c8, c9, c10, c11, c12, c13, c14, c15, c, a, b)
    }

    function Recurrence(): int {
      257 * c0.n + 0x8000 * c15.n + 0x2_0000 * c13.n + 0x20_0000 * c10.n + 0x10_0000 * c4.n
    }

    // The word w of the nonlinear function, what L1 and L2 give, and the new registers.
    predicate Nonlinear(w: bv32, u: bv32, v: bv32, a: bv32, b: bv32) {
      && w == Plus(Xor(Join32(c15.high, c14.low), r1), r2)
      && u == L1(Cross(Plus(r1, Join32(c11.low, c9.high)), Xor(r2, Join32(c7.low, c5.high))))
      && v == L2(Cross(Xor(r2, Join32(c7.low, c5.high)), Plus(r1, Join32(c11.low, c9.high))))
      && a == Substitute(u) && b == Substitute(v)
    }
  }

  function Join32(high: bv32, low: bv32): bv32 { (high << 16) | low }

  lemma JoinIs(high: nat, low: nat)
    ensures Join(high, low) == Join32(Bits(high), Bits(low))
  {
    hide Bits;
  }

  lemma RegistersOf(w: Words)
    ensures |w.Value().lfsr| == 16 && w.Value().r1 == w.r1 && w.Value().r2 == w.r2
  {
  }

  lemma LowCells(w: Words)
    ensures |w.Value().lfsr| == 16
    ensures var s := w.Value().lfsr; s[0] == w.c0.n && s[2] == w.c2.n && s[4] == w.c4.n && s[5] == w.c5.n && s[7] == w.c7.n
  {
  }

  lemma HighCells(w: Words)
    ensures |w.Value().lfsr| == 16
    ensures var s := w.Value().lfsr; s[9] == w.c9.n && s[10] == w.c10.n && s[11] == w.c11.n
    ensures var s := w.Value().lfsr; s[13] == w.c13.n && s[14] == w.c14.n && s[15] == w.c15.n
  {
  }

  lemma CellsOf(w: Words)
    ensures |w.Value().lfsr| == 16
    ensures var s := w.Value().lfsr; s[0] == w.c0.n && s[2] == w.c2.n && s[4] == w.c4.n && s[5] == w.c5.n && s[7] == w.c7.n
    ensures var s := w.Value().lfsr; s[9] == w.c9.n && s[10] == w.c10.n && s[11] == w.c11.n
    ensures var s := w.Value().lfsr; s[13] == w.c13.n && s[14] == w.c14.n && s[15] == w.c15.n
  {
    hide *;
    LowCells(w);
    HighCells(w);
  }

  lemma RightIsValid(w: Words)
    requires w.AllRight()
    ensures Valid(w.Value())
  {
    hide Right, IsCell, Bits, High, Low;
    RightIsCell(w.c0); RightIsCell(w.c1); RightIsCell(w.c2); RightIsCell(w.c3);
    RightIsCell(w.c4); RightIsCell(w.c5); RightIsCell(w.c6); RightIsCell(w.c7);
    RightIsCell(w.c8); RightIsCell(w.c9); RightIsCell(w.c10); RightIsCell(w.c11);
    RightIsCell(w.c12); RightIsCell(w.c13); RightIsCell(w.c14); RightIsCell(w.c15);
  }

  lemma RightIsCell(c: Cell)
    requires Right(c)
    ensures IsCell(c.n) && Bits(High(c.n)) == c.high && Bits(Low(c.n)) == c.low
  {
    hide Bits, High, Low;
  }

  lemma Words4(w: Words)
    requires w.AllRight()
    ensures var s := w.Value().lfsr;
            && |s| == 16
            && X0(s) == Join32(w.c15.high, w.c14.low) && X1(s) == Join32(w.c11.low, w.c9.high)
            && X2(s) == Join32(w.c7.low, w.c5.high) && X3(s) == Join32(w.c2.low, w.c0.high)
  {
    hide Right, Join, Join32, Bits, High, Low, Words.Value;
    CellsOf(w);
    RightIsCell(w.c15); RightIsCell(w.c14); RightIsCell(w.c11); RightIsCell(w.c9);
    RightIsCell(w.c7); RightIsCell(w.c5); RightIsCell(w.c2); RightIsCell(w.c0);
    var s := w.Value().lfsr;
    JoinIs(High(s[15]), Low(s[14]));
    JoinIs(Low(s[11]), High(s[9]));
    JoinIs(Low(s[7]), High(s[5]));
    JoinIs(Low(s[2]), High(s[0]));
  }

  lemma NonlinearIs(w: Words, x: bv32, u: bv32, v: bv32, a: bv32, b: bv32)
    requires w.AllRight() && w.Nonlinear(x, u, v, a, b)
    ensures |w.Value().lfsr| == 16
    ensures OutputWord(X0(w.Value().lfsr), w.r1, w.r2) == x && R1After(w.Value()) == a && R2After(w.Value()) == b
  {
    hide X0, X1, X2, Join32, Plus, Xor, Cross, L1, L2, Substitute, Words.Value, Words.AllRight;
    Words4(w);
    RegistersOf(w);
  }

  lemma RecurrenceIs(w: Words)
    requires w.AllRight()
    ensures Valid(w.Value()) && Congruent(Feedback(w.Value().lfsr), w.Recurrence()) && IsCell(Feedback(w.Value().lfsr))
  {
    hide Feedback, Words.Value, Words.AllRight, Congruent;
    CellsOf(w);
    RightIsValid(w);
    assert Cells(w.Value().lfsr);
    FeedbackIsRecurrence(w.Value().lfsr);
  }

  // A number in [1, P] is determined by its class.
  lemma OneCell(a: int, b: int, s: int, q: int)
    requires IsCell(a) && IsCell(b) && Congruent(a, s) && s == b + q * P
    ensures a == b
  {
    var r: int :| a == s + r * P;
    assert a - b == (q + r) * P;
    assert q + r == 0;
  }

  lemma Shifted(w: Words, c: Cell, a: bv32, b: bv32)
    ensures State(w.Value().lfsr[1..] + [c.n], a, b) == w.Next(c, a, b).Value()
  {
    ShiftedCells(w.c0.n, w.c1.n, w.c2.n, w.c3.n, w.c4.n, w.c5.n, w.c6.n, w.c7.n, w.c8.n, w.c9.n, w.c10.n, w.c11.n, w.c12.n,
                 w.c13.n, w.c14.n, w.c15.n, c.n);
  }

  lemma ShiftedCells<T>(c0: T, c1: T, c2: T, c3: T, c4: T, c5: T, c6: T, c7: T, c8: T, c9: T, c10: T, c11: T, c12: T,
                        c13: T, c14: T, c15: T, v: T)
    ensures [c0, c1, c2, c3, c4, c5, c6, c7, c8, c9, c10, c11, c12, c13, c14, c15][1..] + [v] ==
            [c1, c2, c3, c4, c5, c6, c7, c8, c9, c10, c11, c12, c13, c14, c15, v]
  {
    var s, t := [c0, c1, c2, c3, c4, c5, c6, c7, c8, c9, c10, c11, c12, c13, c14, c15],
                [c1, c2, c3, c4, c5, c6, c7, c8, c9, c10, c11, c12, c13, c14, c15, v];
    forall i | 0 <= i < 15 ensures s[i + 1] == t[i] {
    }
    assert s[1..] == t[..15];
  }

  lemma NextRight(w: Words, c: Cell, a: bv32, b: bv32)
    requires w.AllRight() && Right(c)
    ensures w.Next(c, a, b).AllRight()
  {
    hide Right;
  }

  // One round of initialization behind n of them.
  lemma Init(start: State, n: nat, w: Words, c: Cell, q: int, x: bv32, u: bv32, v: bv32, a: bv32, b: bv32) returns (w': Words)
    requires Valid(start) && InitRounds(start, n) == w.Value() && w.AllRight() && Right(c)
    requires w.Recurrence() + Half(x) == c.n + q * P && w.Nonlinear(x, u, v, a, b)
    ensures w' == w.Next(c, a, b) && w'.AllRight() && InitRounds(start, n + 1) == w'.Value()
  {
    hide InitRounds, Valid, Half, Feedback, AddM, X0, OutputWord, R1After, R2After, Right, IsCell, Congruent,
         Words.Value, Words.Recurrence, Words.Nonlinear, Words.Next, Words.AllRight;
    w' := w.Next(c, a, b);
    LastInitRound(start, n + 1);
    NonlinearIs(w, x, u, v, a, b);
    RegistersOf(w);
    RecurrenceIs(w);
    InitCell(w.Value().lfsr, w.Recurrence(), Half(x), c.n, q) by { RightIsValid(w); ValidCells(w.Value()); RightIsCell(c); }
    Shifted(w, c, a, b);
    NextRight(w, c, a, b);
  }

  lemma ValidCells(st: State)
    requires Valid(st)
    ensures Cells(st.lfsr)
  {
    hide IsCell;
  }

  lemma InitCell(s: seq<nat>, r: int, h: nat, n: nat, q: int)
    requires Cells(s) && h <= P && Congruent(Feedback(s), r) && IsCell(n) && r + h == n + q * P
    ensures AddM(Feedback(s), h) == n
  {
    hide Feedback, AddM, Congruent;
    FeedbackIsRecurrence(s);
    AddMIsSum(Feedback(s), h);
    CongruentIntro(h, h, 0);
    CongruentSum(Feedback(s), r, h, h);
    CongruentTrans(AddM(Feedback(s), h), Feedback(s) + h, r + h);
    OneCell(AddM(Feedback(s), h), n, r + h, q);
  }

  // One key-stream clock, with the word z.
  lemma Clock(start: State, w: Words, ks: seq<bv32>, z: bv32, c: Cell, q: int, x: bv32, u: bv32, v: bv32, a: bv32, b: bv32)
    returns (w': Words, ks': seq<bv32>)
    requires Valid(start) && WorkRounds(start, |ks|) == w.Value() && Keystream(start, |ks|) == ks && w.AllRight() && Right(c)
    requires w.Recurrence() == c.n + q * P && w.Nonlinear(x, u, v, a, b) && z == Xor(x, Join32(w.c2.low, w.c0.high))
    ensures w' == w.Next(c, a, b) && w'.AllRight() && ks' == ks + [z]
    ensures WorkRounds(start, |ks'|) == w'.Value() && Keystream(start, |ks'|) == ks'
  {
    hide WorkRounds, Keystream, Valid, Feedback, X0, X3, Xor, Join32, OutputWord, R1After, R2After, Right, IsCell, Congruent,
         Words.Value, Words.Recurrence, Words.Nonlinear, Words.Next, Words.AllRight;
    w', ks' := w.Next(c, a, b), ks + [z];
    LastWorkRound(start, |ks'|);
    LastWord(start, |ks'|);
    NonlinearIs(w, x, u, v, a, b);
    Words4(w);
    RegistersOf(w);
    RecurrenceIs(w);
    RightIsCell(c);
    RightIsValid(w);
    ValidCells(w.Value());
    OneCell(Feedback(w.Value().lfsr), c.n, w.Recurrence(), q);
    Shifted(w, c, a, b);
    NextRight(w, c, a, b);
  }

  // ----- ZUC specification, document 3: test set 1, of zeros -----

  const AK: seq<byte> := [0x00, 0x00, 0x00, 0x00, 0x00, 0x00, 0x00, 0x00, 0x00, 0x00, 0x00, 0x00, 0x00, 0x00, 0x00, 0x00]
  const AIV: seq<byte> := [0x00, 0x00, 0x00, 0x00, 0x00, 0x00, 0x00, 0x00, 0x00, 0x00, 0x00, 0x00, 0x00, 0x00, 0x00, 0x00]

  // The cells, in the order in which they enter the register.
  const A0 := Cell(4511488, 0x0089, 0xd700)
  const A1 := Cell(2538496, 0x004d, 0xbc00)
  const A2 := Cell(6449920, 0x00c4, 0x6b00)
  const A3 := Cell(1269248, 0x0026, 0x5e00)
  const A4 := Cell(5736704, 0x00af, 0x8900)
  const A5 := Cell(3531264, 0x006b, 0xe200)
  const A6 := Cell(7419136, 0x00e2, 0x3500)
  const A7 := Cell(634624, 0x0013, 0xaf00)
  const A8 := Cell(5076992, 0x009a, 0x7800)
  const A9 := Cell(3085056, 0x005e, 0x1300)
  const A10 := Cell(7062528, 0x00d7, 0xc400)
  const A11 := Cell(1765632, 0x0035, 0xf100)
  const A12 := Cell(6170112, 0x00bc, 0x2600)
  const A13 := Cell(3951872, 0x0078, 0x4d00)
  const A14 := Cell(7903744, 0x00f1, 0x9a00)
  const A15 := Cell(4697088, 0x008f, 0xac00)
  const A16 := Cell(1164167963, 0x8ac7, 0xcb1b)
  const A17 := Cell(677718543, 0x50ca, 0x2a0f)
  const A18 := Cell(1952773956, 0xe8c9, 0xf744)
  const A19 := Cell(1062618298, 0x7eac, 0x44ba)
  const A20 := Cell(6952012, 0x00d4, 0x144c)
  const A21 := Cell(117672859, 0x0e07, 0x8b9b)
  const A22 := Cell(1773735467, 0xd372, 0x0e2b)
  const A23 := Cell(1655247850, 0xc552, 0x13ea)
  const A24 := Cell(2069437632, 0xf6b2, 0x1cc0)
  const A25 := Cell(1893863751, 0xe1c4, 0x1147)
  const A26 := Cell(779891423, 0x5cf8, 0x32df)
  const A27 := Cell(159617645, 0x1307, 0x926d)
  const A28 := Cell(523917021, 0x3e74, 0x56dd)
  const A29 := Cell(1012702916, 0x78b9, 0x9ec4)
  const A30 := Cell(2012751721, 0xeff0, 0x2769)
  const A31 := Cell(359564839, 0x2add, 0x8627)
  const A32 := Cell(2095143819, 0xf9c2, 0x5b8b)
  const A33 := Cell(1954324676, 0xe8f9, 0xa0c4)
  const A34 := Cell(1650056459, 0xc4b3, 0xdd0b)
  const A35 := Cell(1202277419, 0x8f52, 0x4c2b)
  const A36 := Cell(982108206, 0x7513, 0xc82e)
  const A37 := Cell(850670588, 0x6568, 0x33fc)
  const A38 := Cell(589209919, 0x463d, 0xa13f)
  const A39 := Cell(829496898, 0x62e2, 0x1e42)
  const A40 := Cell(1288497493, 0x9999, 0xe955)
  const A41 := Cell(1068893982, 0x7f6c, 0x071e)
  const A42 := Cell(371012882, 0x2c3a, 0x3512)
  const A43 := Cell(1897181494, 0xe229, 0xb136)
  const A44 := Cell(1364513874, 0xa2a9, 0xd452)
  const A45 := Cell(2026281588, 0xf18d, 0x9a74)
  const A46 := Cell(1327938155, 0x9e4d, 0xba6b)
  const A47 := Cell(1041993066, 0x7c37, 0x8d6a)
  const A48 := Cell(2131288385, 0xfe11, 0xe141)
  const A49 := Cell(1027095812, 0x7a70, 0x3d04)
  const A50 := Cell(332846976, 0x27ad, 0xd780)

  lemma ALoad()
    ensures Load(AK, AIV) == State([4511488, 2538496, 6449920, 1269248, 5736704, 3531264, 7419136, 634624,
                        5076992, 3085056, 7062528, 1765632, 6170112, 3951872, 7903744, 4697088], 0, 0)
  {
  }

  lemma ACells0()
    ensures Right(A0) && Right(A1) && Right(A2) && Right(A3) && Right(A4) && Right(A5) && Right(A6) && Right(A7)
  {
    hide Right;
    RightCell(4511488, 0x0089, 0xd700);
    RightCell(2538496, 0x004d, 0xbc00);
    RightCell(6449920, 0x00c4, 0x6b00);
    RightCell(1269248, 0x0026, 0x5e00);
    RightCell(5736704, 0x00af, 0x8900);
    RightCell(3531264, 0x006b, 0xe200);
    RightCell(7419136, 0x00e2, 0x3500);
    RightCell(634624, 0x0013, 0xaf00);
  }

  lemma ACells8()
    ensures Right(A8) && Right(A9) && Right(A10) && Right(A11) && Right(A12) && Right(A13) && Right(A14) && Right(A15)
  {
    hide Right;
    RightCell(5076992, 0x009a, 0x7800);
    RightCell(3085056, 0x005e, 0x1300);
    RightCell(7062528, 0x00d7, 0xc400);
    RightCell(1765632, 0x0035, 0xf100);
    RightCell(6170112, 0x00bc, 0x2600);
    RightCell(3951872, 0x0078, 0x4d00);
    RightCell(7903744, 0x00f1, 0x9a00);
    RightCell(4697088, 0x008f, 0xac00);
  }

  lemma AInit0() returns (w: Words)
    ensures Valid(Load(AK, AIV)) && InitRounds(Load(AK, AIV), 0) == w.Value() && w.AllRight()
    ensures w == Words(A0, A1, A2, A3, A4, A5, A6, A7, A8, A9, A10, A11, A12, A13, A14, A15, 0x00000000, 0x00000000)
  {
    hide InitRounds, Right, Load, Valid;
    w := Words(A0, A1, A2, A3, A4, A5, A6, A7, A8, A9, A10, A11, A12, A13, A14, A15, 0x00000000, 0x00000000);
    LoadIsValid(AK, AIV);
    LastInitRound(Load(AK, AIV), 0);
    ALoad();
    ACells0();
    ACells8();
  }

  lemma AOctets0()
    ensures S0(0xc7) == 0x67 && S1(0x98) == 0x82 && S0(0x4c) == 0x21 && S1(0xd4) == 0x41
    ensures S0(0xd7) == 0x62 && S1(0xc0) == 0xa3 && S0(0x17) == 0xa5 && S1(0xa6) == 0x5f
  {
  }

  lemma AInit1() returns (w: Words)
    ensures Valid(Load(AK, AIV)) && InitRounds(Load(AK, AIV), 1) == w.Value() && w.AllRight()
    ensures w == Words(A1, A2, A3, A4, A5, A6, A7, A8, A9, A10, A11, A12, A13, A14, A15, A16, 0x67822141, 0x62a3a55f)
  {
    hide S0, S1, Load, InitRounds, WorkRounds, Keystream, Initialized, Words.Value, Words.AllRight, Right;
    w := AInit0();
    AOctets0();
    RightCell(1164167963, 0x8ac7, 0xcb1b);
    w := Init(Load(AK, AIV), 0, w, A16, 10011, 0x008f9a00, 0xc7984cd4, 0xd7c017a6, 0x67822141, 0x62a3a55f);
  }

  lemma AOctets1()
    ensures S0(0x03) == 0x47 && S1(0xbc) == 0x4a && S0(0x6c) == 0x2e && S1(0xdd) == 0x7e
    ensures S0(0xb2) == 0x11 && S1(0x96) == 0x9e && S0(0xaa) == 0x94 && S1(0x4b) == 0xbb
  {
  }

  lemma AInit2() returns (w: Words)
    ensures Valid(Load(AK, AIV)) && InitRounds(Load(AK, AIV), 2) == w.Value() && w.AllRight()
    ensures w == Words(A2, A3, A4, A5, A6, A7, A8, A9, A10, A11, A12, A13, A14, A15, A16, A17, 0x474a2e7e, 0x119e94bb)
  {
    hide S0, S1, Load, InitRounds, WorkRounds, Keystream, Initialized, Words.Value, Words.AllRight, Right;
    w := AInit1();
    AOctets1();
    RightCell(677718543, 0x50ca, 0x2a0f);
    w := Init(Load(AK, AIV), 1, w, A17, 21695, 0x4fe932a0, 0x03bc6cdd, 0xb296aa4b, 0x474a2e7e, 0x119e94bb);
  }

  lemma AOctets2()
    ensures S0(0xcc) == 0xc2 && S1(0x23) == 0x96 && S0(0x79) == 0x87 && S1(0x92) == 0xa5
    ensures S0(0xae) == 0xe9 && S1(0xa1) == 0xb6 && S0(0x74) == 0xeb && S1(0xc3) == 0x51
  {
  }

  lemma AInit3() returns (w: Words)
    ensures Valid(Load(AK, AIV)) && InitRounds(Load(AK, AIV), 3) == w.Value() && w.AllRight()
    ensures w == Words(A3, A4, A5, A6, A7, A8, A9, A10, A11, A12, A13, A14, A15, A16, A17, A18, 0xc29687a5, 0xe9b6eb51)
  {
    hide S0, S1, Load, InitRounds, WorkRounds, Keystream, Initialized, Words.Value, Words.AllRight, Right;
    w := AInit2();
    AOctets2();
    RightCell(1952773956, 0xe8c9, 0xf744);
    w := Init(Load(AK, AIV), 2, w, A18, 20276, 0x291f7a20, 0xcc237992, 0xaea174c3, 0xc29687a5, 0xe9b6eb51);
  }

  lemma AOctets3()
    ensures S0(0x2d) == 0x29 && S1(0x01) == 0xc2 && S0(0x01) == 0x72 && S1(0xe4) == 0xf3
    ensures S0(0x68) == 0x8c && S1(0xfa) == 0xac && S0(0x55) == 0x7f && S1(0x7d) == 0x5d
  {
  }

  lemma AInit4() returns (w: Words)
    ensures Valid(Load(AK, AIV)) && InitRounds(Load(AK, AIV), 4) == w.Value() && w.AllRight()
    ensures w == Words(A4, A5, A6, A7, A8, A9, A10, A11, A12, A13, A14, A15, A16, A17, A18, A19, 0x29c272f3, 0x8cac7f5d)
  {
    hide S0, S1, Load, InitRounds, WorkRounds, Keystream, Initialized, Words.Value, Words.AllRight, Right;
    w := AInit3();
    AOctets3();
    RightCell(1062618298, 0x7eac, 0x44ba);
    w := Init(Load(AK, AIV), 3, w, A19, 105021, 0x141698fb, 0x2d0101e4, 0x68fa557d, 0x29c272f3, 0x8cac7f5d);
  }

  lemma AOctets4()
    ensures S0(0x49) == 0x2c && S1(0xf2) == 0x85 && S0(0x9c) == 0xa6 && S1(0x00) == 0x55
    ensures S0(0x66) == 0x24 && S1(0xf9) == 0x25 && S0(0xbd) == 0x9c && S1(0xf8) == 0xb0
  {
  }

  lemma AInit5() returns (w: Words)
    ensures Valid(Load(AK, AIV)) && InitRounds(Load(AK, AIV), 5) == w.Value() && w.AllRight()
    ensures w == Words(A5, A6, A7, A8, A9, A10, A11, A12, A13, A14, A15, A16, A17, A18, A19, A20, 0x2c85a655, 0x24259cb0)
  {
    hide S0, S1, Load, InitRounds, WorkRounds, Keystream, Initialized, Words.Value, Words.AllRight, Right;
    w := AInit4();
    AOctets4();
    RightCell(6952012, 0x00d4, 0x144c);
    w := Init(Load(AK, AIV), 4, w, A20, 67778, 0xe41b0514, 0x49f29c00, 0x66f9bdf8, 0x2c85a655, 0x24259cb0);
  }

  lemma AOctets5()
    ensures S0(0x0f) == 0xcb && S1(0x67) == 0xfb && S0(0x47) == 0xc5 && S1(0x34) == 0xc0
    ensures S0(0xc9) == 0x44 && S1(0x46) == 0xc1 && S0(0x94) == 0x0b && S1(0x30) == 0x3a
  {
  }

  lemma AInit6() returns (w: Words)
    ensures Valid(Load(AK, AIV)) && InitRounds(Load(AK, AIV), 6) == w.Value() && w.AllRight()
    ensures w == Words(A6, A7, A8, A9, A10, A11, A12, A13, A14, A15, A16, A17, A18, A19, A20, A21, 0xcbfbc5c0, 0x44c10b3a)
  {
    hide S0, S1, Load, InitRounds, WorkRounds, Keystream, Initialized, Words.Value, Words.AllRight, Right;
    w := AInit5();
    AOctets5();
    RightCell(117672859, 0x0e07, 0x8b9b);
    w := Init(Load(AK, AIV), 5, w, A21, 125388, 0x50777f9f, 0x0f674734, 0xc9469430, 0xcbfbc5c0, 0x44c10b3a);
  }

  lemma AOctets6()
    ensures S0(0x05) == 0xe0 && S1(0x95) == 0x83 && S0(0x7f) == 0xc8 && S1(0xea) == 0xd3
    ensures S0(0xf9) == 0x7a && S1(0x3a) == 0xbf && S0(0x40) == 0x76 && S1(0xbd) == 0x79
  {
  }

  lemma AInit7() returns (w: Words)
    ensures Valid(Load(AK, AIV)) && InitRounds(Load(AK, AIV), 7) == w.Value() && w.AllRight()
    ensures w == Words(A7, A8, A9, A10, A11, A12, A13, A14, A15, A16, A17, A18, A19, A20, A21, A22, 0xe083c8d3, 0x7abf7679)
  {
    hide S0, S1, Load, InitRounds, WorkRounds, Keystream, Initialized, Words.Value, Words.AllRight, Right;
    w := AInit6();
    AOctets6();
    RightCell(1773735467, 0xd372, 0x0e2b);
    w := Init(Load(AK, AIV), 6, w, A22, 1206984, 0x0abddcc6, 0x05957fea, 0xf93a40bd, 0xe083c8d3, 0x7abf7679);
  }

  lemma AOctets7()
    ensures S0(0x4b) == 0x14 && S1(0xdd) == 0x7e && S1(0x87) == 0xf4
    ensures S0(0x29) == 0xb6 && S1(0x4c) == 0x69 && S0(0xc6) == 0xe7 && S1(0x88) == 0x2d
  {
  }

  lemma AInit8() returns (w: Words)
    ensures Valid(Load(AK, AIV)) && InitRounds(Load(AK, AIV), 8) == w.Value() && w.AllRight()
    ensures w == Words(A8, A9, A10, A11, A12, A13, A14, A15, A16, A17, A18, A19, A20, A21, A22, A23, 0x147e14f4, 0xb669e72d)
  {
    hide S0, S1, Load, InitRounds, WorkRounds, Keystream, Initialized, Words.Value, Words.AllRight, Right;
    w := AInit7();
    AOctets7();
    RightCell(1655247850, 0xc552, 0x13ea);
    w := Init(Load(AK, AIV), 7, w, A23, 690186, 0xaeb0b9c1, 0x4bdd4b87, 0x294cc688, 0x147e14f4, 0xb669e72d);
  }

  lemma AOctets8()
    ensures S0(0x0b) == 0x98 && S1(0xef) == 0x28 && S0(0xfe) == 0x34 && S1(0xb8) == 0xa0
    ensures S0(0x93) == 0xf0 && S1(0xae) == 0x95 && S0(0xdb) == 0xd6 && S1(0x12) == 0x94
  {
  }

  lemma AInit9() returns (w: Words)
    ensures Valid(Load(AK, AIV)) && InitRounds(Load(AK, AIV), 9) == w.Value() && w.AllRight()
    ensures w == Words(A9, A10, A11, A12, A13, A14, A15, A16, A17, A18, A19, A20, A21, A22, A23, A24, 0x982834a0, 0xf095d694)
  {
    hide S0, S1, Load, InitRounds, WorkRounds, Keystream, Initialized, Words.Value, Words.AllRight, Right;
    w := AInit8();
    AOctets8();
    RightCell(2069437632, 0xf6b2, 0x1cc0);
    w := Init(Load(AK, AIV), 8, w, A24, 1942458, 0x8796020c, 0x0beffeb8, 0x93aedb12, 0x982834a0, 0xf095d694);
  }

  lemma AOctets9()
    ensures S0(0xac) == 0xe1 && S1(0x06) == 0x47 && S0(0xf1) == 0x27 && S1(0x5c) == 0xd6
    ensures S0(0xb0) == 0xd0 && S1(0x38) == 0x22 && S0(0x5e) == 0x58 && S1(0x4c) == 0x69
  {
  }

  lemma AInit10() returns (w: Words)
    ensures Valid(Load(AK, AIV)) && InitRounds(Load(AK, AIV), 10) == w.Value() && w.AllRight()
    ensures w == Words(A10, A11, A12, A13, A14, A15, A16, A17, A18, A19, A20, A21, A22, A23, A24, A25, 0xe14727d6, 0xd0225869)
  {
    hide S0, S1, Load, InitRounds, WorkRounds, Keystream, Initialized, Words.Value, Words.AllRight, Right;
    w := AInit9();
    AOctets9();
    RightCell(1893863751, 0xe1c4, 0x1147);
    w := Init(Load(AK, AIV), 9, w, A25, 1179480, 0x5f2ffdde, 0xac06f15c, 0xb0385e4c, 0xe14727d6, 0xd0225869);
  }

  lemma AOctets10()
    ensures S0(0xf2) == 0x1a && S1(0x71) == 0xb7 && S0(0xbc) == 0x74 && S1(0xf0) == 0x64
    ensures S0(0x8b) == 0x89 && S1(0x1d) == 0xf9 && S0(0xba) == 0x12 && S1(0x20) == 0x44
  {
  }

  lemma AInit11() returns (w: Words)
    ensures Valid(Load(AK, AIV)) && InitRounds(Load(AK, AIV), 11) == w.Value() && w.AllRight()
    ensures w == Words(A11, A12, A13, A14, A15, A16, A17, A18, A19, A20, A21, A22, A23, A24, A25, A26, 0x1ab77464, 0x89f91244)
  {
    hide S0, S1, Load, InitRounds, WorkRounds, Keystream, Initialized, Words.Value, Words.AllRight, Right;
    w := AInit10();
    AOctets10();
    RightCell(779891423, 0x5cf8, 0x32df);
    w := Init(Load(AK, AIV), 10, w, A26, 140576, 0xd0a5937f, 0xf271bcf0, 0x8b1dba20, 0x1ab77464, 0x89f91244);
  }

  lemma AOctets11()
    ensures S0(0x07) == 0x33 && S1(0xa3) == 0x58 && S0(0x9d) == 0x4c && S1(0x03) == 0x71
    ensures S0(0x4f) == 0x9b && S1(0x15) == 0x1a && S0(0x86) == 0x13 && S1(0xa8) == 0x78
  {
  }

  lemma AInit12() returns (w: Words)
    ensures Valid(Load(AK, AIV)) && InitRounds(Load(AK, AIV), 12) == w.Value() && w.AllRight()
    ensures w == Words(A12, A13, A14, A15, A16, A17, A18, A19, A20, A21, A22, A23, A24, A25, A26, A27, 0x33584c71, 0x9b1a1378)
  {
    hide S0, S1, Load, InitRounds, WorkRounds, Keystream, Initialized, Words.Value, Words.AllRight, Right;
    w := AInit11();
    AOctets11();
    RightCell(159617645, 0x1307, 0x926d);
    w := Init(Load(AK, AIV), 11, w, A27, 255418, 0xd0487767, 0x07a39d03, 0x4f1586a8, 0x33584c71, 0x9b1a1378);
  }

  lemma AOctets12()
    ensures S0(0x0e) == 0x6d && S1(0x3e) == 0x62 && S0(0x31) == 0xc1 && S1(0x74) == 0x61
    ensures S0(0x20) == 0x4d && S1(0x59) == 0x9a && S0(0xe8) == 0x30 && S1(0xac) == 0x50
  {
  }

  lemma AInit13() returns (w: Words)
    ensures Valid(Load(AK, AIV)) && InitRounds(Load(AK, AIV), 13) == w.Value() && w.AllRight()
    ensures w == Words(A13, A14, A15, A16, A17, A18, A19, A20, A21, A22, A23, A24, A25, A26, A27, A28, 0x6d62c161, 0x4d9a3050)
  {
    hide S0, S1, Load, InitRounds, WorkRounds, Keystream, Initialized, Words.Value, Words.AllRight, Right;
    w := AInit12();
    AOctets12();
    RightCell(523917021, 0x3e74, 0x56dd);
    w := Init(Load(AK, AIV), 12, w, A28, 2418634, 0xbb799226, 0x0e3e3174, 0x2059e8ac, 0x6d62c161, 0x4d9a3050);
  }

  lemma AOctets13()
    ensures S0(0x3b) == 0x39 && S1(0x37) == 0x05 && S0(0xe4) == 0x25
    ensures S1(0xcb) == 0xf7 && S0(0x5d) == 0xba && S1(0x4b) == 0xbb && S0(0x1b) == 0x1d
  {
  }

  lemma AInit14() returns (w: Words)
    ensures Valid(Load(AK, AIV)) && InitRounds(Load(AK, AIV), 14) == w.Value() && w.AllRight()
    ensures w == Words(A14, A15, A16, A17, A18, A19, A20, A21, A22, A23, A24, A25, A26, A27, A28, A29, 0x390525f7, 0xbabb1d05)
  {
    hide S0, S1, Load, InitRounds, WorkRounds, Keystream, Initialized, Words.Value, Words.AllRight, Right;
    w := AInit13();
    AOctets13();
    RightCell(1012702916, 0x78b9, 0x9ec4);
    w := Init(Load(AK, AIV), 13, w, A29, 2002966, 0xa0b0835c, 0x3b37e4cb, 0x5d4b1b37, 0x390525f7, 0xbabb1d05);
  }

  lemma AOctets14()
    ensures S0(0x86) == 0x13 && S1(0xc1) == 0xef && S0(0x92) == 0x7e && S1(0x1b) == 0x72
    ensures S0(0x13) == 0x32 && S1(0x82) == 0xae && S0(0xa6) == 0xa3 && S1(0x04) == 0x3b
  {
  }

  lemma AInit15() returns (w: Words)
    ensures Valid(Load(AK, AIV)) && InitRounds(Load(AK, AIV), 15) == w.Value() && w.AllRight()
    ensures w == Words(A15, A16, A17, A18, A19, A20, A21, A22, A23, A24, A25, A26, A27, A28, A29, A30, 0x13ef7e72, 0x32aea33b)
  {
    hide S0, S1, Load, InitRounds, WorkRounds, Keystream, Initialized, Words.Value, Words.AllRight, Right;
    w := AInit14();
    AOctets14();
    RightCell(2012751721, 0xeff0, 0x2769);
    w := Init(Load(AK, AIV), 14, w, A30, 2999634, 0xfc77902f, 0x86c1921b, 0x1382a604, 0x13ef7e72, 0x32aea33b);
  }

  lemma AOctets15()
    ensures S0(0x46) == 0x57 && S1(0x26) == 0x45 && S0(0x2b) == 0x48 && S1(0xe8) == 0x7b
    ensures S0(0xc6) == 0xe7 && S1(0x09) == 0x3c && S0(0x4b) == 0x14 && S1(0xf5) == 0x59
  {
  }

  lemma AInit16() returns (w: Words)
    ensures Valid(Load(AK, AIV)) && InitRounds(Load(AK, AIV), 16) == w.Value() && w.AllRight()
    ensures w == Words(A16, A17, A18, A19, A20, A21, A22, A23, A24, A25, A26, A27, A28, A29, A30, A31, 0x5745487b, 0xe73c1459)
  {
    hide S0, S1, Load, InitRounds, WorkRounds, Keystream, Initialized, Words.Value, Words.AllRight, Right;
    w := AInit15();
    AOctets15();
    RightCell(359564839, 0x2add, 0x8627);
    w := Init(Load(AK, AIV), 15, w, A31, 2431023, 0x2ece83f1, 0x46262be8, 0xc6094bf5, 0x5745487b, 0xe73c1459);
  }

  lemma AOctets16()
    ensures S0(0x78) == 0x8f && S1(0x61) == 0x53 && S0(0xe8) == 0x30 && S1(0x2d) == 0x39
    ensures S0(0x54) == 0x4f && S1(0x8a) == 0x6e && S0(0xb1) == 0xdc && S1(0xe8) == 0x7b
  {
  }

  lemma AInit17() returns (w: Words)
    ensures Valid(Load(AK, AIV)) && InitRounds(Load(AK, AIV), 17) == w.Value() && w.AllRight()
    ensures w == Words(A17, A18, A19, A20, A21, A22, A23, A24, A25, A26, A27, A28, A29, A30, A31, A32, 0x8f533039, 0x4f6edc7b)
  {
    hide S0, S1, Load, InitRounds, WorkRounds, Keystream, Initialized, Words.Value, Words.AllRight, Right;
    w := AInit16();
    AOctets16();
    RightCell(2095143819, 0xf9c2, 0x5b8b);
    w := Init(Load(AK, AIV), 16, w, A32, 832443, 0x64d4836b, 0x7861e82d, 0x548ab1e8, 0x8f533039, 0x4f6edc7b);
  }

  lemma AOctets17()
    ensures S0(0x9c) == 0xa6 && S1(0x8d) == 0xe8 && S0(0xa2) == 0x95 && S1(0xb6) == 0xb4
    ensures S0(0xf0) == 0x8d && S1(0xa2) == 0xbd && S0(0x6e) == 0xd3 && S1(0x08) == 0x9f
  {
  }

  lemma AInit18() returns (w: Words)
    ensures Valid(Load(AK, AIV)) && InitRounds(Load(AK, AIV), 18) == w.Value() && w.AllRight()
    ensures w == Words(A18, A19, A20, A21, A22, A23, A24, A25, A26, A27, A28, A29, A30, A31, A32, A33, 0xa6e895b4, 0x8dbdd39f)
  {
    hide S0, S1, Load, InitRounds, WorkRounds, Keystream, Initialized, Words.Value, Words.AllRight, Right;
    w := AInit17();
    AOctets17();
    RightCell(1954324676, 0xe8f9, 0xa0c4);
    w := Init(Load(AK, AIV), 17, w, A33, 368233, 0xc6009299, 0x9c8da2b6, 0xf0a26e08, 0xa6e895b4, 0x8dbdd39f);
  }

  lemma AOctets18()
    ensures S0(0x6d) == 0x01 && S1(0x64) == 0xa1 && S0(0x1c) == 0x08 && S1(0xc0) == 0xa3
    ensures S0(0xe4) == 0x25 && S1(0x55) == 0x57 && S0(0x0e) == 0x6d && S1(0x33) == 0x2a
  {
  }

  lemma AInit19() returns (w: Words)
    ensures Valid(Load(AK, AIV)) && InitRounds(Load(AK, AIV), 19) == w.Value() && w.AllRight()
    ensures w == Words(A19, A20, A21, A22, A23, A24, A25, A26, A27, A28, A29, A30, A31, A32, A33, A34, 0x01a108a3, 0x25576d2a)
  {
    hide S0, S1, Load, InitRounds, WorkRounds, Keystream, Initialized, Words.Value, Words.AllRight, Right;
    w := AInit18();
    AOctets18();
    RightCell(1650056459, 0xc4b3, 0xdd0b);
    w := Init(Load(AK, AIV), 18, w, A34, 1429720, 0xdbcfa1de, 0x6d641cc0, 0xe4550e33, 0x01a108a3, 0x25576d2a);
  }

  lemma AOctets19()
    ensures S0(0xd1) == 0xfa && S1(0x73) == 0x3f && S0(0x63) == 0x17 && S1(0xfe) == 0xe2
    ensures S0(0xed) == 0xe8 && S1(0xb3) == 0xce && S0(0x69) == 0xff && S1(0x3f) == 0x48
  {
  }

  lemma AInit20() returns (w: Words)
    ensures Valid(Load(AK, AIV)) && InitRounds(Load(AK, AIV), 20) == w.Value() && w.AllRight()
    ensures w == Words(A20, A21, A22, A23, A24, A25, A26, A27, A28, A29, A30, A31, A32, A33, A34, A35, 0xfa3f17e2, 0xe8ceff48)
  {
    hide S0, S1, Load, InitRounds, WorkRounds, Keystream, Initialized, Words.Value, Words.AllRight, Right;
    w := AInit19();
    AOctets19();
    RightCell(1202277419, 0x8f52, 0x4c2b);
    w := Init(Load(AK, AIV), 19, w, A35, 1950377, 0xea6a1591, 0xd17363fe, 0xedb3693f, 0xfa3f17e2, 0xe8ceff48);
  }

  lemma AOctets20()
    ensures S0(0xf6) == 0xa0 && S1(0x02) == 0x63 && S0(0xc7) == 0x67 && S1(0x78) == 0x4e
    ensures S0(0x2c) == 0x8b && S1(0x31) == 0xb5 && S0(0xe2) == 0x77 && S1(0xe2) == 0x98
  {
  }

  lemma AInit21() returns (w: Words)
    ensures Valid(Load(AK, AIV)) && InitRounds(Load(AK, AIV), 21) == w.Value() && w.AllRight()
    ensures w == Words(A21, A22, A23, A24, A25, A26, A27, A28, A29, A30, A31, A32, A33, A34, A35, A36, 0xa063674e, 0x8bb57798)
  {
    hide S0, S1, Load, InitRounds, WorkRounds, Keystream, Initialized, Words.Value, Words.AllRight, Right;
    w := AInit20();
    AOctets20();
    RightCell(982108206, 0x7513, 0xc82e);
    w := Init(Load(AK, AIV), 20, w, A36, 3113674, 0x5e3cca31, 0xf602c778, 0x2c31e2e2, 0xa063674e, 0x8bb57798);
  }

  lemma AOctets21()
    ensures S0(0xed) == 0xe8 && S1(0x46) == 0xc1 && S0(0x6b) == 0xae && S1(0xb3) == 0xce
    ensures S0(0x44) == 0xcf && S1(0x72) == 0x70 && S0(0x38) == 0xb5 && S1(0xd9) == 0x33
  {
  }

  lemma AInit22() returns (w: Words)
    ensures Valid(Load(AK, AIV)) && InitRounds(Load(AK, AIV), 22) == w.Value() && w.AllRight()
    ensures w == Words(A22, A23, A24, A25, A26, A27, A28, A29, A30, A31, A32, A33, A34, A35, A36, A37, 0xe8c1aece, 0xcf70b533)
  {
    hide S0, S1, Load, InitRounds, WorkRounds, Keystream, Initialized, Words.Value, Words.AllRight, Right;
    w := AInit21();
    AOctets21();
    RightCell(850670588, 0x6568, 0x33fc);
    w := Init(Load(AK, AIV), 21, w, A37, 1391587, 0x6125a2fd, 0xed466bb3, 0x447238d9, 0xe8c1aece, 0xcf70b533);
  }

  lemma AOctets22()
    ensures S0(0xe0) == 0x8e && S1(0x4a) == 0x52 && S0(0x09) == 0xd1 && S1(0xfd) == 0x03
    ensures S0(0xb8) == 0x42 && S1(0x38) == 0x22 && S0(0xca) == 0xa2 && S1(0xed) == 0x65
  {
  }

  lemma AInit23() returns (w: Words)
    ensures Valid(Load(AK, AIV)) && InitRounds(Load(AK, AIV), 23) == w.Value() && w.AllRight()
    ensures w == Words(A23, A24, A25, A26, A27, A28, A29, A30, A31, A32, A33, A34, A35, A36, A37, A38, 0x8e52d103, 0x4222a265)
  {
    hide S0, S1, Load, InitRounds, WorkRounds, Keystream, Initialized, Words.Value, Words.AllRight, Right;
    w := AInit22();
    AOctets22();
    RightCell(589209919, 0x463d, 0xa13f);
    w := Init(Load(AK, AIV), 22, w, A38, 2513419, 0x5d1a1c13, 0xe04a09fd, 0xb838caed, 0x8e52d103, 0x4222a265);
  }

  lemma AOctets23()
    ensures S0(0x2a) == 0x85 && S1(0xa0) == 0x01 && S0(0x31) == 0xc1 && S1(0x3f) == 0x48
    ensures S0(0xa7) == 0xfb && S1(0x0e) == 0xfd && S0(0xcc) == 0xc2 && S1(0x4b) == 0xbb
  {
  }

  lemma AInit24() returns (w: Words)
    ensures Valid(Load(AK, AIV)) && InitRounds(Load(AK, AIV), 24) == w.Value() && w.AllRight()
    ensures w == Words(A24, A25, A26, A27, A28, A29, A30, A31, A32, A33, A34, A35, A36, A37, A38, A39, 0x8501c148, 0xfbfdc2bb)
  {
    hide S0, S1, Load, InitRounds, WorkRounds, Keystream, Initialized, Words.Value, Words.AllRight, Right;
    w := AInit23();
    AOctets23();
    RightCell(829496898, 0x62e2, 0x1e42);
    w := Init(Load(AK, AIV), 23, w, A39, 2055590, 0x0a928564, 0x2aa0313f, 0xa70ecc4b, 0x8501c148, 0xfbfdc2bb);
  }

  lemma AOctets24()
    ensures S0(0x2b) == 0x48 && S1(0x73) == 0x3f && S0(0x08) == 0x04 && S1(0x61) == 0x53
    ensures S0(0x29) == 0xb6 && S1(0x76) == 0x19 && S0(0xa6) == 0xa3 && S1(0xe8) == 0x7b
  {
  }

  lemma AInit25() returns (w: Words)
    ensures Valid(Load(AK, AIV)) && InitRounds(Load(AK, AIV), 25) == w.Value() && w.AllRight()
    ensures w == Words(A25, A26, A27, A28, A29, A30, A31, A32, A33, A34, A35, A36, A37, A38, A39, A40, 0x483f0453, 0xb619a37b)
  {
    hide S0, S1, Load, InitRounds, WorkRounds, Keystream, Initialized, Words.Value, Words.AllRight, Right;
    w := AInit24();
    AOctets24();
    RightCell(1288497493, 0x9999, 0xe955);
    w := Init(Load(AK, AIV), 24, w, A40, 1932028, 0xe3e12332, 0x2b730861, 0x2976a6e8, 0x483f0453, 0xb619a37b);
  }

  lemma AOctets25()
    ensures S0(0xd2) == 0x36 && S1(0x29) == 0x76 && S0(0x32) == 0xf8 && S1(0x0b) == 0x5b
    ensures S0(0x4b) == 0x14 && S1(0xf1) == 0xbe && S0(0xc8) == 0xe6 && S1(0xdc) == 0xba
  {
  }

  lemma AInit26() returns (w: Words)
    ensures Valid(Load(AK, AIV)) && InitRounds(Load(AK, AIV), 26) == w.Value() && w.AllRight()
    ensures w == Words(A26, A27, A28, A29, A30, A31, A32, A33, A34, A35, A36, A37, A38, A39, A40, A41, 0x3676f85b, 0x14bee6ba)
  {
    hide S0, S1, Load, InitRounds, WorkRounds, Keystream, Initialized, Words.Value, Words.AllRight, Right;
    w := AInit25();
    AOctets25();
    RightCell(1068893982, 0x7f6c, 0x071e);
    w := Init(Load(AK, AIV), 25, w, A41, 1724433, 0x87bfbd8c, 0xd229320b, 0x4bf1c8dc, 0x3676f85b, 0x14bee6ba);
  }

  lemma AOctets26()
    ensures S0(0x84) == 0x0a && S1(0xa7) == 0x38 && S0(0x3c) == 0x63 && S1(0x8c) == 0x97
    ensures S0(0x1e) == 0x03 && S1(0x7b) == 0x93 && S0(0x29) == 0xb6 && S1(0xe0) == 0x88
  {
  }

  lemma AInit27() returns (w: Words)
    ensures Valid(Load(AK, AIV)) && InitRounds(Load(AK, AIV), 27) == w.Value() && w.AllRight()
    ensures w == Words(A27, A28, A29, A30, A31, A32, A33, A34, A35, A36, A37, A38, A39, A40, A41, A42, 0x0a386397, 0x0393b688)
  {
    hide S0, S1, Load, InitRounds, WorkRounds, Keystream, Initialized, Words.Value, Words.AllRight, Right;
    w := AInit26();
    AOctets26();
    RightCell(371012882, 0x2c3a, 0x3512);
    w := Init(Load(AK, AIV), 26, w, A42, 2008911, 0x5dd8f7c8, 0x84a73c8c, 0x1e7b29e0, 0x0a386397, 0x0393b688);
  }

  lemma AOctets27()
    ensures S0(0xf3) == 0xdb && S1(0xc0) == 0xa3 && S0(0x0f) == 0xcb && S1(0xec) == 0x32
    ensures S0(0xa1) == 0x26 && S1(0x3d) == 0xfa && S0(0x77) == 0x9a && S1(0x9d) == 0xcd
  {
  }

  lemma AInit28() returns (w: Words)
    ensures Valid(Load(AK, AIV)) && InitRounds(Load(AK, AIV), 28) == w.Value() && w.AllRight()
    ensures w == Words(A28, A29, A30, A31, A32, A33, A34, A35, A36, A37, A38, A39, A40, A41, A42, A43, 0xdba3cb32, 0x26fa9acd)
  {
    hide S0, S1, Load, InitRounds, WorkRounds, Keystream, Initialized, Words.Value, Words.AllRight, Right;
    w := AInit27();
    AOctets27();
    RightCell(1897181494, 0xe229, 0xb136);
    w := Init(Load(AK, AIV), 27, w, A43, 1090625, 0x29961b11, 0xf3c00fec, 0xa13d779d, 0xdba3cb32, 0x26fa9acd);
  }

  lemma AOctets28()
    ensures S0(0xe1) == 0x83 && S1(0x2c) == 0x8b && S0(0xdd) == 0xc4 && S1(0x54) == 0x9c
    ensures S0(0x9d) == 0x4c && S1(0xa5) == 0xa2 && S0(0x30) == 0xcd && S1(0x5e) == 0x7a
  {
  }

  lemma AInit29() returns (w: Words)
    ensures Valid(Load(AK, AIV)) && InitRounds(Load(AK, AIV), 29) == w.Value() && w.AllRight()
    ensures w == Words(A29, A30, A31, A32, A33, A34, A35, A36, A37, A38, A39, A40, A41, A42, A43, A44, 0x838bc49c, 0x4ca2cd7a)
  {
    hide S0, S1, Load, InitRounds, WorkRounds, Keystream, Initialized, Words.Value, Words.AllRight, Right;
    w := AInit28();
    AOctets28();
    RightCell(1364513874, 0xa2a9, 0xd452);
    w := Init(Load(AK, AIV), 28, w, A44, 1692671, 0x608598ed, 0xe12cdd54, 0x9da5305e, 0x838bc49c, 0x4ca2cd7a);
  }

  lemma AOctets29()
    ensures S0(0xd9) == 0x15 && S1(0x97) == 0xab && S0(0x54) == 0x4f && S1(0x75) == 0xb2
    ensures S0(0xe1) == 0x83 && S1(0xad) == 0xb8 && S0(0xe6) == 0x3f && S1(0xf9) == 0x25
  {
  }

  lemma AInit30() returns (w: Words)
    ensures Valid(Load(AK, AIV)) && InitRounds(Load(AK, AIV), 30) == w.Value() && w.AllRight()
    ensures w == Words(A30, A31, A32, A33, A34, A35, A36, A37, A38, A39, A40, A41, A42, A43, A44, A45, 0x15ab4fb2, 0x83b83f25)
  {
    hide S0, S1, Load, InitRounds, WorkRounds, Keystream, Initialized, Words.Value, Words.AllRight, Right;
    w := AInit29();
    AOctets29();
    RightCell(2026281588, 0xf18d, 0x9a74);
    w := Init(Load(AK, AIV), 29, w, A45, 1807902, 0x6dc54324, 0xd9975475, 0xe1ade6f9, 0x15ab4fb2, 0x83b83f25);
  }

  lemma AOctets30()
    ensures S0(0xaf) == 0x5d && S1(0xa7) == 0x38 && S0(0x3d) == 0x20 && S1(0x7e) == 0xdb
    ensures S0(0x5e) == 0x58 && S1(0x28) == 0x10 && S0(0x63) == 0x17 && S1(0x91) == 0x37
  {
  }

  lemma AInit31() returns (w: Words)
    ensures Valid(Load(AK, AIV)) && InitRounds(Load(AK, AIV), 31) == w.Value() && w.AllRight()
    ensures w == Words(A31, A32, A33, A34, A35, A36, A37, A38, A39, A40, A41, A42, A43, A44, A45, A46, 0x5d3820db, 0x58101737)
  {
    hide S0, S1, Load, InitRounds, WorkRounds, Keystream, Initialized, Words.Value, Words.AllRight, Right;
    w := AInit30();
    AOctets30();
    RightCell(1327938155, 0x9e4d, 0xba6b);
    w := Init(Load(AK, AIV), 30, w, A46, 2210944, 0x67dedb05, 0xafa73d7e, 0x5e286391, 0x5d3820db, 0x58101737);
  }

  lemma AOctets31()
    ensures S0(0x4b) == 0x14 && S1(0x47) == 0xcf && S0(0x3e) == 0xd4 && S1(0x52) == 0x4c
    ensures S0(0x68) == 0x8c && S1(0x35) == 0x6d && S0(0xed) == 0xe8 && S1(0x17) == 0x00
  {
  }

  lemma AInit32() returns (w: Words)
    ensures Valid(Load(AK, AIV)) && InitRounds(Load(AK, AIV), 32) == w.Value() && w.AllRight()
    ensures w == Words(A32, A33, A34, A35, A36, A37, A38, A39, A40, A41, A42, A43, A44, A45, A46, A47, 0x14cfd44c, 0x8c6de800)
  {
    hide S0, S1, Load, InitRounds, WorkRounds, Keystream, Initialized, Words.Value, Words.AllRight, Right;
    w := AInit31();
    AOctets31();
    RightCell(1041993066, 0x7c37, 0x8d6a);
    w := Init(Load(AK, AIV), 31, w, A47, 1734480, 0x1b85d1e6, 0x4b473e52, 0x6835ed17, 0x14cfd44c, 0x8c6de800);
  }

  lemma AClock0() returns (w: Words, ks: seq<bv32>)
    ensures WorkRounds(Initialized(AK, AIV), |ks|) == w.Value() && Keystream(Initialized(AK, AIV), |ks|) == ks && w.AllRight() && ks == []
    ensures w == Words(A32, A33, A34, A35, A36, A37, A38, A39, A40, A41, A42, A43, A44, A45, A46, A47, 0x14cfd44c, 0x8c6de800)
  {
    hide S0, S1, Load, InitRounds, WorkRounds, Keystream, Initialized, Words.Value, Words.AllRight, Right;
    w := AInit32();
    ks := [];
    InitializedMeans(AK, AIV);
    LastWorkRound(Initialized(AK, AIV), 0);
    LastWord(Initialized(AK, AIV), 0);
  }

  lemma AOctets32()
    ensures S0(0x98) == 0x35 && S1(0xfc) == 0x12 && S0(0x91) == 0xbf && S1(0xac) == 0x50
    ensures S0(0xf6) == 0xa0 && S1(0xd6) == 0x92 && S0(0x08) == 0x04 && S1(0x61) == 0x53
  {
  }

  lemma AClock1() returns (w: Words, ks: seq<bv32>)
    ensures WorkRounds(Initialized(AK, AIV), |ks|) == w.Value() && Keystream(Initialized(AK, AIV), |ks|) == ks && w.AllRight() && ks == [0x286dafe5]
    ensures w == Words(A33, A34, A35, A36, A37, A38, A39, A40, A41, A42, A43, A44, A45, A46, A47, A48, 0x3512bf50, 0xa0920453)
  {
    hide S0, S1, Load, InitRounds, WorkRounds, Keystream, Initialized, Words.Value, Words.AllRight, Right;
    w, ks := AClock0();
    AOctets32();
    RightCell(2131288385, 0xfe11, 0xe141);
    w, ks := Clock(Initialized(AK, AIV), w, ks, 0x286dafe5, A48, 981686, 0xf5665627, 0x98fc91ac, 0xf6d60861, 0x3512bf50, 0xa0920453);
  }

  lemma AOctets33()
    ensures S0(0x8c) == 0xc7 && S1(0x70) == 0xee && S0(0x55) == 0x7f && S1(0x16) == 0x13
    ensures S0(0xe7) == 0x0c && S1(0xb5) == 0x0f && S0(0x64) == 0xa8 && S1(0x66) == 0x17
  {
  }

  lemma AClock2() returns (w: Words, ks: seq<bv32>)
    ensures WorkRounds(Initialized(AK, AIV), |ks|) == w.Value() && Keystream(Initialized(AK, AIV), |ks|) == ks && w.AllRight() && ks == [0x286dafe5, 0x27bede74]
    ensures w == Words(A34, A35, A36, A37, A38, A39, A40, A41, A42, A43, A44, A45, A46, A47, A48, A49, 0xc7ee7f13, 0x0c0fa817)
  {
    hide S0, S1, Load, InitRounds, WorkRounds, Keystream, Initialized, Words.Value, Words.AllRight, Right;
    w, ks := AClock1();
    AOctets33();
    RightCell(1027095812, 0x7a70, 0x3d04);
    w, ks := Clock(Initialized(AK, AIV), w, ks, 0x27bede74, A49, 2381888, 0x6b95368d, 0x8c705516, 0xe7b56466, 0xc7ee7f13, 0x0c0fa817);
  }

  lemma AOctets34()
    ensures S0(0x28) == 0xdd && S1(0xc4) == 0xe6 && S0(0xda) == 0x3d && S1(0x2b) == 0xa7
    ensures S0(0x0d) == 0xb9 && S1(0x40) == 0xdd && S0(0x16) == 0x6a && S1(0xd4) == 0x41
  {
  }

  lemma AClock3() returns (w: Words, ks: seq<bv32>)
    ensures WorkRounds(Initialized(AK, AIV), |ks|) == w.Value() && Keystream(Initialized(AK, AIV), |ks|) == ks && w.AllRight() && ks == [0x286dafe5, 0x27bede74, 0x018082da]
    ensures w == Words(A35, A36, A37, A38, A39, A40, A41, A42, A43, A44, A45, A46, A47, A48, A49, A50, 0xdde63da7, 0xb9dd6a41)
  {
    hide S0, S1, Load, InitRounds, WorkRounds, Keystream, Initialized, Words.Value, Words.AllRight, Right;
    w, ks := AClock2();
    AOctets34();
    RightCell(332846976, 0x27ad, 0xd780);
    w, ks := Clock(Initialized(AK, AIV), w, ks, 0x018082da, A50, 1699701, 0xc9ae4669, 0x28c4da2b, 0x0d4016d4, 0xdde63da7, 0xb9dd6a41);
  }

  // The first words of the key stream.
  lemma FirstTestSet()
    ensures Keystream(Initialized(AK, AIV), 3)[1..] == [0x27bede74, 0x018082da]
  {
    hide Keystream, Initialized, WorkRounds;
    var w, ks := AClock3();
  }
}
