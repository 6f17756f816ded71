/** The ZUC key-stream generator (zuc.cc).  LFSR cells are numbers, because the LFSR works
    modulo 2^31 - 1; the registers of the nonlinear function F are bit vectors. */
module Zuc {
  import opened Bytes
  import opened Modular
  import opened Tables
  import opened Word32

  // ----- Sums and rotations of 31-bit cells -----

  predicate IsCell(x: int) {
    1 <= x <= P
  }

  // u32 arithmetic: masking with 0x7FFFFFFF is % 2^31, shifting right by 31 is / 2^31.
  function AddM(a: nat, b: nat): nat {
    var c := (a + b) % 0x1_0000_0000;
    c % 0x8000_0000 + c / 0x8000_0000
  }

  lemma AddMIsSum(a: nat, b: nat)
    requires a <= P && b <= P
    ensures a + b < 0x1_0000_0000
    ensures AddM(a, b) <= P
    ensures 1 <= a || 1 <= b ==> IsCell(AddM(a, b))
    ensures Congruent(AddM(a, b), a + b)
  {
    var c := a + b;
    assert AddM(a, b) == if c <= P then c else c - P;
    CongruentIntro(AddM(a, b), c, if c <= P then 0 else -1);
  }

  // Rotation of a 31-bit cell by k places, for 2^k == up and 2^(31-k) == down.  The two
  // shifted parts do not overlap, so their disjunction is a sum.
  function Rotate31(x: nat, up: nat, down: nat): nat
    requires x <= P && 1 <= up && 1 <= down && up * down == 0x8000_0000
  {
    DivFacts(x, down);
    (x * up) % 0x8000_0000 + x / down
  }

  function MulByPow2(x: nat, k: nat): nat
    requires x <= P && k in {8, 15, 17, 20, 21}
  {
    if k == 8 then Rotate31(x, 0x100, 0x80_0000)
    else if k == 15 then Rotate31(x, 0x8000, 0x1_0000)
    else if k == 17 then Rotate31(x, 0x2_0000, 0x4000)
    else if k == 20 then Rotate31(x, 0x10_0000, 0x800)
    else Rotate31(x, 0x20_0000, 0x400)
  }

  lemma Rotate31IsProduct(x: nat, up: nat, down: nat)
    requires x <= P && 1 <= up && 1 <= down && up * down == 0x8000_0000
    ensures Rotate31(x, up, down) <= P
    ensures IsCell(x) ==> IsCell(Rotate31(x, up, down))
    ensures Congruent(Rotate31(x, up, down), up * x)
  {
    var q, r := Split31(x, down, up);
    assert Rotate31(x, up, down) == r * up + q;
    assert (down - 1) * up == 0x8000_0000 - up;
    if IsCell(x) && q == 0 {
      MulMonotone(1, r, up);
    }
    CongruentIntro(Rotate31(x, up, down), up * x, -(q as int));
  }

  // ----- State and one clock -----

  ghost predicate Cells(s: seq<nat>) {
    |s| == 16 && forall i :: 0 <= i < 16 ==> IsCell(s[i])
  }

  // The sum that both LFSR modes form before shifting.
  function Feedback(s: seq<nat>): nat
    requires Cells(s)
  {
    var f1 := AddM(s[0], MulByPow2(s[0], 8));
    var f2 := AddM(f1, MulByPow2(s[4], 20));
    var f3 := AddM(f2, MulByPow2(s[10], 21));
    var f4 := AddM(f3, MulByPow2(s[13], 17));
    AddM(f4, MulByPow2(s[15], 15))
  }

  // All the terms of the recurrence but s0.
  ghost function Taps(s: seq<nat>): int
    requires |s| == 16
  {
    0x8000 * s[15] + 0x2_0000 * s[13] + 0x20_0000 * s[10] + 0x10_0000 * s[4]
  }

  lemma AddTerm(f: nat, sum: int, x: nat, up: nat, down: nat)
    requires IsCell(f) && Congruent(f, sum) && IsCell(x)
    requires 1 <= up && 1 <= down && up * down == 0x8000_0000
    ensures IsCell(AddM(f, Rotate31(x, up, down)))
    ensures Congruent(AddM(f, Rotate31(x, up, down)), sum + up * x)
  {
    var v := Rotate31(x, up, down);
    Rotate31IsProduct(x, up, down);
    AddMIsSum(f, v);
    CongruentSum(f, sum, v, up * x);
    CongruentTrans(AddM(f, v), f + v, sum + up * x);
  }

  // The LFSR recurrence of section 3.2 of the ZUC specification.  Sums of cells are cells, so
  // a zero never arises and needs no replacement.
  lemma FeedbackIsRecurrence(s: seq<nat>)
    requires Cells(s)
    ensures IsCell(Feedback(s))
    ensures Congruent(Feedback(s), 257 * s[0] + Taps(s))
  {
    var t := s[0];
    CongruentIntro(t, t, 0);
    AddTerm(t, t, t, 0x100, 0x80_0000);
    var f1 := AddM(t, MulByPow2(t, 8));
    AddTerm(f1, 257 * t, s[4], 0x10_0000, 0x800);
    var f2 := AddM(f1, MulByPow2(s[4], 20));
    AddTerm(f2, 257 * t + 0x10_0000 * s[4], s[10], 0x20_0000, 0x400);
    var f3 := AddM(f2, MulByPow2(s[10], 21));
    AddTerm(f3, 257 * t + 0x10_0000 * s[4] + 0x20_0000 * s[10], s[13], 0x2_0000, 0x4000);
    var f4 := AddM(f3, MulByPow2(s[13], 17));
    AddTerm(f4, 257 * t + 0x10_0000 * s[4] + 0x20_0000 * s[10] + 0x2_0000 * s[13], s[15], 0x8000, 0x1_0000);
  }

  // ----- Bit reorganization and the nonlinear function -----

  // The vector of the 16 low bits of v.
  function Bits(v: nat): bv32 {
    if v == 0 then 0 else (Bits(v / 2) << 1) | (if v % 2 == 1 then 1 else 0)
  }

  // Two 16-bit halves, side by side.
  function Join(high: nat, low: nat): bv32 {
    (Bits(high) << 16) | Bits(low)
  }

  function High(cell: nat): nat { cell / 0x8000 }

  function Low(cell: nat): nat { cell % 0x1_0000 }

  function Rot(x: bv32, k: bv6): bv32
    requires k <= 32
  {
    (x << k) | (x >> (32 - k))
  }

  function L1(x: bv32): bv32 {
    Xor(Xor(Xor(Xor(x, Rot(x, 2)), Rot(x, 10)), Rot(x, 18)), Rot(x, 24))
  }

  function L2(x: bv32): bv32 {
    Xor(Xor(Xor(Xor(x, Rot(x, 8)), Rot(x, 14)), Rot(x, 22)), Rot(x, 30))
  }

  function Substitute(u: bv32): bv32 {
    MakeU32(S0(Byte3(u)), S1(Byte2(u)), S0(Byte1(u)), S1(Byte0(u)))
  }

  // The low half of one word before the high half of another.
  function Cross(a: bv32, b: bv32): bv32 { (a << 16) | (b >> 16) }

  function NextR1(w1: bv32, w2: bv32): bv32 { Substitute(L1(Cross(w1, w2))) }

  function NextR2(w1: bv32, w2: bv32): bv32 { Substitute(L2(Cross(w2, w1))) }

  // ----- The nonlinear function can be undone -----

  lemma Rot2Xor(x: bv32, y: bv32)
    ensures Rot(Xor(x, y), 2) == Xor(Rot(x, 2), Rot(y, 2))
  {
  }
  lemma Rot8Xor(x: bv32, y: bv32)
    ensures Rot(Xor(x, y), 8) == Xor(Rot(x, 8), Rot(y, 8))
  {
  }
  lemma Rot10Xor(x: bv32, y: bv32)
    ensures Rot(Xor(x, y), 10) == Xor(Rot(x, 10), Rot(y, 10))
  {
  }
  lemma Rot14Xor(x: bv32, y: bv32)
    ensures Rot(Xor(x, y), 14) == Xor(Rot(x, 14), Rot(y, 14))
  {
  }
  lemma Rot18Xor(x: bv32, y: bv32)
    ensures Rot(Xor(x, y), 18) == Xor(Rot(x, 18), Rot(y, 18))
  {
  }
  lemma Rot22Xor(x: bv32, y: bv32)
    ensures Rot(Xor(x, y), 22) == Xor(Rot(x, 22), Rot(y, 22))
  {
  }
  lemma Rot24Xor(x: bv32, y: bv32)
    ensures Rot(Xor(x, y), 24) == Xor(Rot(x, 24), Rot(y, 24))
  {
  }
  lemma Rot30Xor(x: bv32, y: bv32)
    ensures Rot(Xor(x, y), 30) == Xor(Rot(x, 30), Rot(y, 30))
  {
  }

  // The sum of five words, and of five sums.
  function Xor5(a: bv32, b: bv32, c: bv32, d: bv32, e: bv32): bv32 {
    Xor(Xor(Xor(Xor(a, b), c), d), e)
  }

  lemma Xor5OfXors(a: bv32, b: bv32, c: bv32, d: bv32, e: bv32,
                   a': bv32, b': bv32, c': bv32, d': bv32, e': bv32)
    ensures Xor5(Xor(a, a'), Xor(b, b'), Xor(c, c'), Xor(d, d'), Xor(e, e'))
         == Xor(Xor5(a, b, c, d, e), Xor5(a', b', c', d', e'))
  {
    hide Xor;
    Exchange(a, a', b, b');
    Exchange(Xor(a, b), Xor(a', b'), c, c');
    Exchange(Xor(Xor(a, b), c), Xor(Xor(a', b'), c'), d, d');
    Exchange(Xor(Xor(Xor(a, b), c), d), Xor(Xor(Xor(a', b'), c'), d'), e, e');
  }

  lemma L1Linear(x: bv32, y: bv32)
    ensures L1(Xor(x, y)) == Xor(L1(x), L1(y))
  {
    hide Xor; hide Rot;
    Rot2Xor(x, y);
    Rot10Xor(x, y);
    Rot18Xor(x, y);
    Rot24Xor(x, y);
    Xor5OfXors(x, Rot(x, 2), Rot(x, 10), Rot(x, 18), Rot(x, 24),
               y, Rot(y, 2), Rot(y, 10), Rot(y, 18), Rot(y, 24));
  }

  lemma L2Linear(x: bv32, y: bv32)
    ensures L2(Xor(x, y)) == Xor(L2(x), L2(y))
  {
    hide Xor; hide Rot;
    Rot8Xor(x, y);
    Rot14Xor(x, y);
    Rot22Xor(x, y);
    Rot30Xor(x, y);
    Xor5OfXors(x, Rot(x, 8), Rot(x, 14), Rot(x, 22), Rot(x, 30),
               y, Rot(y, 8), Rot(y, 14), Rot(y, 22), Rot(y, 30));
  }

  lemma L1Kernel(x: bv32)
    requires L1(x) == 0
    ensures x == 0
  {
  }

  lemma L2Kernel(x: bv32)
    requires L2(x) == 0
    ensures x == 0
  {
  }

  lemma L1Injective(x: bv32, y: bv32)
    requires L1(x) == L1(y)
    ensures x == y
  {
    hide *;
    L1Linear(x, y);
    Zero(L1(x), L1(y));
    L1Kernel(Xor(x, y));
    Zero(x, y);
  }

  lemma L2Injective(x: bv32, y: bv32)
    requires L2(x) == L2(y)
    ensures x == y
  {
    hide *;
    L2Linear(x, y);
    Zero(L2(x), L2(y));
    L2Kernel(Xor(x, y));
    Zero(x, y);
  }

  lemma SubstituteInjective(u: bv32, v: bv32)
    requires Substitute(u) == Substitute(v)
    ensures u == v
  {
    hide S0; hide S1; hide InvS0; hide InvS1; hide MakeU32;
    hide Byte0; hide Byte1; hide Byte2; hide Byte3;
    MakeU32Injective(S0(Byte3(u)), S1(Byte2(u)), S0(Byte1(u)), S1(Byte0(u)),
                     S0(Byte3(v)), S1(Byte2(v)), S0(Byte1(v)), S1(Byte0(v)));
    S0Permutes(Byte3(u)); S0Permutes(Byte3(v));
    S1Permutes(Byte2(u)); S1Permutes(Byte2(v));
    S0Permutes(Byte1(u)); S0Permutes(Byte1(v));
    S1Permutes(Byte0(u)); S1Permutes(Byte0(v));
    BytesDetermine(u, v);
  }

  lemma HalvesDetermine(w1: bv32, w2: bv32, v1: bv32, v2: bv32)
    requires Cross(w1, w2) == Cross(v1, v2) && Cross(w2, w1) == Cross(v2, v1)
    ensures w1 == v1 && w2 == v2
  {
  }

  lemma RegistersInjective(w1: bv32, w2: bv32, v1: bv32, v2: bv32)
    requires NextR1(w1, w2) == NextR1(v1, v2) && NextR2(w1, w2) == NextR2(v1, v2)
    ensures w1 == v1 && w2 == v2
  {
    hide Substitute; hide L1; hide L2; hide Cross;
    SubstituteInjective(L1(Cross(w1, w2)), L1(Cross(v1, v2)));
    SubstituteInjective(L2(Cross(w2, w1)), L2(Cross(v2, v1)));
    L1Injective(Cross(w1, w2), Cross(v1, v2));
    L2Injective(Cross(w2, w1), Cross(v2, v1));
    HalvesDetermine(w1, w2, v1, v2);
  }

  // ----- One clock of the whole generator -----

  datatype State = State(lfsr: seq<nat>, r1: bv32, r2: bv32)

  ghost predicate Valid(st: State) {
    Cells(st.lfsr)
  }

  // The four words that bit reorganization extracts.
  function X0(s: seq<nat>): bv32 requires |s| == 16 { Join(High(s[15]), Low(s[14])) }
  function X1(s: seq<nat>): bv32 requires |s| == 16 { Join(Low(s[11]), High(s[9])) }
  function X2(s: seq<nat>): bv32 requires |s| == 16 { Join(Low(s[7]), High(s[5])) }
  function X3(s: seq<nat>): bv32 requires |s| == 16 { Join(Low(s[2]), High(s[0])) }

  // The word F returns, and the registers it leaves.
  function OutputWord(x0: bv32, r1: bv32, r2: bv32): bv32 {
    Plus(Xor(x0, r1), r2)
  }

  function R1After(st: State): bv32
    requires |st.lfsr| == 16
  {
    NextR1(Plus(st.r1, X1(st.lfsr)), Xor(st.r2, X2(st.lfsr)))
  }

  function R2After(st: State): bv32
    requires |st.lfsr| == 16
  {
    NextR2(Plus(st.r1, X1(st.lfsr)), Xor(st.r2, X2(st.lfsr)))
  }

  function Number(w: bv32): (n: nat)
    ensures n < 0x1_0000_0000
  {
    w as nat
  }

  // w >> 1, as the number that enters the LFSR.
  function Half(w: bv32): (n: nat)
    ensures n <= P
  {
    hide Number;
    Number(w) / 2
  }

  function InitRound(st: State): State
    requires Valid(st)
  {
    var w := OutputWord(X0(st.lfsr), st.r1, st.r2);
    State(st.lfsr[1..] + [AddM(Feedback(st.lfsr), Half(w))], R1After(st), R2After(st))
  }

  function WorkRound(st: State): State
    requires Valid(st)
  {
    State(st.lfsr[1..] + [Feedback(st.lfsr)], R1After(st), R2After(st))
  }

  lemma RoundsAreValid(st: State)
    requires Valid(st)
    ensures Valid(InitRound(st)) && Valid(WorkRound(st))
  {
    hide AddM; hide Feedback; hide X0; hide OutputWord; hide R1After; hide R2After; hide Half;
    var w := OutputWord(X0(st.lfsr), st.r1, st.r2);
    FeedbackIsRecurrence(st.lfsr);
    AddMIsSum(Feedback(st.lfsr), Half(w));
  }

  lemma RegistersRecovered(r1: bv32, r2: bv32, x1: bv32, x2: bv32, s1: bv32, s2: bv32)
    requires NextR1(Plus(r1, x1), Xor(r2, x2)) == NextR1(Plus(s1, x1), Xor(s2, x2))
    requires NextR2(Plus(r1, x1), Xor(r2, x2)) == NextR2(Plus(s1, x1), Xor(s2, x2))
    ensures r1 == s1 && r2 == s2
  {
    hide *;
    RegistersInjective(Plus(r1, x1), Xor(r2, x2), Plus(s1, x1), Xor(s2, x2));
    CancelRight(r1, s1, x1);
    Cancel(r2, s2, x2);
  }

  // The registers and every cell but the oldest survive a round or can be recovered from it.
  lemma RecoverAllButOldest(a: State, b: State)
    requires Valid(a) && Valid(b)
    requires a.lfsr[1..] == b.lfsr[1..] && R1After(a) == R1After(b) && R2After(a) == R2After(b)
    ensures a.r1 == b.r1 && a.r2 == b.r2 && Taps(a.lfsr) == Taps(b.lfsr) && X0(a.lfsr) == X0(b.lfsr)
  {
    hide Join; hide NextR1; hide NextR2; hide Plus; hide Xor;
    forall i | 1 <= i < 16
      ensures a.lfsr[i] == b.lfsr[i]
    {
      assert a.lfsr[1..][i - 1] == b.lfsr[1..][i - 1];
    }
    assert X1(a.lfsr) == X1(b.lfsr) && X2(a.lfsr) == X2(b.lfsr);
    RegistersRecovered(a.r1, a.r2, X1(a.lfsr), X2(a.lfsr), b.r1, b.r2);
  }

  lemma SameCells(a: seq<nat>, b: seq<nat>)
    requires |a| == 16 && |b| == 16 && a[0] == b[0] && a[1..] == b[1..]
    ensures a == b
  {
    assert a == [a[0]] + a[1..] && b == [b[0]] + b[1..];
  }

  lemma InitRoundInjective(a: State, b: State)
    requires Valid(a) && Valid(b)
    ensures InitRound(a) == InitRound(b) <==> a == b
  {
    hide AddM; hide Feedback; hide X0; hide OutputWord; hide R1After; hide R2After;
    if InitRound(a) == InitRound(b) {
      var h, h' := Half(OutputWord(X0(a.lfsr), a.r1, a.r2)), Half(OutputWord(X0(b.lfsr), b.r1, b.r2));
      var f, f' := AddM(Feedback(a.lfsr), h), AddM(Feedback(b.lfsr), h');
      assert InitRound(a).lfsr[15] == f && InitRound(b).lfsr[15] == f';
      assert a.lfsr[1..] == InitRound(a).lfsr[..15] && b.lfsr[1..] == InitRound(b).lfsr[..15];
      RecoverAllButOldest(a, b);
      InitSum(a.lfsr, h);
      InitSum(b.lfsr, h');
      Cancel257(a.lfsr[0], b.lfsr[0], f, Taps(a.lfsr) + h);
      SameCells(a.lfsr, b.lfsr);
    }
  }

  // Initialization mode adds the word u to the recurrence.
  lemma InitSum(s: seq<nat>, u: nat)
    requires Cells(s) && u <= P
    ensures IsCell(AddM(Feedback(s), u))
    ensures Congruent(AddM(Feedback(s), u), 257 * s[0] + Taps(s) + u)
  {
    FeedbackIsRecurrence(s);
    AddMIsSum(Feedback(s), u);
    CongruentIntro(u, u, 0);
    CongruentSum(Feedback(s), 257 * s[0] + Taps(s), u, u);
    CongruentTrans(AddM(Feedback(s), u), Feedback(s) + u, 257 * s[0] + Taps(s) + u);
  }

  lemma WorkRoundInjective(a: State, b: State)
    requires Valid(a) && Valid(b)
    ensures WorkRound(a) == WorkRound(b) <==> a == b
  {
    hide Feedback; hide R1After; hide R2After; hide X0;
    if WorkRound(a) == WorkRound(b) {
      assert WorkRound(a).lfsr[15] == Feedback(a.lfsr) && WorkRound(b).lfsr[15] == Feedback(b.lfsr);
      assert a.lfsr[1..] == WorkRound(a).lfsr[..15] && b.lfsr[1..] == WorkRound(b).lfsr[..15];
      RecoverAllButOldest(a, b);
      FeedbackIsRecurrence(a.lfsr);
      FeedbackIsRecurrence(b.lfsr);
      Cancel257(a.lfsr[0], b.lfsr[0], Feedback(a.lfsr), Taps(a.lfsr));
      SameCells(a.lfsr, b.lfsr);
    }
  }

  // ----- Initialization -----

  const EK_D: seq<nat> := [0x44D7, 0x26BC, 0x626B, 0x135E, 0x5789, 0x35E2, 0x7135, 0x09AF,
                           0x4D78, 0x2F13, 0x6BC4, 0x1AF1, 0x5E26, 0x3C4D, 0x789A, 0x47AC]

  // An octet, a 15-bit constant and an octet, side by side.
  function MakeU31(a: byte, d: nat, b: byte): nat {
    a * 0x80_0000 + d * 0x100 + b
  }

  function LoadedCell(k: seq<byte>, iv: seq<byte>, i: nat): nat
    requires |k| == 16 && |iv| == 16 && i < 16
  {
    MakeU31(k[i], EK_D[i], iv[i])
  }

  function Load(k: seq<byte>, iv: seq<byte>): State
    requires |k| == 16 && |iv| == 16
  {
    State(seq(16, i requires 0 <= i < 16 => LoadedCell(k, iv, i)), 0, 0)
  }

  function InitRounds(st: State, n: nat): State
    requires Valid(st)
    ensures Valid(InitRounds(st, n))
  {
    if n == 0 then st
    else
      RoundsAreValid(InitRounds(st, n - 1));
      InitRound(InitRounds(st, n - 1))
  }

  function WorkRounds(st: State, n: nat): State
    requires Valid(st)
    ensures Valid(WorkRounds(st, n))
  {
    if n == 0 then st
    else
      RoundsAreValid(WorkRounds(st, n - 1));
      WorkRound(WorkRounds(st, n - 1))
  }

  lemma LoadIsValid(k: seq<byte>, iv: seq<byte>)
    requires |k| == 16 && |iv| == 16
    ensures Valid(Load(k, iv)) && Load(k, iv).r1 == 0 && Load(k, iv).r2 == 0
  {
    forall i | 0 <= i < 16
      ensures IsCell(LoadedCell(k, iv, i))
    {
      assert 0 < EK_D[i] < 0x8000;
    }
  }

  lemma LoadInjective(k: seq<byte>, iv: seq<byte>, k': seq<byte>, iv': seq<byte>)
    requires |k| == 16 && |iv| == 16 && |k'| == 16 && |iv'| == 16
    requires Load(k, iv) == Load(k', iv')
    ensures k == k' && iv == iv'
  {
    forall i | 0 <= i < 16
      ensures k[i] == k'[i] && iv[i] == iv'[i]
    {
      assert Load(k, iv).lfsr[i] == LoadedCell(k, iv, i);
      assert Load(k', iv').lfsr[i] == LoadedCell(k', iv', i);
      assert 0 < EK_D[i] < 0x8000;
    }
  }

  lemma LastInitRound(st: State, n: nat)
    requires Valid(st)
    ensures InitRounds(st, n) == if n == 0 then st else InitRound(InitRounds(st, n - 1))
  {
    hide InitRound; hide Valid;
  }

  lemma {:induction false} InitRoundsInjective(a: State, b: State, n: nat)
    requires Valid(a) && Valid(b)
    ensures InitRounds(a, n) == InitRounds(b, n) <==> a == b
  {
    hide *;
    LastInitRound(a, n);
    LastInitRound(b, n);
    if InitRounds(a, n) == InitRounds(b, n) {
      if n > 0 {
        InitRoundInjective(InitRounds(a, n - 1), InitRounds(b, n - 1));
        InitRoundsInjective(a, b, n - 1);
      }
    }
  }

  lemma LastWorkRound(st: State, n: nat)
    requires Valid(st)
    ensures WorkRounds(st, n) == if n == 0 then st else WorkRound(WorkRounds(st, n - 1))
  {
    hide WorkRound; hide Valid;
  }

  lemma {:induction false} WorkRoundsInjective(a: State, b: State, n: nat)
    requires Valid(a) && Valid(b)
    ensures WorkRounds(a, n) == WorkRounds(b, n) <==> a == b
  {
    hide *;
    LastWorkRound(a, n);
    LastWorkRound(b, n);
    if WorkRounds(a, n) == WorkRounds(b, n) {
      if n > 0 {
        WorkRoundInjective(WorkRounds(a, n - 1), WorkRounds(b, n - 1));
        WorkRoundsInjective(a, b, n - 1);
      }
    }
  }

  // What zuc_initialize leaves in the state.
  function Initialized(k: seq<byte>, iv: seq<byte>): (st: State)
    requires |k| == 16 && |iv| == 16
    ensures Valid(st)
  {
    LoadIsValid(k, iv);
    InitRounds(Load(k, iv), 32)
  }

  // Generators that start from different keys or initialization vectors never come to the same
  // state, neither after initialization nor after any number of key-stream clocks.
  lemma InitializationInjective(k: seq<byte>, iv: seq<byte>, k': seq<byte>, iv': seq<byte>, n: nat)
    requires |k| == 16 && |iv| == 16 && |k'| == 16 && |iv'| == 16
    ensures WorkRounds(Initialized(k, iv), n) == WorkRounds(Initialized(k', iv'), n) <==> k == k' && iv == iv'
  {
    if WorkRounds(Initialized(k, iv), n) == WorkRounds(Initialized(k', iv'), n) {
      LoadIsValid(k, iv);
      LoadIsValid(k', iv');
      hide InitRounds; hide WorkRounds; hide Load;
      WorkRoundsInjective(Initialized(k, iv), Initialized(k', iv'), n);
      InitRoundsInjective(Load(k, iv), Load(k', iv'), 32);
      LoadInjective(k, iv, k', iv');
    }
  }

  // The word that goes into the key stream.
  function KeyWord(st: State): bv32
    requires |st.lfsr| == 16
  {
    Xor(OutputWord(X0(st.lfsr), st.r1, st.r2), X3(st.lfsr))
  }

  // The key-stream words of n further clocks.
  function Keystream(st: State, n: nat): (ks: seq<bv32>)
    requires Valid(st)
    ensures |ks| == n
  {
    if n == 0 then []
    else
      Keystream(st, n - 1) + [KeyWord(WorkRounds(st, n - 1))]
  }

  lemma LastWord(st: State, n: nat)
    requires Valid(st)
    ensures Keystream(st, n) == if n == 0 then [] else Keystream(st, n - 1) + [KeyWord(WorkRounds(st, n - 1))]
  {
    hide KeyWord; hide WorkRounds;
  }

  lemma InitializedMeans(k: seq<byte>, iv: seq<byte>)
    requires |k| == 16 && |iv| == 16
    ensures Valid(Load(k, iv)) && Initialized(k, iv) == InitRounds(Load(k, iv), 32)
  {
    hide InitRounds; hide Load;
    LoadIsValid(k, iv);
  }

  // How often a loop from 0 to a signed bound runs.
  ghost function Count(len: int): nat {
    if len < 0 then 0 else len
  }

  lemma CountMeans(len: int)
    ensures Count(len) == if len < 0 then 0 else len
  {
  }

  // ----- The generator as the code runs it -----

  class ZucState {
    var lfsr: seq<nat>  // the cells S0 to S15
    var r1: bv32
    var r2: bv32
    var x0: bv32
    var x1: bv32
    var x2: bv32
    var x3: bv32

    // The fields hold nothing of use before Initialize.
    constructor () {
      lfsr, r1, r2, x0, x1, x2, x3 := [], 0, 0, 0, 0, 0, 0;
    }

    function Value(): State
      reads this
    {
      State(lfsr, r1, r2)
    }

    // The outputs of bit reorganization belong to the present cells.
    ghost predicate Reorganized()
      reads this
    {
      |lfsr| == 16 && x0 == X0(lfsr) && x1 == X1(lfsr) && x2 == X2(lfsr) && x3 == X3(lfsr)
    }

    method LfsrWithInitialisationMode(u: nat)
      requires Cells(lfsr)
      modifies this`lfsr
      ensures lfsr == old(lfsr)[1..] + [AddM(Feedback(old(lfsr)), u)]
    {
      hide AddM;
      var f := lfsr[0];
      var v := MulByPow2(lfsr[0], 8);
      f := AddM(f, v);
      v := MulByPow2(lfsr[4], 20);
      f := AddM(f, v);
      v := MulByPow2(lfsr[10], 21);
      f := AddM(f, v);
      v := MulByPow2(lfsr[13], 17);
      f := AddM(f, v);
      v := MulByPow2(lfsr[15], 15);
      f := AddM(f, v);
      f := AddM(f, u);
      lfsr := lfsr[1..] + [f];
    }

    method LfsrWithWorkMode()
      requires Cells(lfsr)
      modifies this`lfsr
      ensures lfsr == old(lfsr)[1..] + [Feedback(old(lfsr))]
    {
      hide AddM;
      var f := lfsr[0];
      var v := MulByPow2(lfsr[0], 8);
      f := AddM(f, v);
      v := MulByPow2(lfsr[4], 20);
      f := AddM(f, v);
      v := MulByPow2(lfsr[10], 21);
      f := AddM(f, v);
      v := MulByPow2(lfsr[13], 17);
      f := AddM(f, v);
      v := MulByPow2(lfsr[15], 15);
      f := AddM(f, v);
      lfsr := lfsr[1..] + [f];
    }

    method BitReorganization()
      requires |lfsr| == 16
      modifies this`x0, this`x1, this`x2, this`x3
      ensures Reorganized()
    {
      hide Join;
      x0 := Join(High(lfsr[15]), Low(lfsr[14]));
      x1 := Join(Low(lfsr[11]), High(lfsr[9]));
      x2 := Join(Low(lfsr[7]), High(lfsr[5]));
      x3 := Join(Low(lfsr[2]), High(lfsr[0]));
    }

    method F() returns (w: bv32)
      requires Reorganized()
      modifies this`r1, this`r2
      ensures w == OutputWord(X0(lfsr), old(r1), old(r2))
      ensures r1 == R1After(old(Value())) && r2 == R2After(old(Value()))
    {
      hide X0; hide X1; hide X2; hide X3; hide OutputWord; hide Plus; hide Xor; hide NextR1; hide NextR2;
      w := OutputWord(x0, r1, r2);
      var w1 := Plus(r1, x1);
      var w2 := Xor(r2, x2);
      r1 := NextR1(w1, w2);
      r2 := NextR2(w1, w2);
    }

    method Initialize(k: seq<byte>, iv: seq<byte>)
      requires |k| == 16 && |iv| == 16
      modifies this
      ensures Value() == Initialized(k, iv)
    {
      hide *;
      ghost var start := Load(k, iv);
      lfsr := Load(k, iv).lfsr;
      r1 := 0;
      r2 := 0;
      LoadIsValid(k, iv);
      LastInitRound(start, 0);
      var nCount := 32;
      while nCount > 0
        invariant 0 <= nCount <= 32
        invariant Valid(start) && State(lfsr, r1, r2) == InitRounds(start, 32 - nCount)
      {
        LastInitRound(start, 33 - nCount);
        ClockInit();
        nCount := nCount - 1;
      }
      InitializedMeans(k, iv);
      ValueMeans();
    }

    lemma ValueMeans()
      ensures Value() == State(lfsr, r1, r2)
    {
    }

    // One pass of the initialization loop.
    method ClockInit()
      requires Valid(State(lfsr, r1, r2))
      modifies this
      ensures State(lfsr, r1, r2) == InitRound(old(State(lfsr, r1, r2)))
    {
      hide X0; hide X1; hide X2; hide X3; hide R1After; hide R2After; hide OutputWord;
      hide AddM; hide Feedback; hide Half;
      BitReorganization();
      var w := F();
      LfsrWithInitialisationMode(Half(w));
    }

    // One pass of the key-stream loop.
    method ClockWork() returns (z: bv32)
      requires Valid(State(lfsr, r1, r2))
      modifies this
      ensures State(lfsr, r1, r2) == WorkRound(old(State(lfsr, r1, r2)))
      ensures z == KeyWord(old(State(lfsr, r1, r2)))
    {
      hide X0; hide X1; hide X2; hide X3; hide R1After; hide R2After; hide OutputWord; hide Xor; hide Feedback;
      BitReorganization();
      z := F();
      z := Xor(z, x3);
      LfsrWithWorkMode();
    }

    // One word is discarded; the following ones fill ks[..len].
    method GenerateKeystream(len: int, ks: array<bv32>)
      requires Valid(Value()) && len <= ks.Length
      modifies this, ks
      ensures ks[..Count(len)] == Keystream(old(Value()), Count(len) + 1)[1..]
      ensures ks[Count(len)..] == old(ks[Count(len)..])
      ensures Value() == WorkRounds(old(Value()), Count(len) + 1)
    {
      hide *;
      ValueMeans();
      CountMeans(len);
      ghost var start := Value();
      LastWorkRound(start, 0);
      LastWorkRound(start, 1);
      LastWord(start, 0);
      LastWord(start, 1);
      var w := ClockWork();
      var i := 0;
      while i < len
        invariant 0 <= i <= Count(len)
        invariant Valid(start) && State(lfsr, r1, r2) == WorkRounds(start, i + 1)
        invariant ks[..i] == Keystream(start, i + 1)[1..]
        invariant ks[i..] == old(ks[i..])
      {
        LastWorkRound(start, i + 2);
        LastWord(start, i + 2);
        ValueMeans();
        w := ClockWork();
        ValueMeans();
        ks[i] := w;
        i := i + 1;
      }
      ValueMeans();
    }
  }
}
