/** Multiword arithmetic: machine code that adds or subtracts limb by limb through the carry flag, and the
    conditions that compare the results. */
module Multiword {
  import opened MemoryMap
  import opened Cpu
  import opened Instructions

  const ADC := 5
  const SBC := 6
  const CMP := 0xA

  /** `op rd, rs` executed on the limbs `a` and `b`. */
  function LimbStep(s: State, op: nat, rd: nat, rs: nat, a: u32, b: u32): State
    requires rd < 8 && rs < 8 && op < 16
  {
    Execute(SetReg(SetReg(s, rd, a), rs, b), AluCode(op, rd, rs))
  }

  /** The limbs, least significant first, are loaded into `rd` and `rs` one pair after the other by moves that
      leave the flags alone, and `op rd, rs` is executed on each pair. Final state and result limbs. */
  function Chain(s: State, op: nat, rd: nat, rs: nat, a: seq<u32>, b: seq<u32>): (State, seq<u32>)
    requires rd < 8 && rs < 8 && op < 16 && |a| == |b|
    decreases |a|
  {
    if a == [] then (s, [])
    else
      var s1 := LimbStep(s, op, rd, rs, a[0], b[0]);
      var (s2, rest) := Chain(s1, op, rd, rs, a[1..], b[1..]);
      (s2, [s1.regs[rd]] + rest)
  }

  // ---- What the limbs stand for ----

  function Value(l: seq<u32>): nat { if l == [] then 0 else l[0] + TWO32 * Value(l[1..]) }

  /** 2^(32 n). */
  function Range(n: nat): (r: nat)
    ensures r > 0
  {
    if n == 0 then 1 else TWO32 * Range(n - 1)
  }

  function SignedValue(l: seq<u32>): int
    requires l != []
  {
    if |l| == 1 then Signed(l[0]) else l[0] + TWO32 * SignedValue(l[1..])
  }

  lemma {:induction false} ValueBelowRange(l: seq<u32>)
    ensures Value(l) < Range(|l|)
  {
    if l != [] { ValueBelowRange(l[1..]); }
  }

  lemma {:induction false} SignedValueBounds(l: seq<u32>)
    requires l != []
    ensures 0 - Range(|l|) <= 2 * SignedValue(l) < Range(|l|)
    ensures SignedValue(l) < 0 <==> Negative(l[|l| - 1])
    ensures SignedValue(l) == Value(l) - if Negative(l[|l| - 1]) then Range(|l|) else 0
  {
    if |l| == 1 { assert Range(1) == TWO32 * Range(0); } else { SignedValueBounds(l[1..]); }
  }

  // ---- One limb ----

  /** The second operand of the adder: SBC complements it. */
  function Operand(op: nat, b: u32): u32 { if op == SBC then Not(b) else b }

  function CarryValue(f: Flags): nat { if f.c then 1 else 0 }

  /** By how much the signed result falls short of the exact sum. */
  function Excess(f: Flags, range: nat): int {
    if !f.v then 0 else if f.n then range else 0 - range
  }

  lemma LimbIs(s: State, op: nat, rd: nat, rs: nat, a: u32, b: u32)
    requires rd < 8 && rs < 8 && rd != rs && (op == ADC || op == SBC)
    ensures var r, x := Add32(a, Operand(op, b), s.flags.c), Operand(op, b);
            LimbStep(s, op, rd, rs, a, b).regs[rd] == r.0 && LimbStep(s, op, rd, rs, a, b).flags == AddFlags(a, x, r)
  {
    hide Execute, ExecAlu, ExecAluShift, AluCode, Add32, AddFlags, Not;
    DecodeAlu(SetReg(SetReg(s, rd, a), rs, b), op, rd, rs);
  }

  lemma OneLimb(s: State, op: nat, rd: nat, rs: nat, a: u32, b: u32)
    requires rd < 8 && rs < 8 && rd != rs && (op == ADC || op == SBC)
    ensures var s1 := LimbStep(s, op, rd, rs, a, b);
            s1.regs[rd] + TWO32 * CarryValue(s1.flags) == a + Operand(op, b) + CarryValue(s.flags)
  {
    hide LimbStep, Operand;
    LimbIs(s, op, rd, rs, a, b);
  }

  lemma OneSignedLimb(s: State, op: nat, rd: nat, rs: nat, a: u32, b: u32)
    requires rd < 8 && rs < 8 && rd != rs && (op == ADC || op == SBC)
    ensures var s1 := LimbStep(s, op, rd, rs, a, b); var r := s1.regs[rd];
            && Signed(a) + Signed(Operand(op, b)) + CarryValue(s.flags) == Signed(r) + Excess(s1.flags, TWO32)
            && (s1.flags.n <==> Negative(r))
  {
    hide LimbStep, Operand;
    LimbIs(s, op, rd, rs, a, b);
  }

  // ---- Chains ----

  function Operands(op: nat, b: seq<u32>): (x: seq<u32>)
    ensures |x| == |b|
  {
    seq(|b|, i requires 0 <= i < |b| => Operand(op, b[i]))
  }

  /** Unsigned: limbs and final carry together are the exact sum of the operands and the carry in. */
  lemma {:induction false} ChainAdds(s: State, op: nat, rd: nat, rs: nat, a: seq<u32>, b: seq<u32>)
    requires rd < 8 && rs < 8 && rd != rs && (op == ADC || op == SBC) && |a| == |b|
    ensures var (s1, r) := Chain(s, op, rd, rs, a, b);
            && |r| == |a|
            && Value(r) + (if s1.flags.c then Range(|a|) else 0) == Value(a) + Value(Operands(op, b)) + CarryValue(s.flags)
    decreases |a|
  {
    hide LimbStep;
    if a != [] {
      var s1 := LimbStep(s, op, rd, rs, a[0], b[0]);
      OneLimb(s, op, rd, rs, a[0], b[0]);
      ChainAdds(s1, op, rd, rs, a[1..], b[1..]);
      var r := Chain(s, op, rd, rs, a, b).1;
      assert r[1..] == Chain(s1, op, rd, rs, a[1..], b[1..]).1;
      assert Operands(op, b)[1..] == Operands(op, b[1..]);
    }
  }

  /** Signed: the result misses the exact sum by nothing, or, when V is set, by 2^(32 n) in the direction N shows. */
  lemma {:induction false} ChainAddsSigned(s: State, op: nat, rd: nat, rs: nat, a: seq<u32>, b: seq<u32>)
    requires rd < 8 && rs < 8 && rd != rs && (op == ADC || op == SBC) && |a| == |b| > 0
    ensures var (s1, r) := Chain(s, op, rd, rs, a, b);
            && |r| == |a| && (s1.flags.n <==> Negative(r[|r| - 1]))
            && SignedValue(a) + SignedValue(Operands(op, b)) + CarryValue(s.flags)
               == SignedValue(r) + Excess(s1.flags, Range(|a|))
    decreases |a|
  {
    hide LimbStep, Chain, SignedValue, Operand, Signed;
    var s1 := LimbStep(s, op, rd, rs, a[0], b[0]);
    ChainFirst(s, op, rd, rs, a, b);
    assert Operands(op, b)[1..] == Operands(op, b[1..]);
    SignedFirst(a);
    SignedFirst(Operands(op, b));
    SignedFirst(Chain(s, op, rd, rs, a, b).1);
    if |a| == 1 {
      OneSignedLimb(s, op, rd, rs, a[0], b[0]);
      assert Range(1) == TWO32 * Range(0);
    } else {
      OneLimb(s, op, rd, rs, a[0], b[0]);
      ChainAddsSigned(s1, op, rd, rs, a[1..], b[1..]);
    }
  }

  lemma ChainFirst(s: State, op: nat, rd: nat, rs: nat, a: seq<u32>, b: seq<u32>)
    requires rd < 8 && rs < 8 && op < 16 && |a| == |b| > 0
    ensures var s1 := LimbStep(s, op, rd, rs, a[0], b[0]);
            var (s2, rest) := Chain(s1, op, rd, rs, a[1..], b[1..]);
            var (s3, r) := Chain(s, op, rd, rs, a, b);
            && s3 == s2 && r != [] && r[0] == s1.regs[rd] && r[1..] == rest
            && (|a| == 1 ==> s2 == s1 && rest == [])
  {
    hide LimbStep;
  }

  lemma SignedFirst(l: seq<u32>)
    requires l != []
    ensures SignedValue(l) == if |l| == 1 then Signed(l[0]) else l[0] + TWO32 * SignedValue(l[1..])
  {
  }

  lemma {:induction false} ComplementValue(b: seq<u32>)
    ensures Value(Operands(SBC, b)) == Range(|b|) - 1 - Value(b)
  {
    if b != [] {
      assert Operands(SBC, b)[1..] == Operands(SBC, b[1..]);
      ComplementValue(b[1..]);
    }
  }

  lemma {:induction false} ComplementSignedValue(b: seq<u32>)
    requires b != []
    ensures SignedValue(Operands(SBC, b)) == -1 - SignedValue(b)
  {
    if |b| > 1 {
      assert Operands(SBC, b)[1..] == Operands(SBC, b[1..]);
      ComplementSignedValue(b[1..]);
    }
  }

  predicate InSignedRange(x: int, n: nat) { 0 - Range(n) <= 2 * x < Range(n) }

  /** A chain of ADC from a clear carry computes the 32n-bit sum: C is the unsigned carry out, V the signed
      overflow. */
  lemma AddChain(s: State, rd: nat, rs: nat, a: seq<u32>, b: seq<u32>)
    requires rd < 8 && rs < 8 && rd != rs && |a| == |b| > 0 && !s.flags.c
    ensures var (s1, r) := Chain(s, ADC, rd, rs, a, b); var n := |a|;
            && |r| == n
            && (s1.flags.c <==> Value(a) + Value(b) >= Range(n))
            && Value(r) == Value(a) + Value(b) - (if s1.flags.c then Range(n) else 0)
            && (s1.flags.v <==> !InSignedRange(SignedValue(a) + SignedValue(b), n))
            && (!s1.flags.v ==> SignedValue(r) == SignedValue(a) + SignedValue(b))
  {
    hide Chain, Value, SignedValue;
    var r := Chain(s, ADC, rd, rs, a, b).1;
    assert Operands(ADC, b) == b;
    ChainAdds(s, ADC, rd, rs, a, b);
    ChainAddsSigned(s, ADC, rd, rs, a, b);
    ValueBelowRange(r);
    SignedValueBounds(r);
  }

  /** A chain of SBC from a set carry computes the 32n-bit difference: C means that no borrow was needed, V is
      the signed overflow. Afterwards CS and CC decide the unsigned order of the operands, GE and LT the signed
      order. */
  lemma SubtractChain(s: State, rd: nat, rs: nat, a: seq<u32>, b: seq<u32>)
    requires rd < 8 && rs < 8 && rd != rs && |a| == |b| > 0 && s.flags.c
    ensures var (s1, r) := Chain(s, SBC, rd, rs, a, b); var n := |a|;
            && |r| == n
            && Value(r) == Value(a) - Value(b) + (if s1.flags.c then 0 else Range(n))
            && (s1.flags.v <==> !InSignedRange(SignedValue(a) - SignedValue(b), n))
            && (ConditionPasses(s1.flags, 0x2) <==> Value(a) >= Value(b))
            && (ConditionPasses(s1.flags, 0x3) <==> Value(a) < Value(b))
            && (ConditionPasses(s1.flags, 0xA) <==> SignedValue(a) >= SignedValue(b))
            && (ConditionPasses(s1.flags, 0xB) <==> SignedValue(a) < SignedValue(b))
  {
    hide Chain, Value, SignedValue;
    var r := Chain(s, SBC, rd, rs, a, b).1;
    ComplementValue(b);
    ComplementSignedValue(b);
    ChainAdds(s, SBC, rd, rs, a, b);
    ChainAddsSigned(s, SBC, rd, rs, a, b);
    ValueBelowRange(r);
    SignedValueBounds(r);
  }

  /** After CMP rd, rs all ten comparison conditions agree with the integers. */
  lemma CompareConditions(s: State, rd: nat, rs: nat)
    requires rd < 8 && rs < 8
    ensures var f, a, b := Execute(s, AluCode(CMP, rd, rs)).flags, s.regs[rd], s.regs[rs];
            && (ConditionPasses(f, 0x0) <==> a == b)
            && (ConditionPasses(f, 0x1) <==> a != b)
            && (ConditionPasses(f, 0x2) <==> a >= b)
            && (ConditionPasses(f, 0x3) <==> a < b)
            && (ConditionPasses(f, 0x8) <==> a > b)
            && (ConditionPasses(f, 0x9) <==> a <= b)
            && (ConditionPasses(f, 0xA) <==> Signed(a) >= Signed(b))
            && (ConditionPasses(f, 0xB) <==> Signed(a) < Signed(b))
            && (ConditionPasses(f, 0xC) <==> Signed(a) > Signed(b))
            && (ConditionPasses(f, 0xD) <==> Signed(a) <= Signed(b))
  {
    hide Execute, ExecAlu, ExecAluShift, AluCode;
    DecodeAlu(s, CMP, rd, rs);
  }
}
