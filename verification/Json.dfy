/** JSON values as the program compares them: object members carry no order. */
module Json {
  import opened Prelude

  /** A number is an integer or a text with a point or an exponent. */
  datatype Number = Integer(i: int) | Decimal(text: string)

  datatype Json =
    | Null
    | Bool(b: bool)
    | Num(n: Number)
    | Str(s: string)
    | Arr(items: seq<Json>)
    | Obj(members: map<string, Json>)

  predicate IsNumberChar(c: char)
  {
    '0' <= c <= '9' || c == '-' || c == '+' || c == '.' || c == 'e' || c == 'E'
  }

  predicate IsFraction(c: char)
  {
    c == '.' || c == 'e' || c == 'E'
  }

  predicate IsDigit(c: char)
  {
    '0' <= c <= '9'
  }

  // ---- The number grammar of section 6 of RFC 8259: [ minus ] int [ frac ] [ exp ] ----

  function DigitRun(t: string): (n: nat)
    ensures n <= |t| && forall i :: 0 <= i < n ==> IsDigit(t[i])
  {
    if t != [] && IsDigit(t[0]) then 1 + DigitRun(t[1..]) else 0
  }

  function SkipMinus(t: string): string
  {
    if t != [] && t[0] == '-' then t[1..] else t
  }

  /** What follows an integer part: one zero, or digits that do not start with zero. */
  function SkipInt(t: string): Option<string>
  {
    if t == [] || !IsDigit(t[0]) then None
    else if t[0] == '0' then Some(t[1..])
    else Some(t[DigitRun(t)..])
  }

  function SkipDigits(t: string): Option<string>
  {
    if DigitRun(t) > 0 then Some(t[DigitRun(t)..]) else None
  }

  function SkipFrac(t: string): Option<string>
  {
    if t != [] && t[0] == '.' then SkipDigits(t[1..]) else Some(t)
  }

  function SkipSign(t: string): string
  {
    if t != [] && (t[0] == '+' || t[0] == '-') then t[1..] else t
  }

  function SkipExp(t: string): Option<string>
  {
    if t != [] && (t[0] == 'e' || t[0] == 'E') then SkipDigits(SkipSign(t[1..])) else Some(t)
  }

  predicate IsNumberText(t: string)
  {
    match SkipInt(SkipMinus(t))
    case None => false
    case Some(a) => (match SkipFrac(a) case None => false case Some(b) => SkipExp(b) == Some(""))
  }

  /** A number as the program prints it; a decimal is written with a fraction or an exponent. */
  predicate ValidNumber(n: Number)
  {
    n.Decimal? ==> IsNumberText(n.text) && HasFraction(n.text)
  }

  /** `rest` is what is left of `t` after some number characters. */
  predicate Leaves(t: string, rest: string)
  {
    |rest| <= |t| && t[|t| - |rest|..] == rest && forall i :: 0 <= i < |t| - |rest| ==> IsNumberChar(t[i])
  }

  lemma {:induction false} LeavesThen(t: string, a: string, b: string)
    requires Leaves(t, a) && Leaves(a, b)
    ensures Leaves(t, b)
  {
    assert t[|t| - |b|..] == a[|a| - |b|..];
    forall i | 0 <= i < |t| - |b| ensures IsNumberChar(t[i]) {
      if i >= |t| - |a| { assert t[i] == a[i - (|t| - |a|)]; }
    }
  }

  lemma {:induction false} SkipsLeave(t: string)
    ensures Leaves(t, SkipMinus(t)) && Leaves(t, SkipSign(t))
    ensures SkipInt(t).Some? ==> Leaves(t, SkipInt(t).value) && |SkipInt(t).value| < |t|
    ensures SkipDigits(t).Some? ==> Leaves(t, SkipDigits(t).value)
  {
  }

  lemma {:induction false} FracLeaves(t: string)
    requires SkipFrac(t).Some?
    ensures Leaves(t, SkipFrac(t).value)
  {
    if t != [] && t[0] == '.' {
      SkipsLeave(t[1..]);
      TailLeaves(t);
      LeavesThen(t, t[1..], SkipFrac(t).value);
    }
  }

  lemma {:induction false} TailLeaves(t: string)
    requires t != [] && IsNumberChar(t[0])
    ensures Leaves(t, t[1..])
  {
  }

  lemma {:induction false} SignedLeaves(t: string)
    requires SkipDigits(SkipSign(t)).Some?
    ensures Leaves(t, SkipDigits(SkipSign(t)).value)
  {
    SkipsLeave(t);
    SkipsLeave(SkipSign(t));
    LeavesThen(t, SkipSign(t), SkipDigits(SkipSign(t)).value);
  }

  lemma {:induction false} ExpLeaves(t: string)
    requires SkipExp(t).Some?
    ensures Leaves(t, SkipExp(t).value)
  {
    if t != [] && (t[0] == 'e' || t[0] == 'E') {
      SignedLeaves(t[1..]);
      TailLeaves(t);
      LeavesThen(t, t[1..], SkipExp(t).value);
    }
  }

  /** A number text is not empty and holds number characters only. */
  lemma {:induction false} NumberTextChars(t: string)
    requires IsNumberText(t)
    ensures t != [] && forall i :: 0 <= i < |t| ==> IsNumberChar(t[i])
  {
    var u := SkipMinus(t);
    var a := SkipInt(u).value;
    var b := SkipFrac(a).value;
    SkipsLeave(t);
    SkipsLeave(u);
    FracLeaves(a);
    ExpLeaves(b);
    LeavesThen(a, b, "");
    LeavesThen(u, a, "");
    LeavesThen(t, u, "");
  }

  function Digit(d: nat): char
    requires d < 10
  {
    "0123456789"[d]
  }

  function NatText(n: nat): (t: string)
    ensures |t| > 0
    ensures forall i :: 0 <= i < |t| ==> '0' <= t[i] <= '9'
  {
    if n < 10 then [Digit(n)] else NatText(n / 10) + [Digit(n % 10)]
  }

  function NumberText(n: Number): string
  {
    match n
    case Integer(i) => if i < 0 then "-" + NatText(-i) else NatText(i)
    case Decimal(text) => text
  }

  function DigitsValue(t: string): nat
    requires forall i :: 0 <= i < |t| ==> '0' <= t[i] <= '9'
  {
    if t == [] then 0 else 10 * DigitsValue(t[..|t| - 1]) + (t[|t| - 1] as int - '0' as int)
  }

  lemma {:induction false} DigitsOfNatText(n: nat)
    ensures DigitsValue(NatText(n)) == n
  {
    if n >= 10 {
      DigitsOfNatText(n / 10);
      assert NatText(n)[..|NatText(n)| - 1] == NatText(n / 10);
    } else {
      assert NatText(n)[..0] == [];
    }
  }

  lemma {:induction false} NatTextInjective(m: nat, n: nat)
    requires NatText(m) == NatText(n)
    ensures m == n
  {
    DigitsOfNatText(m);
    DigitsOfNatText(n);
  }

  lemma {:induction false} RunOfDigits(t: string)
    requires forall i :: 0 <= i < |t| ==> IsDigit(t[i])
    ensures DigitRun(t) == |t|
  {
    if t != [] { RunOfDigits(t[1..]); }
  }

  lemma {:induction false} NatTextLead(n: nat)
    ensures if n == 0 then NatText(n) == "0" else NatText(n)[0] != '0'
  {
    if n >= 10 { NatTextLead(n / 10); }
  }

  /** A printed natural number is an integer part without leading zeros. */
  lemma {:induction false} NatTextIsInt(n: nat)
    ensures SkipInt(NatText(n)) == Some("") && NatText(n)[0] != '-'
  {
    NatTextLead(n);
    RunOfDigits(NatText(n));
    assert NatText(n)[|NatText(n)|..] == "" && "0"[1..] == "";
  }

  lemma {:induction false} WholeIsNumber(t: string)
    requires SkipInt(SkipMinus(t)) == Some("")
    ensures IsNumberText(t)
  {
  }

  lemma {:induction false} SkipsMinus(t: string)
    requires t != []
    ensures SkipMinus("-" + t) == t && (t[0] != '-' ==> SkipMinus(t) == t)
  {
    assert ("-" + t)[1..] == t;
  }

  /** Printed integers follow the number grammar. */
  lemma {:induction false} IntegerIsNumberText(i: int)
    ensures IsNumberText(NumberText(Integer(i)))
  {
    var n: nat := if i < 0 then -i else i;
    NatTextIsInt(n);
    SkipsMinus(NatText(n));
    WholeIsNumber(NumberText(Integer(i)));
  }

  lemma {:induction false} IntIsDigits(u: string)
    requires SkipInt(u) == Some("")
    ensures forall i :: 0 <= i < |u| ==> IsDigit(u[i])
  {
    if u[0] == '0' {
      assert |u| == |u[1..]| + 1;
    } else {
      assert |u[DigitRun(u)..]| == |u| - DigitRun(u);
    }
  }

  lemma {:induction false} NoFractionLeft(a: string)
    requires SkipFrac(a).Some? && SkipExp(SkipFrac(a).value) == Some("") && (a != [] ==> !IsFraction(a[0]))
    ensures a == ""
  {
  }

  predicate HasFraction(t: string)
  {
    exists i :: 0 <= i < |t| && IsFraction(t[i])
  }

  /** A number text without fraction and exponent is digits after an optional minus. */
  lemma {:induction false} PlainNumber(t: string)
    requires IsNumberText(t) && !HasFraction(t)
    ensures SkipInt(SkipMinus(t)) == Some("")
  {
    var u := SkipMinus(t);
    var a := SkipInt(u).value;
    SkipsLeave(t);
    SkipsLeave(u);
    LeavesThen(t, u, a);
    assert a != [] ==> t[|t| - |a|..][0] == t[|t| - |a|];
    NoFractionLeft(a);
  }
}
