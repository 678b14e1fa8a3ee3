/** Positional number representation, most significant digit first, in any base.

    Both directions of Base58btc are the same operation, `Transcode`, with the bases swapped:
    the leading zero digits are carried over one for one, and the rest is rewritten as the
    shortest digit string of the same number.  `TranscodeInverse` is the reason the codec is a
    bijection. */
module Positional {

  function Pow(b: nat, e: nat): nat {
    if e == 0 then 1 else b * Pow(b, e - 1)
  }

  ghost predicate Digits(base: nat, ds: seq<int>) {
    forall i :: 0 <= i < |ds| ==> 0 <= ds[i] < base
  }

  function Eval(base: nat, ds: seq<int>): int {
    if ds == [] then 0 else Eval(base, ds[..|ds| - 1]) * base + ds[|ds| - 1]
  }

  /** The shortest digit string of n; the empty string for zero. */
  function Repr(base: nat, n: nat): (ds: seq<int>)
    requires 2 <= base
    ensures Digits(base, ds)
    decreases n
  {
    if n == 0 then [] else
      DivSmaller(n, base);
      Repr(base, n / base) + [n % base]
  }

  /** How many leading digits are zero. */
  function Lead(ds: seq<int>): (n: nat)
    ensures n <= |ds|
    ensures forall i :: 0 <= i < n ==> ds[i] == 0
    ensures n < |ds| ==> ds[n] != 0
  {
    if ds == [] || ds[0] != 0 then 0 else 1 + Lead(ds[1..])
  }

  function Zeros(n: nat): (ds: seq<int>)
    ensures |ds| == n
    ensures forall i :: 0 <= i < n ==> ds[i] == 0
  {
    seq(n, _ => 0)
  }

  function Transcode(source: nat, target: nat, ds: seq<int>): seq<int>
    requires 2 <= target
    requires Digits(source, ds)
  {
    EvalNonNegative(source, ds);
    Zeros(Lead(ds)) + Repr(target, Eval(source, ds))
  }

  // ----- arithmetic

  lemma DivSmaller(n: nat, base: nat)
    requires 2 <= base && 0 < n
    ensures 0 <= n / base < n
    ensures n == (n / base) * base + n % base
  {
  }

  lemma {:induction false} PowPositive(b: nat, e: nat)
    requires 0 < b
    ensures 0 < Pow(b, e)
  {
    if e != 0 {
      PowPositive(b, e - 1);
    }
  }

  lemma MulMonotonic(a: nat, b: nat, c: nat, d: nat)
    requires a <= b && c <= d
    ensures a * c <= b * d
  {
    assert a * c <= b * c;
    assert b * c <= b * d;
  }

  lemma {:induction false} PowAdd(b: nat, m: nat, n: nat)
    ensures Pow(b, m + n) == Pow(b, m) * Pow(b, n)
  {
    if m != 0 {
      PowAdd(b, m - 1, n);
      assert b * (Pow(b, m - 1) * Pow(b, n)) == (b * Pow(b, m - 1)) * Pow(b, n);
    }
  }

  lemma {:induction false} PowMultiply(b: nat, m: nat, n: nat)
    ensures Pow(b, m * n) == Pow(Pow(b, m), n)
  {
    if n != 0 {
      PowMultiply(b, m, n - 1);
      assert m * n == m + m * (n - 1);
      PowAdd(b, m, m * (n - 1));
    }
  }

  lemma {:induction false} PowMonotonicBase(a: nat, b: nat, e: nat)
    requires a <= b
    ensures Pow(a, e) <= Pow(b, e)
  {
    if e != 0 {
      PowMonotonicBase(a, b, e - 1);
      MulMonotonic(a, b, Pow(a, e - 1), Pow(b, e - 1));
    }
  }

  lemma {:induction false} PowMonotonicExponent(b: nat, d: nat, e: nat)
    requires 0 < b && d <= e
    ensures Pow(b, d) <= Pow(b, e)
  {
    PowAdd(b, d, e - d);
    PowPositive(b, e - d);
    MulMonotonic(Pow(b, d), Pow(b, d), 1, Pow(b, e - d));
  }

  /** Taking a positive power preserves strict order, so roots can be compared by their powers. */
  lemma {:induction false} PowStrict(a: nat, b: nat, e: nat)
    requires a < b && 0 < e
    ensures Pow(a, e) < Pow(b, e)
  {
    if e == 1 {
      assert Pow(a, 1) == a * Pow(a, 0) == a;
      assert Pow(b, 1) == b * Pow(b, 0) == b;
    } else {
      PowStrict(a, b, e - 1);
      var p, q := Pow(a, e - 1), Pow(b, e - 1);
      assert a * p <= a * q;
      assert a * q < b * q;
    }
  }

  // ----- evaluating digit strings

  lemma {:induction false} EvalNonNegative(base: nat, ds: seq<int>)
    requires Digits(base, ds)
    ensures 0 <= Eval(base, ds)
  {
    if ds != [] {
      EvalNonNegative(base, ds[..|ds| - 1]);
    }
  }

  lemma {:induction false} EvalBound(base: nat, ds: seq<int>)
    requires Digits(base, ds)
    ensures Eval(base, ds) < Pow(base, |ds|)
  {
    if ds != [] {
      var init := ds[..|ds| - 1];
      EvalBound(base, init);
      MulMonotonic(Eval(base, init) + 1, Pow(base, |init|), base, base) by {
        EvalNonNegative(base, init);
      }
    }
  }

  lemma {:induction false} EvalCons(base: nat, d: int, ds: seq<int>)
    ensures Eval(base, [d] + ds) == d * Pow(base, |ds|) + Eval(base, ds)
  {
    if ds == [] {
      assert [d] + ds == [d];
      assert [d][..0] == [];
      assert Eval(base, [d]) == Eval(base, []) * base + d;
    } else {
      var init, last := ds[..|ds| - 1], ds[|ds| - 1];
      assert ([d] + ds)[..|ds|] == [d] + init;
      EvalCons(base, d, init);
      assert (d * Pow(base, |init|) + Eval(base, init)) * base
          == d * (base * Pow(base, |init|)) + Eval(base, init) * base;
    }
  }

  lemma {:induction false} EvalZeros(base: nat, n: nat, ds: seq<int>)
    ensures Eval(base, Zeros(n) + ds) == Eval(base, ds)
  {
    if n == 0 {
      assert Zeros(0) + ds == ds;
    } else {
      assert Zeros(n) + ds == [0] + (Zeros(n - 1) + ds);
      EvalCons(base, 0, Zeros(n - 1) + ds);
      EvalZeros(base, n - 1, ds);
    }
  }

  // ----- shortest digit strings

  lemma {:induction false} EvalRepr(base: nat, n: nat)
    requires 2 <= base
    ensures Eval(base, Repr(base, n)) == n
    decreases n
  {
    if n != 0 {
      DivSmaller(n, base);
      EvalRepr(base, n / base);
      assert Repr(base, n)[..|Repr(base, n)| - 1] == Repr(base, n / base);
    }
  }

  lemma {:induction false} ReprNoLeadingZero(base: nat, n: nat)
    requires 2 <= base
    ensures Lead(Repr(base, n)) == 0
    ensures Repr(base, n) == [] <==> n == 0
    decreases n
  {
    if n != 0 {
      DivSmaller(n, base);
      ReprNoLeadingZero(base, n / base);
      if n / base == 0 {
        assert Repr(base, n) == [n % base];
      } else {
        assert Repr(base, n)[0] == Repr(base, n / base)[0];
      }
    }
  }

  /** A digit string with no leading zero is the shortest string of its number. */
  lemma {:induction false} ReprUnique(base: nat, ds: seq<int>)
    requires 2 <= base && Digits(base, ds)
    requires ds != [] ==> ds[0] != 0
    ensures 0 <= Eval(base, ds)
    ensures Repr(base, Eval(base, ds)) == ds
  {
    EvalNonNegative(base, ds);
    if ds != [] {
      var init, last := ds[..|ds| - 1], ds[|ds| - 1];
      ReprUnique(base, init);
      var q, n := Eval(base, init), Eval(base, ds);
      if init == [] {
        assert last == ds[0];
      } else {
        assert q != 0;
      }
      assert n > 0 by { if q > 0 { MulMonotonic(1, q, base, base); } }
      QuotientRemainder(q, last, base);
      assert ds == init + [last];
    }
  }

  lemma QuotientRemainder(q: nat, r: nat, base: nat)
    requires r < base
    ensures (q * base + r) / base == q
    ensures (q * base + r) % base == r
  {
    var n := q * base + r;
    var d, m := n / base, n % base;
    assert n == d * base + m;
    if q < d {
      MulMonotonic(q + 1, d, base, base);
    } else if d < q {
      MulMonotonic(d + 1, q, base, base);
    }
  }

  lemma DropLastDigit(q: nat, power: nat, r: nat, base: nat)
    requires 0 < base && r < base * power
    ensures r / base < power
    ensures q * (base * power) + r == (q * power + r / base) * base + r % base
  {
    assert r == r / base * base + r % base;
    if power <= r / base {
      MulMonotonic(power, r / base, base, base);
    }
    assert q * (base * power) == (q * power) * base;
    assert (q * power + r / base) * base == (q * power) * base + r / base * base;
  }

  lemma ReprDigit(base: nat, n: nat, d: nat)
    requires 2 <= base && 0 < n && d < base
    ensures Repr(base, n * base + d) == Repr(base, n) + [d]
  {
    QuotientRemainder(n, d, base);
    MulMonotonic(1, n, base, base);
  }

  lemma LongerPrefix(head: seq<int>, ds: seq<int>, d: int)
    requires |head| <= |ds| && ds[..|head|] == head
    ensures (ds + [d])[..|head|] == head
  {
  }

  lemma HeadPositive(base: nat, q: nat, e: nat, r: nat)
    requires 0 < base && 0 < q
    ensures 0 < q * Pow(base, e) + r
  {
    PowPositive(base, e);
    MulMonotonic(1, q, Pow(base, e), Pow(base, e));
  }

  lemma ReprHeadStep(base: nat, q: nat, init: nat, d: nat, n: nat)
    requires 2 <= base && d < base && 0 < init && n == init * base + d
    requires |Repr(base, q)| <= |Repr(base, init)| && Repr(base, init)[..|Repr(base, q)|] == Repr(base, q)
    ensures |Repr(base, n)| == |Repr(base, init)| + 1 && Repr(base, n)[..|Repr(base, q)|] == Repr(base, q)
  {
    ReprDigit(base, init, d);
    LongerPrefix(Repr(base, q), Repr(base, init), d);
  }

  /** A number made of a head and e more digits starts with the digits of the head. */
  lemma {:induction false} ReprHead(base: nat, q: nat, e: nat, r: nat, n: nat)
    requires 2 <= base && 0 < q && r < Pow(base, e) && n == q * Pow(base, e) + r
    ensures |Repr(base, n)| == |Repr(base, q)| + e && Repr(base, n)[..|Repr(base, q)|] == Repr(base, q)
    decreases e
  {
    if e == 0 {
      assert n == q;
    } else {
      var power := Pow(base, e - 1);
      var init := q * power + r / base;
      DropLastDigit(q, power, r, base);
      HeadPositive(base, q, e - 1, r / base);
      ReprHead(base, q, e - 1, r / base, init);
      ReprHeadStep(base, q, init, r % base, n);
    }
  }

  // ----- transcoding

  /** Lead is the only count with its two properties. */
  lemma {:induction false} LeadIs(ds: seq<int>, n: nat)
    requires n <= |ds| && forall i :: 0 <= i < n ==> ds[i] == 0
    requires n < |ds| ==> ds[n] != 0
    ensures Lead(ds) == n
  {
    if n > 0 {
      LeadIs(ds[1..], n - 1);
    }
  }

  lemma {:induction false} LeadOfZeros(n: nat, ds: seq<int>)
    requires Lead(ds) == 0
    ensures Lead(Zeros(n) + ds) == n
  {
    if n == 0 {
      assert Zeros(n) + ds == ds;
    } else {
      assert (Zeros(n) + ds)[1..] == Zeros(n - 1) + ds;
      LeadOfZeros(n - 1, ds);
    }
  }

  /** Every digit string with as many leading zeros as `ds` and the same value as `ds`, and with
      nothing else, is the transcoding of `ds`. */
  lemma TranscodeUnique(source: nat, target: nat, ds: seq<int>, core: seq<int>)
    requires 2 <= target && Digits(source, ds) && Digits(target, core)
    requires core != [] ==> core[0] != 0
    requires Eval(target, core) == Eval(source, ds)
    ensures Transcode(source, target, ds) == Zeros(Lead(ds)) + core
  {
    ReprUnique(target, core);
  }

  lemma TranscodeShape(source: nat, target: nat, ds: seq<int>)
    requires 2 <= target && Digits(source, ds)
    ensures Digits(target, Transcode(source, target, ds))
    ensures Lead(Transcode(source, target, ds)) == Lead(ds)
    ensures Eval(target, Transcode(source, target, ds)) == Eval(source, ds)
  {
    EvalNonNegative(source, ds);
    var n := Eval(source, ds);
    ReprNoLeadingZero(target, n);
    LeadOfZeros(Lead(ds), Repr(target, n));
    EvalZeros(target, Lead(ds), Repr(target, n));
    EvalRepr(target, n);
  }

  lemma TranscodeInverse(source: nat, target: nat, ds: seq<int>)
    requires 2 <= source && 2 <= target && Digits(source, ds)
    ensures Digits(target, Transcode(source, target, ds))
    ensures Transcode(target, source, Transcode(source, target, ds)) == ds
  {
    TranscodeShape(source, target, ds);
    var core := ds[Lead(ds)..];
    assert ds == Zeros(Lead(ds)) + core;
    EvalZeros(source, Lead(ds), core);
    ReprUnique(source, core);
  }
}
