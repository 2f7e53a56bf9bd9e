/** The keys of ordered checkpoint rows (checkpoint.go, position): decimal, padded to eight digits,
    so that keys sort as numbers, up to the first number of nine. */
module Positions {
  import opened SessionRows
  import opened Numerals
  import opened Sequences

  const LIMIT: nat := 100_000_000

  function Zeros(n: nat): string {
    if n == 0 then "" else "0" + Zeros(n - 1)
  }

  /** A number padded with zeros to at least eight characters. */
  function Position(n: nat): string {
    var d := Decimal(n);
    (if |d| < 8 then Zeros(8 - |d|) else "") + d
  }

  function Ten(w: nat): (p: nat)
    ensures p > 0
  {
    if w == 0 then 1 else 10 * Ten(w - 1)
  }

  /** The lowest w digits. */
  function Fixed(n: nat, w: nat): (s: string)
    ensures |s| == w
  {
    if w == 0 then "" else Fixed(n / 10, w - 1) + ["0123456789"[n % 10]]
  }

  lemma {:induction false} LessLast(a: string, b: string, x: char, y: char)
    requires |a| == |b|
    ensures Less(a + [x], b + [y]) <==> Less(a, b) || (a == b && x < y)
  {
    if a == "" {
      assert a + [x] == [x] && b + [y] == [y];
    } else {
      assert (a + [x])[1..] == a[1..] + [x] && (b + [y])[1..] == b[1..] + [y];
      assert a == [a[0]] + a[1..] && b == [b[0]] + b[1..];
      LessLast(a[1..], b[1..], x, y);
    }
  }

  function Digit(n: nat): char {
    "0123456789"[n % 10]
  }

  lemma FixedUnfold(n: nat, w: nat)
    requires w > 0
    ensures Fixed(n, w) == Fixed(n / 10, w - 1) + [Digit(n)]
  {
  }

  lemma DigitOrder(i: nat, j: nat)
    ensures Digit(i) < Digit(j) <==> i % 10 < j % 10
    ensures Digit(i) == Digit(j) ==> i % 10 == j % 10
  {
  }

  lemma LastSame(a: string, x: char, b: string, y: char)
    requires a + [x] == b + [y]
    ensures a == b && x == y
  {
    assert a == (a + [x])[..|a + [x]| - 1] == b && (a + [x])[|a + [x]| - 1] == x;
  }

  lemma {:induction false} FixedOrder(i: nat, j: nat, w: nat)
    requires i < Ten(w) && j < Ten(w)
    ensures Less(Fixed(i, w), Fixed(j, w)) <==> i < j
    ensures Fixed(i, w) == Fixed(j, w) ==> i == j
  {
    hide Less, Fixed, Digit;
    if w == 0 {
      FixedNone(i, j);
    } else {
      var a, b := Fixed(i / 10, w - 1), Fixed(j / 10, w - 1);
      FixedOrder(i / 10, j / 10, w - 1);
      FixedUnfold(i, w);
      FixedUnfold(j, w);
      LessLast(a, b, Digit(i), Digit(j));
      DigitOrder(i, j);
      if Fixed(i, w) == Fixed(j, w) { LastSame(a, Digit(i), b, Digit(j)); }
    }
  }

  lemma FixedNone(i: nat, j: nat)
    ensures !Less(Fixed(i, 0), Fixed(j, 0))
  {
  }

  lemma {:induction false} FixedZeros(w: nat)
    ensures Fixed(0, w) == Zeros(w)
  {
    if w > 0 {
      FixedZeros(w - 1);
      ZerosLast(w - 1);
    }
  }

  lemma {:induction false} ZerosLast(w: nat)
    ensures Zeros(w) + "0" == Zeros(w + 1)
  {
    if w > 0 {
      ZerosLast(w - 1);
      assert ("0" + Zeros(w - 1)) + "0" == "0" + (Zeros(w - 1) + "0");
    }
  }

  lemma TenStep(w: nat)
    requires w > 0
    ensures Ten(w) == 10 * Ten(w - 1)
  {
  }

  lemma TenOne(w: nat)
    requires w > 0
    ensures w == 1 ==> Ten(w) == 10
  {
    assert Ten(1) == 10 * Ten(0);
  }

  lemma {:induction false} PaddedIsFixed(n: nat, w: nat)
    requires n < Ten(w) && w > 0
    ensures |Decimal(n)| <= w && Zeros(w - |Decimal(n)|) + Decimal(n) == Fixed(n, w)
  {
    hide Fixed, Ten;
    FixedUnfold(n, w);
    if n < 10 {
      FixedZeros(w - 1);
      assert n / 10 == 0;
    } else {
      TenOne(w);
      TenStep(w);
      PaddedIsFixed(n / 10, w - 1);
      Assoc(Zeros(w - |Decimal(n)|), Decimal(n / 10), [Digit(n)]);
    }
  }

  lemma TenEight()
    ensures Ten(8) == LIMIT
  {
    assert Ten(2) == 100 && Ten(4) == 10_000 && Ten(6) == 1_000_000;
  }

  lemma PositionIsFixed(n: nat)
    requires n < LIMIT
    ensures n < Ten(8) && Position(n) == Fixed(n, 8)
  {
    hide Fixed, Decimal;
    TenEight();
    PaddedIsFixed(n, 8);
    assert |Decimal(n)| == 8 ==> Zeros(8 - |Decimal(n)|) + Decimal(n) == Decimal(n);
  }

  /** Below one hundred million, keys sort exactly as their numbers. */
  lemma PositionOrder(i: nat, j: nat)
    requires i < LIMIT && j < LIMIT
    ensures Less(Position(i), Position(j)) <==> i < j
  {
    hide Position, Fixed, Less;
    PositionIsFixed(i);
    PositionIsFixed(j);
    FixedOrder(i, j, 8);
  }

  lemma DecimalTen(k: nat)
    requires k > 0
    ensures Decimal(10 * k) == Decimal(k) + "0"
  {
  }

  lemma FirstOfNine()
    ensures Position(LIMIT) == "100000000" && Position(10_000_001) == "10000001"
  {
    DecimalTen(1);
    DecimalTen(10);
    DecimalTen(100);
    DecimalTen(1_000);
    DecimalTen(10_000);
    DecimalTen(100_000);
    DecimalTen(1_000_000);
    DecimalTen(10_000_000);
    assert Decimal(10_000_001) == Decimal(1_000_000) + "1";
  }

  /** The keys of n rows sort as their positions. */
  ghost predicate KeysInOrder(n: nat) {
    forall i, j :: 0 <= i < j < n ==> Less(Position(i), Position(j))
  }

  /** They do if and only if there are at most one hundred million. */
  lemma KeysInOrderExactly(n: nat)
    ensures KeysInOrder(n) <==> n <= LIMIT
  {
    if n <= LIMIT {
      forall i, j | 0 <= i < j < n ensures Less(Position(i), Position(j)) { PositionOrder(i, j); }
    } else {
      FirstOfNine();
      var a, b := "10000001", "100000000";
      LessPrefix("1000000", "1", "00");
      assert "1000000" + "1" == a && "1000000" + "00" == b;
      assert !Less(Position(10_000_001), Position(LIMIT));
    }
  }

  lemma {:induction false} LessPrefix(p: string, a: string, b: string)
    ensures Less(p + a, p + b) <==> Less(a, b)
  {
    if p == "" {
      assert p + a == a && p + b == b;
    } else {
      assert (p + a)[1..] == p[1..] + a && (p + b)[1..] == p[1..] + b;
      LessPrefix(p[1..], a, b);
    }
  }
}
