/**
  Address translation: a physical address is a number in mixed radix, whose digits are the six memory fields
  in any order.  Translating and translating back are inverse to each other, for every order a mapping
  scheme can give.
*/
module AddressTranslation {
  import opened Arithmetic

  // Indices into the three arrays of a translation method.
  const MEM_ROW: nat := 0
  const MEM_COL: nat := 1
  const MEM_BANK: nat := 2
  const MEM_RANK: nat := 3
  const MEM_CHANNEL: nat := 4
  const MEM_SUBARRAY: nat := 5
  const MEM_UNKNOWN: nat := 100

  // ----- Powers of two -----

  function Pow2(n: nat): (p: nat)
    ensures p >= 1
  {
    if n == 0 then 1 else 2 * Pow2(n - 1)
  }

  lemma {:induction false} Pow2Add(a: nat, b: nat)
    ensures Pow2(a + b) == Pow2(a) * Pow2(b)
  {
    if a > 0 {
      Pow2Add(a - 1, b);
      assert 2 * (Pow2(a - 1) * Pow2(b)) == (2 * Pow2(a - 1)) * Pow2(b);
    }
  }

  lemma {:induction false} Pow2Monotone(a: nat, b: nat)
    ensures a <= b ==> Pow2(a) <= Pow2(b)
    ensures a < b ==> 2 * Pow2(a) <= Pow2(b)
  {
    if a < b {
      Pow2Monotone(a, b - 1);
    }
  }

  // r is the whole part of the logarithm of n.
  predicate IsLog(n: nat, r: nat) { Pow2(r) <= n < 2 * Pow2(r) }

  lemma LogUnique(n: nat, r: nat, s: nat)
    requires IsLog(n, r) && IsLog(n, s)
    ensures r == s
  {
    Pow2Monotone(r, s);
    Pow2Monotone(s, r);
  }

  // The logarithm rounded down, and 0 for what has none.
  function Mlog2(n: int): (r: nat)
    ensures n >= 1 ==> IsLog(n, r)
    ensures n < 2 ==> r == 0
  {
    if n < 2 then 0 else 1 + Mlog2(n / 2)
  }

  lemma LogMonotone(m: nat, n: nat)
    requires m <= n
    ensures Mlog2(m) <= Mlog2(n)
  {
    if m >= 1 {
      Pow2Monotone(Mlog2(n), Mlog2(m));
    }
  }

  // Shift until nothing is left, counting from -1.
  method ComputeMlog2(num: int) returns (retVal: int)
    ensures retVal == Mlog2(num)
    ensures num >= 1 ==> forall r: nat :: IsLog(num, r) <==> r == retVal
  {
    if num >= 1 {
      forall r: nat | IsLog(num, r) ensures r == Mlog2(num) {
        LogUnique(num, r, Mlog2(num));
      }
    }
    if num < 2 {
      return 0;
    }
    retVal := -1;
    var newNum := num;
    while newNum != 0
      invariant newNum >= 0 && retVal >= -1
      invariant newNum > 0 ==> retVal + 1 + Mlog2(newNum) == Mlog2(num)
      invariant newNum == 0 ==> retVal == Mlog2(num)
      decreases newNum
    {
      retVal := retVal + 1;
      newNum := newNum / 2;
    }
  }

  // ----- Orders -----

  predicate IsPermutation(order: seq<int>) {
    && |order| == 6 && (forall p :: 0 <= p < 6 ==> 0 <= order[p] < 6)
    && (forall p, q :: 0 <= p < q < 6 ==> order[p] != order[q])
  }

  // The field at position i, counted from the low end.
  function FieldAt(order: seq<int>, i: int): (p: nat)
    requires |order| == 6
    ensures p == MEM_UNKNOWN || (p < 6 && order[p] == i)
  {
    if order[MEM_ROW] == i then MEM_ROW
    else if order[MEM_COL] == i then MEM_COL
    else if order[MEM_BANK] == i then MEM_BANK
    else if order[MEM_RANK] == i then MEM_RANK
    else if order[MEM_CHANNEL] == i then MEM_CHANNEL
    else if order[MEM_SUBARRAY] == i then MEM_SUBARRAY
    else MEM_UNKNOWN
  }

  // The positions of the first n fields.
  function Image(order: seq<int>, n: nat): set<int>
    requires n <= |order|
  {
    if n == 0 then {} else Image(order, n - 1) + {order[n - 1]}
  }

  lemma {:induction false} ImageSize(order: seq<int>, n: nat)
    requires IsPermutation(order) && n <= 6
    ensures |Image(order, n)| == n
    ensures forall x :: x in Image(order, n) ==> 0 <= x < 6 && exists p :: 0 <= p < n && order[p] == x
  {
    if n > 0 {
      ImageSize(order, n - 1);
      assert order[n - 1] !in Image(order, n - 1);
    }
  }

  lemma AllSix(s: set<int>, i: nat)
    requires |s| == 6 && i < 6 && forall x :: x in s ==> 0 <= x < 6
    ensures i in s
  {
    if i !in s {
      var others: set<int> := {0, 1, 2, 3, 4, 5} - {i};
      forall x | x in s ensures x in others {
        assert 0 <= x < 6 && x != i;
      }
      SubsetSize(s, others);
    }
  }

  // Six different positions below six leave none out.
  lemma EveryPosition(order: seq<int>, i: nat)
    requires IsPermutation(order) && i < 6
    ensures FieldAt(order, i) < 6
  {
    ImageSize(order, 6);
    hide IsPermutation, Image;
    AllSix(Image(order, 6), i);
    var p :| 0 <= p < 6 && order[p] == i;
    assert p == 0 || p == 1 || p == 2 || p == 3 || p == 4 || p == 5;
  }

  // ----- Mixed radix -----

  datatype Layout = Layout(order: seq<int>, widths: seq<nat>)

  predicate GoodLayout(l: Layout) { IsPermutation(l.order) && |l.widths| == 6 }

  function Base(l: Layout, i: nat): (b: nat)
    requires GoodLayout(l) && i < 6
    ensures b >= 1
  {
    EveryPosition(l.order, i);
    Pow2(l.widths[FieldAt(l.order, i)])
  }

  // The field at position i is the only one there.
  lemma Position(l: Layout, i: nat)
    requires GoodLayout(l) && i < 6
    ensures var q := FieldAt(l.order, i);
      && q < 6 && l.order[q] == i && Base(l, i) == Pow2(l.widths[q])
      && forall p :: 0 <= p < 6 ==> (l.order[p] == i <==> p == q)
  {
    EveryPosition(l.order, i);
    hide FieldAt;
    var q := FieldAt(l.order, i);
    assert forall p :: 0 <= p < 6 && p != q ==> l.order[p] != l.order[q];
  }

  // How many values positions i and up can take.
  function Span(l: Layout, i: nat): (n: nat)
    requires GoodLayout(l) && i <= 6
    ensures n >= 1
    decreases 6 - i
  {
    if i == 6 then 1 else Times(Base(l, i), Span(l, i + 1))
  }

  function Quot(n: nat, b: nat): nat
    requires b >= 1
  {
    n / b
  }

  function Rem(n: nat, b: nat): (r: nat)
    requires b >= 1
    ensures r < b
  {
    n % b
  }

  lemma Divided(n: nat, b: nat)
    requires b >= 1
    ensures Rem(n, b) + Times(b, Quot(n, b)) == n
  {
  }

  function Times(a: nat, b: nat): (c: nat)
    ensures a >= 1 && b >= 1 ==> c >= 1
  {
    a * b
  }

  // The number whose digits from position i up are the given fields.
  function Value(l: Layout, fields: seq<nat>, i: nat): nat
    requires GoodLayout(l) && |fields| == 6 && i <= 6
    decreases 6 - i
  {
    if i == 6 then 0
    else
      EveryPosition(l.order, i);
      fields[FieldAt(l.order, i)] + Times(Base(l, i), Value(l, fields, i + 1))
  }

  // The digits of a number, from position i up.
  function Digits(l: Layout, n: nat, i: nat, fields: seq<nat>): (r: seq<nat>)
    requires GoodLayout(l) && |fields| == 6 && i <= 6
    ensures |r| == 6
    decreases 6 - i
  {
    if i == 6 then fields
    else
      EveryPosition(l.order, i);
      Digits(l, Quot(n, Base(l, i)), i + 1, fields[FieldAt(l.order, i) := Rem(n, Base(l, i))])
  }

  predicate InWidth(l: Layout, fields: seq<nat>) {
    |fields| == 6 && |l.widths| == 6 && forall p :: 0 <= p < 6 ==> fields[p] < Pow2(l.widths[p])
  }

  lemma SplitNumber(d: nat, b: nat, v: nat)
    requires d < b
    ensures Quot(d + Times(b, v), b) == v && Rem(d + Times(b, v), b) == d
  {
    Split(d + Times(b, v), b, v, d);
  }

  lemma ValueStep(l: Layout, fields: seq<nat>, i: nat)
    requires GoodLayout(l) && |fields| == 6 && i < 6
    ensures FieldAt(l.order, i) < 6
    ensures Value(l, fields, i) == fields[FieldAt(l.order, i)] + Times(Base(l, i), Value(l, fields, i + 1))
  {
    Position(l, i);
  }

  lemma DigitsStep(l: Layout, n: nat, i: nat, fields: seq<nat>)
    requires GoodLayout(l) && |fields| == 6 && i < 6
    ensures FieldAt(l.order, i) < 6
    ensures Digits(l, n, i, fields) ==
        Digits(l, Quot(n, Base(l, i)), i + 1, fields[FieldAt(l.order, i) := Rem(n, Base(l, i))])
  {
    Position(l, i);
  }

  // Reading the digits of a value gives the fields back.
  lemma {:induction false} DigitsOfValue(l: Layout, fields: seq<nat>, i: nat, start: seq<nat>)
    requires GoodLayout(l) && InWidth(l, fields) && i <= 6 && |start| == 6
    ensures forall p :: 0 <= p < 6 ==>
              Digits(l, Value(l, fields, i), i, start)[p] == if l.order[p] >= i then fields[p] else start[p]
    decreases 6 - i
  {
    hide FieldAt, Base, Times, Quot, Rem, Pow2;
    if i < 6 {
      Position(l, i);
      hide Value, Digits, IsPermutation;
      var q := FieldAt(l.order, i);
      SplitNumber(fields[q], Base(l, i), Value(l, fields, i + 1));
      ValueStep(l, fields, i);
      DigitsStep(l, Value(l, fields, i), i, start);
      DigitsOfValue(l, fields, i + 1, start[q := fields[q]]);
    }
  }

  // The fields below position i are left alone; the others come out in width.
  lemma {:induction false} DigitsFrom(l: Layout, n: nat, i: nat, start: seq<nat>)
    requires GoodLayout(l) && i <= 6 && |start| == 6
    ensures var r := Digits(l, n, i, start);
      forall p :: 0 <= p < 6 ==> if l.order[p] < i then r[p] == start[p] else r[p] < Pow2(l.widths[p])
    decreases 6 - i
  {
    if i < 6 {
      Position(l, i);
      hide FieldAt, Base, Times, Quot, Rem;
      DigitsStep(l, n, i, start);
      hide Digits;
      var q := FieldAt(l.order, i);
      var start' := start[q := Rem(n, Base(l, i))];
      DigitsFrom(l, Quot(n, Base(l, i)), i + 1, start');
    }
  }

  // The digits of a number below the span make up the number again.
  lemma {:induction false} ValueOfDigits(l: Layout, n: nat, i: nat, start: seq<nat>)
    requires GoodLayout(l) && i <= 6 && |start| == 6 && n < Span(l, i)
    ensures Value(l, Digits(l, n, i, start), i) == n
    decreases 6 - i
  {
    if i < 6 {
      Position(l, i);
      hide FieldAt, Base, Times, Quot, Rem;
      var q := FieldAt(l.order, i);
      var b := Base(l, i);
      var start' := start[q := Rem(n, b)];
      DigitsStep(l, n, i, start);
      QuotBelow(n, b, Span(l, i + 1));
      ValueOfDigits(l, Quot(n, b), i + 1, start');
      DigitsFrom(l, Quot(n, b), i + 1, start');
      var r := Digits(l, Quot(n, b), i + 1, start');
      ValueStep(l, r, i);
      hide Digits, Value, Span;
      assert r[q] == Rem(n, b);
      Divided(n, b);
    }
  }

  lemma QuotBelow(n: nat, b: nat, s: nat)
    requires b >= 1 && n < Times(b, s)
    ensures Quot(n, b) < s
  {
    QuotientBelow(n, b, s);
  }

  lemma BelowProduct(d: nat, b: nat, v: nat, s: nat)
    requires d < b && v < s
    ensures d + Times(b, v) < Times(b, s)
  {
    MulStep(v, s, b);
    assert (v + 1) * b == v * b + b;
  }

  lemma {:induction false} ValueBelowSpan(l: Layout, fields: seq<nat>, i: nat)
    requires GoodLayout(l) && InWidth(l, fields) && i <= 6
    ensures Value(l, fields, i) < Span(l, i)
    decreases 6 - i
  {
    if i < 6 {
      Position(l, i);
      hide FieldAt, Base, Times, Quot, Rem;
      ValueStep(l, fields, i);
      ValueBelowSpan(l, fields, i + 1);
      BelowProduct(fields[FieldAt(l.order, i)], Base(l, i), Value(l, fields, i + 1), Span(l, i + 1));
    }
  }

  // The widths of the fields at position i and up.
  function WidthFrom(l: Layout, i: nat): nat
    requires |l.order| == 6 && |l.widths| == 6
  {
    (if l.order[0] >= i then l.widths[0] else 0) + (if l.order[1] >= i then l.widths[1] else 0)
    + (if l.order[2] >= i then l.widths[2] else 0) + (if l.order[3] >= i then l.widths[3] else 0)
    + (if l.order[4] >= i then l.widths[4] else 0) + (if l.order[5] >= i then l.widths[5] else 0)
  }

  lemma WidthStep(l: Layout, i: nat)
    requires GoodLayout(l) && i < 6
    ensures FieldAt(l.order, i) < 6
    ensures WidthFrom(l, i) == l.widths[FieldAt(l.order, i)] + WidthFrom(l, i + 1)
  {
    Position(l, i);
    hide FieldAt, IsPermutation;
    var q := FieldAt(l.order, i);
    assert q == 0 || q == 1 || q == 2 || q == 3 || q == 4 || q == 5;
  }

  // Whatever the order, the span is two to the sum of the widths.
  lemma {:induction false} SpanIsWidths(l: Layout, i: nat)
    requires GoodLayout(l) && i <= 6
    ensures Span(l, i) == Pow2(WidthFrom(l, i))
    decreases 6 - i
  {
    if i < 6 {
      WidthStep(l, i);
      Position(l, i);
      SpanIsWidths(l, i + 1);
      hide FieldAt, WidthFrom, Base;
      Pow2Add(l.widths[FieldAt(l.order, i)], WidthFrom(l, i + 1));
    } else {
      assert WidthFrom(l, 6) == 0;
    }
  }

  // ----- Translation -----

  function BusOffsetBits(busWidth: nat): nat { Mlog2(busWidth / 8) }
  function BurstBits(busWidth: nat, burstLength: nat): nat { Mlog2((busWidth * burstLength) / 8) }

  lemma BurstAtLeastBus(busWidth: nat, burstLength: nat)
    requires burstLength >= 1
    ensures BusOffsetBits(busWidth) <= BurstBits(busWidth, burstLength)
  {
    assert busWidth * burstLength >= busWidth;
    LogMonotone(busWidth / 8, (busWidth * burstLength) / 8);
  }

  function Translated(l: Layout, burstBits: nat, address: nat): seq<nat>
    requires GoodLayout(l)
  {
    Digits(l, Quot(address, Pow2(burstBits)), 0, [0, 0, 0, 0, 0, 0])
  }

  function Composed(l: Layout, burstBits: nat, fields: seq<nat>): nat
    requires GoodLayout(l) && |fields| == 6
  {
    Times(Pow2(burstBits), Value(l, fields, 0))
  }

  lemma NonNegative(l: Layout)
    requires GoodLayout(l)
    ensures |l.order| == 6 && forall p :: 0 <= p < 6 ==> l.order[p] >= 0
  {
  }

  // Fields that fit their widths come back from the address they make.
  lemma TranslateInvertsReverse(l: Layout, burstBits: nat, fields: seq<nat>)
    requires GoodLayout(l) && InWidth(l, fields)
    ensures Translated(l, burstBits, Composed(l, burstBits, fields)) == fields
  {
    hide Times, Quot, Rem, Pow2, Digits, Value, IsPermutation;
    SplitNumber(0, Pow2(burstBits), Value(l, fields, 0));
    NonNegative(l);
    DigitsOfValue(l, fields, 0, [0, 0, 0, 0, 0, 0]);
  }

  // The addresses there are: a burst for every value of the fields.
  lemma AddressSpace(l: Layout, burstBits: nat)
    requires GoodLayout(l)
    ensures Times(Pow2(burstBits), Span(l, 0)) == Pow2(burstBits + WidthFrom(l, 0))
  {
    hide Span, Pow2, WidthFrom;
    Pow2Add(burstBits, WidthFrom(l, 0));
    SpanIsWidths(l, 0);
  }

  // An address in range comes back rounded down to the burst size.
  lemma ReverseInvertsTranslate(l: Layout, burstBits: nat, address: nat)
    requires GoodLayout(l) && address < Pow2(burstBits + WidthFrom(l, 0))
    ensures Composed(l, burstBits, Translated(l, burstBits, address)) == address - address % Pow2(burstBits)
  {
    var b := Pow2(burstBits);
    Divided(address, b);
    assert Rem(address, b) == address % b;
    hide Times, Quot, Rem, Span, Pow2, Digits, Value, WidthFrom, IsPermutation;
    AddressSpace(l, burstBits);
    QuotBelow(address, b, Span(l, 0));
    ValueOfDigits(l, Quot(address, b), 0, [0, 0, 0, 0, 0, 0]);
  }

  // A composed address needs no more bits than the widths and the burst have, so 64 bits are enough for 64.
  lemma ComposedFits(l: Layout, burstBits: nat, fields: seq<nat>)
    requires GoodLayout(l) && InWidth(l, fields)
    ensures Composed(l, burstBits, fields) < Pow2(burstBits + WidthFrom(l, 0))
  {
    hide Times, Span, Pow2, Value, WidthFrom, IsPermutation;
    ValueBelowSpan(l, fields, 0);
    AddressSpace(l, burstBits);
    BelowProduct(0, Pow2(burstBits), Value(l, fields, 0), Span(l, 0));
  }

  // Every translated field is below the configured count, also when that is no power of two.
  lemma FieldsBelowCounts(l: Layout, burstBits: nat, address: nat, counts: seq<nat>, p: nat)
    requires GoodLayout(l) && |counts| == 6 && p < 6 && counts[p] >= 1 && l.widths[p] == Mlog2(counts[p])
    ensures Translated(l, burstBits, address)[p] < counts[p]
  {
    DigitsFrom(l, Quot(address, Pow2(burstBits)), 0, [0, 0, 0, 0, 0, 0]);
    NonNegative(l);
  }

  // ----- Mapping schemes -----

  function Token(s: string): (p: nat)
    ensures p < 6 || p == MEM_UNKNOWN
  {
    if s == "R" then MEM_ROW
    else if s == "C" then MEM_COL
    else if s == "BK" then MEM_BANK
    else if s == "RK" then MEM_RANK
    else if s == "CH" then MEM_CHANNEL
    else if s == "SA" then MEM_SUBARRAY
    else MEM_UNKNOWN
  }

  // The first n tokens, highest field first, are given orders 6, 5, ...
  function Parsed(tokens: seq<string>, n: nat): (o: seq<int>)
    requires n <= |tokens|
    ensures |o| == 6
  {
    if n == 0 then [0, 0, 0, 0, 0, 0]
    else
      var o := Parsed(tokens, n - 1);
      var p := Token(tokens[n - 1]);
      if p < 6 then o[p := 6 - (n - 1)] else o
  }

  // Give the next order to a field that has none.
  function Filled(o: seq<int>, current: int, p: nat): (seq<int>, int)
    requires |o| == 6 && p < 6
  {
    if o[p] == 0 then (o[p := current], current - 1) else (o, current)
  }

  function FilledAll(o: seq<int>, current: int): (r: seq<int>)
    requires |o| == 6
    ensures |r| == 6
  {
    var (o1, c1) := Filled(o, current, MEM_SUBARRAY);
    var (o2, c2) := Filled(o1, c1, MEM_CHANNEL);
    var (o3, c3) := Filled(o2, c2, MEM_RANK);
    var (o4, c4) := Filled(o3, c3, MEM_BANK);
    var (o5, c5) := Filled(o4, c4, MEM_ROW);
    Filled(o5, c5, MEM_COL).0
  }

  function Lowered(o: seq<int>): (r: seq<int>)
    requires |o| == 6
    ensures |r| == 6
  {
    [o[0] - 1, o[1] - 1, o[2] - 1, o[3] - 1, o[4] - 1, o[5] - 1]
  }

  function SchemeOrder(tokens: seq<string>): (r: seq<int>)
    ensures |r| == 6
  {
    Lowered(FilledAll(Parsed(tokens, |tokens|), 6 - |tokens|))
  }

  predicate AllDistinctFields(tokens: seq<string>) {
    && (forall i :: 0 <= i < |tokens| ==> Token(tokens[i]) < 6)
    && (forall i, j :: 0 <= i < j < |tokens| ==> Token(tokens[i]) != Token(tokens[j]))
  }

  function Set(x: int): nat { if x != 0 then 1 else 0 }
  function CountSet(o: seq<int>): nat
    requires |o| == 6
  {
    Set(o[0]) + Set(o[1]) + Set(o[2]) + Set(o[3]) + Set(o[4]) + Set(o[5])
  }

  // Distinct orders above `low`, for the fields that have one.
  predicate Spread(o: seq<int>, low: int) {
    && |o| == 6 && (forall p :: 0 <= p < 6 ==> o[p] == 0 || low < o[p] <= 6)
    && (forall p, q :: 0 <= p < q < 6 && o[p] != 0 ==> o[p] != o[q])
  }

  lemma CountAfter(o: seq<int>, p: nat, v: int)
    requires |o| == 6 && p < 6 && v != 0
    ensures CountSet(o[p := v]) == CountSet(o) + 1 - Set(o[p])
  {
  }

  lemma {:induction false} ParsedSpread(tokens: seq<string>, n: nat)
    requires n <= |tokens| && n <= 6
    ensures Spread(Parsed(tokens, n), 6 - n)
  {
    if n > 0 {
      ParsedSpread(tokens, n - 1);
      hide Token;
    }
  }

  lemma {:induction false} ParsedSets(tokens: seq<string>, n: nat, p: nat)
    requires n <= |tokens| && n <= 6 && p < 6
    ensures Parsed(tokens, n)[p] != 0 <==> exists i :: 0 <= i < n && Token(tokens[i]) == p
  {
    if n > 0 {
      ParsedSets(tokens, n - 1, p);
      hide Token;
    }
  }

  lemma ParsedStep(tokens: seq<string>, n: nat)
    requires 0 < n <= |tokens|
    ensures var o := Parsed(tokens, n - 1); var p := Token(tokens[n - 1]);
      Parsed(tokens, n) == if p < 6 then o[p := 6 - (n - 1)] else o
  {
    hide Token;
  }

  // A token that names a field none of the first n named.
  predicate NewField(tokens: seq<string>, n: nat)
    requires n < |tokens|
  {
    Token(tokens[n]) < 6 && forall i :: 0 <= i < n ==> Token(tokens[i]) != Token(tokens[n])
  }

  lemma CountStep(tokens: seq<string>, n: nat)
    requires n < |tokens| && n < 6
    ensures CountSet(Parsed(tokens, n + 1)) == CountSet(Parsed(tokens, n)) + (if NewField(tokens, n) then 1 else 0)
  {
    ParsedStep(tokens, n + 1);
    var p := Token(tokens[n]);
    hide Token, Parsed, CountSet;
    if p < 6 {
      CountAfter(Parsed(tokens, n), p, 6 - n);
      ParsedSets(tokens, n, p);
    }
  }

  // n tokens give n orders exactly when they name n different fields.
  lemma {:induction false} ParsedCount(tokens: seq<string>, n: nat)
    requires n <= |tokens| && n <= 6
    ensures CountSet(Parsed(tokens, n)) <= n
    ensures CountSet(Parsed(tokens, n)) == n <==> AllDistinctFields(tokens[..n])
  {
    hide Token;
    if n > 0 {
      hide Parsed, CountSet;
      ParsedCount(tokens, n - 1);
      CountStep(tokens, n - 1);
      assert tokens[..n] == tokens[..n - 1] + [tokens[n - 1]];
      GrowDistinct(tokens[..n - 1], tokens[n - 1]);
      hide AllDistinctFields;
      assert forall i :: 0 <= i < n - 1 ==> tokens[..n - 1][i] == tokens[i];
    }
  }

  lemma GrowDistinct(front: seq<string>, s: string)
    ensures AllDistinctFields(front + [s]) <==>
            AllDistinctFields(front) && Token(s) < 6 && forall i :: 0 <= i < |front| ==> Token(front[i]) != Token(s)
  {
    var all := front + [s];
    hide Token;
    assert all[|front|] == s;
    assert forall i :: 0 <= i < |front| ==> all[i] == front[i];
  }

  // The value a field ends up with, given how many gaps come before it.
  function FilledValue(o: seq<int>, current: int, p: nat, gapsBefore: int): int
    requires |o| == 6 && p < 6
  {
    if o[p] == 0 then current - gapsBefore else o[p]
  }

  lemma FilledValues(o: seq<int>, current: int)
    requires |o| == 6
    ensures var r := FilledAll(o, current);
      && r[5] == FilledValue(o, current, 5, 0)
      && r[4] == FilledValue(o, current, 4, 1 - Set(o[5]))
      && r[3] == FilledValue(o, current, 3, 2 - Set(o[5]) - Set(o[4]))
      && r[2] == FilledValue(o, current, 2, 3 - Set(o[5]) - Set(o[4]) - Set(o[3]))
      && r[0] == FilledValue(o, current, 0, 4 - Set(o[5]) - Set(o[4]) - Set(o[3]) - Set(o[2]))
      && r[1] == FilledValue(o, current, 1, 5 - Set(o[5]) - Set(o[4]) - Set(o[3]) - Set(o[2]) - Set(o[0]))
  {
  }

  lemma FilledIs(o: seq<int>, current: int, r: seq<int>)
    requires |o| == 6 && |r| == 6
    requires r[5] == FilledValue(o, current, 5, 0)
    requires r[4] == FilledValue(o, current, 4, 1 - Set(o[5]))
    requires r[3] == FilledValue(o, current, 3, 2 - Set(o[5]) - Set(o[4]))
    requires r[2] == FilledValue(o, current, 2, 3 - Set(o[5]) - Set(o[4]) - Set(o[3]))
    requires r[0] == FilledValue(o, current, 0, 4 - Set(o[5]) - Set(o[4]) - Set(o[3]) - Set(o[2]))
    requires r[1] == FilledValue(o, current, 1, 5 - Set(o[5]) - Set(o[4]) - Set(o[3]) - Set(o[2]) - Set(o[0]))
    ensures r == FilledAll(o, current)
  {
    FilledValues(o, current);
    hide FilledAll, FilledValue, Set;
  }

  predicate Different(a: int, b: int, c: int, d: int, e: int, f: int) {
    && a != b && a != c && a != d && a != e && a != f && b != c && b != d && b != e && b != f
    && c != d && c != e && c != f && d != e && d != f && e != f
  }

  predicate UpTo6(a: int) { 1 <= a <= 6 }

  lemma PermutationIs(r: seq<int>)
    requires |r| == 6
    ensures IsPermutation(Lowered(r)) <==>
            Different(r[0], r[1], r[2], r[3], r[4], r[5])
            && UpTo6(r[0]) && UpTo6(r[1]) && UpTo6(r[2]) && UpTo6(r[3]) && UpTo6(r[4]) && UpTo6(r[5])
  {
    var o := Lowered(r);
    if IsPermutation(o) {
      assert o[0] != o[1] && o[0] != o[2] && o[0] != o[3] && o[0] != o[4] && o[0] != o[5] && o[1] != o[2];
      assert o[1] != o[3] && o[1] != o[4] && o[1] != o[5] && o[2] != o[3] && o[2] != o[4] && o[2] != o[5];
      assert o[3] != o[4] && o[3] != o[5] && o[4] != o[5];
      assert UpTo6(o[0] + 1) && UpTo6(o[1] + 1) && UpTo6(o[2] + 1) && UpTo6(o[3] + 1) && UpTo6(o[4] + 1);
    }
  }

  // One pair of fields after filling; `between` counts the gaps from the first to the second.
  lemma PairDiffers(o: seq<int>, current: int, p: nat, before: int, q: nat, between: int)
    requires Spread(o, current) && current >= 0 && p < 6 && q < 6 && p != q && before >= 0
    requires o[p] == 0 ==> between >= 1
    ensures FilledValue(o, current, p, before) != FilledValue(o, current, q, before + between) || between < 0
  {
  }

  // Filling the gaps from `current` down gives a permutation exactly when the gaps number `current`.
  lemma FillingCompletes(o: seq<int>, current: int)
    requires |o| == 6 && 0 <= current <= 6 && CountSet(o) <= 6 - current && Spread(o, current)
    ensures IsPermutation(Lowered(FilledAll(o, current))) <==> CountSet(o) == 6 - current
  {
    FilledValues(o, current);
    var r := FilledAll(o, current);
    PermutationIs(r);
    hide FilledAll, Lowered, IsPermutation;
    var g5 := 1 - Set(o[5]);
    var g4 := g5 + 1 - Set(o[4]);
    var g3 := g4 + 1 - Set(o[3]);
    var g2 := g3 + 1 - Set(o[2]);
    var g0 := g2 + 1 - Set(o[0]);
    PairDiffers(o, current, 5, 0, 4, g5);
    PairDiffers(o, current, 5, 0, 3, g4);
    PairDiffers(o, current, 5, 0, 2, g3);
    PairDiffers(o, current, 5, 0, 0, g2);
    PairDiffers(o, current, 5, 0, 1, g0);
    PairDiffers(o, current, 4, g5, 3, g4 - g5);
    PairDiffers(o, current, 4, g5, 2, g3 - g5);
    PairDiffers(o, current, 4, g5, 0, g2 - g5);
    PairDiffers(o, current, 4, g5, 1, g0 - g5);
    PairDiffers(o, current, 3, g4, 2, g3 - g4);
    PairDiffers(o, current, 3, g4, 0, g2 - g4);
    PairDiffers(o, current, 3, g4, 1, g0 - g4);
    PairDiffers(o, current, 2, g3, 0, g2 - g3);
    PairDiffers(o, current, 2, g3, 1, g0 - g3);
    PairDiffers(o, current, 0, g2, 1, g0 - g2);
    assert Different(r[0], r[1], r[2], r[3], r[4], r[5]);
    Ranges(o, current, r);
  }

  // All the values are at least 1 exactly when there are no more gaps than orders left.
  lemma Ranges(o: seq<int>, current: int, r: seq<int>)
    requires |o| == 6 && |r| == 6 && 0 <= current <= 6 && CountSet(o) <= 6 - current && Spread(o, current)
    requires r[5] == FilledValue(o, current, 5, 0)
    requires r[4] == FilledValue(o, current, 4, 1 - Set(o[5]))
    requires r[3] == FilledValue(o, current, 3, 2 - Set(o[5]) - Set(o[4]))
    requires r[2] == FilledValue(o, current, 2, 3 - Set(o[5]) - Set(o[4]) - Set(o[3]))
    requires r[0] == FilledValue(o, current, 0, 4 - Set(o[5]) - Set(o[4]) - Set(o[3]) - Set(o[2]))
    requires r[1] == FilledValue(o, current, 1, 5 - Set(o[5]) - Set(o[4]) - Set(o[3]) - Set(o[2]) - Set(o[0]))
    ensures UpTo6(r[0]) && UpTo6(r[1]) && UpTo6(r[2]) && UpTo6(r[3]) && UpTo6(r[4]) && UpTo6(r[5]) <==>
            CountSet(o) == 6 - current
  {
  }

  // A scheme of at most six tokens orders all six fields exactly when its tokens name different fields.
  lemma SchemeIsPermutationIff(tokens: seq<string>)
    requires |tokens| <= 6
    ensures IsPermutation(SchemeOrder(tokens)) <==> AllDistinctFields(tokens)
  {
    ParsedSpread(tokens, |tokens|);
    ParsedCount(tokens, |tokens|);
    assert tokens[..|tokens|] == tokens;
    FillingCompletes(Parsed(tokens, |tokens|), 6 - |tokens|);
  }

  // ----- The translation method and the translator -----

  class TranslationMethod {
    const bitWidths: array<nat>
    const order: array<int>
    const count: array<nat>

    ghost predicate Valid() {
      bitWidths.Length == 6 && order.Length == 6 && count.Length == 6 && bitWidths != count
    }

    // 256 MB by default: one channel bit and rank bit, ten row, three bank, six subarray and eight column bits.
    constructor ()
      ensures Valid() && fresh(bitWidths) && fresh(order) && fresh(count)
      ensures bitWidths[..] == [10, 8, 3, 1, 1, 6] && order[..] == [3, 0, 2, 4, 5, 1]
    {
      bitWidths, order, count := new nat[6], new int[6], new nat[6];
      new;
      SetBitWidths(10, 8, 3, 1, 1, 6);
      SetOrder(4, 1, 3, 5, 6, 2);
    }

    method SetBitWidths(row: nat, col: nat, bank: nat, rank: nat, channel: nat, subarray: nat)
      requires Valid()
      modifies bitWidths
      ensures bitWidths[..] == [row, col, bank, rank, channel, subarray]
    {
      bitWidths[MEM_ROW], bitWidths[MEM_COL], bitWidths[MEM_BANK] := row, col, bank;
      bitWidths[MEM_RANK], bitWidths[MEM_CHANNEL], bitWidths[MEM_SUBARRAY] := rank, channel, subarray;
    }

    // Orders are numbered from 1 here and from 0 in the array.
    method SetOrder(row: int, col: int, bank: int, rank: int, channel: int, subarray: int)
      requires Valid()
      modifies order
      ensures order[..] == Lowered([row, col, bank, rank, channel, subarray])
    {
      order[MEM_ROW], order[MEM_COL], order[MEM_BANK] := row - 1, col - 1, bank - 1;
      order[MEM_RANK], order[MEM_CHANNEL], order[MEM_SUBARRAY] := rank - 1, channel - 1, subarray - 1;
    }

    method SetCount(rows: nat, cols: nat, banks: nat, ranks: nat, channels: nat, subarrays: nat)
      requires Valid()
      modifies count
      ensures count[..] == [rows, cols, banks, ranks, channels, subarrays]
    {
      count[MEM_ROW], count[MEM_COL], count[MEM_BANK] := rows, cols, banks;
      count[MEM_RANK], count[MEM_CHANNEL], count[MEM_SUBARRAY] := ranks, channels, subarrays;
    }

    // The tokens of a scheme such as R:RK:BK:CH:C, highest field first.
    method SetAddressMappingScheme(tokens: seq<string>)
      requires Valid()
      modifies order
      ensures order[..] == SchemeOrder(tokens)
    {
      var row, col, bank, rank, channel, subarray := 0, 0, 0, 0, 0, 0;
      var currentOrder := 6;
      for k := 0 to |tokens|
        invariant [row, col, bank, rank, channel, subarray] == Parsed(tokens, k)
        invariant currentOrder == 6 - k
      {
        if tokens[k] == "R" {
          row := currentOrder;
        } else if tokens[k] == "C" {
          col := currentOrder;
        } else if tokens[k] == "BK" {
          bank := currentOrder;
        } else if tokens[k] == "RK" {
          rank := currentOrder;
        } else if tokens[k] == "CH" {
          channel := currentOrder;
        } else if tokens[k] == "SA" {
          subarray := currentOrder;
        }
        currentOrder := currentOrder - 1;
      }
      FillAndSet(row, col, bank, rank, channel, subarray, currentOrder);
    }

    // Set any unset, assuming they are not used.
    method FillAndSet(row0: int, col0: int, bank0: int, rank0: int, channel0: int, subarray0: int, current: int)
      requires Valid()
      modifies order
      ensures order[..] == Lowered(FilledAll([row0, col0, bank0, rank0, channel0, subarray0], current))
    {
      hide Lowered;
      var row, col, bank, rank, channel, subarray := row0, col0, bank0, rank0, channel0, subarray0;
      var currentOrder := current;
      if subarray == 0 { subarray := currentOrder; currentOrder := currentOrder - 1; }
      if channel == 0 { channel := currentOrder; currentOrder := currentOrder - 1; }
      if rank == 0 { rank := currentOrder; currentOrder := currentOrder - 1; }
      if bank == 0 { bank := currentOrder; currentOrder := currentOrder - 1; }
      if row == 0 { row := currentOrder; currentOrder := currentOrder - 1; }
      if col == 0 { col := currentOrder; currentOrder := currentOrder - 1; }
      FilledIs([row0, col0, bank0, rank0, channel0, subarray0], current, [row, col, bank, rank, channel, subarray]);
      SetOrder(row, col, bank, rank, channel, subarray);
    }
  }

  lemma DivideTwice(n: nat, x: nat, y: nat, k: nat, m: nat, q: nat, r: nat)
    requires x >= 1 && y >= 1 && n == k * x + m && m < x && k == q * y + r && r < y
    ensures x * y >= 1 && n / (x * y) == q
  {
    Distribute(q, y, r, x);
    MulStep(r, y, x);
    assert (r + 1) * x == r * x + x;
    assert y * x == x * y;
    MulMonotone(1, y, x);
    Split(n, x * y, q, r * x + m);
  }

  lemma ShiftTwice(n: nat, a: nat, b: nat)
    ensures Quot(Quot(n, Pow2(a)), Pow2(b)) == Quot(n, Pow2(a + b))
  {
    var x, y := Pow2(a), Pow2(b);
    Pow2Add(a, b);
    Divided(n, x);
    Divided(Quot(n, x), y);
    hide Pow2;
    DivideTwice(n, x, y, Quot(n, x), Rem(n, x), Quot(Quot(n, x), y), Rem(Quot(n, x), y));
  }

  class AddressTranslator {
    const method_: TranslationMethod
    var busWidth: nat
    var burstLength: nat
    var lowColBits: nat

    ghost predicate Valid()
      reads this, method_.bitWidths, method_.order
    {
      method_.Valid() && burstLength >= 1 && GoodLayout(CurrentLayout())
    }

    function CurrentLayout(): Layout
      reads method_.bitWidths, method_.order
    {
      Layout(method_.order[..], method_.bitWidths[..])
    }

    // A 64-bit bus with bursts of eight by default.
    constructor (m: TranslationMethod)
      ensures method_ == m && busWidth == 64 && burstLength == 8
    {
      method_, busWidth, burstLength, lowColBits := m, 64, 8, 0;
    }

    method FindOrder(order: int) returns (p: nat)
      requires method_.Valid()
      ensures p == FieldAt(method_.order[..], order)
    {
      if method_.order[MEM_ROW] == order {
        p := MEM_ROW;
      } else if method_.order[MEM_COL] == order {
        p := MEM_COL;
      } else if method_.order[MEM_BANK] == order {
        p := MEM_BANK;
      } else if method_.order[MEM_RANK] == order {
        p := MEM_RANK;
      } else if method_.order[MEM_CHANNEL] == order {
        p := MEM_CHANNEL;
      } else if method_.order[MEM_SUBARRAY] == order {
        p := MEM_SUBARRAY;
      } else {
        p := MEM_UNKNOWN;
      }
    }

    // A shift right by the width of the field, and the bits it drops.
    function Divide(partSize: nat, p: nat): nat
      requires method_.Valid() && p < 6
      reads method_.bitWidths
    {
      Quot(partSize, Pow2(method_.bitWidths[p]))
    }

    function Modulo(partialAddr: nat, p: nat): nat
      requires method_.Valid() && p < 6
      reads method_.bitWidths
    {
      Rem(partialAddr, Pow2(method_.bitWidths[p]))
    }

    // Shift out the byte and burst offset; the bits of both are counted separately.
    method OffsetBits() returns (busOffsetBits: nat, low: nat)
      requires burstLength >= 1
      ensures busOffsetBits + low == BurstBits(busWidth, burstLength)
    {
      busOffsetBits := ComputeMlog2(busWidth / 8);
      var burstBits := ComputeMlog2((busWidth * burstLength) / 8);
      BurstAtLeastBus(busWidth, burstLength);
      low := burstBits - busOffsetBits;
    }

    method Translate(address: nat) returns (fields: seq<nat>)
      requires Valid()
      modifies this`lowColBits
      ensures fields == Translated(CurrentLayout(), BurstBits(busWidth, burstLength), address)
    {
      var busOffsetBits, low := OffsetBits();
      lowColBits := low;
      var refAddress: nat := Quot(address, Pow2(busOffsetBits));
      refAddress := Quot(refAddress, Pow2(low));
      ShiftTwice(address, busOffsetBits, low);
      hide Pow2, Digits, IsPermutation, Quot, Rem, FieldAt, Base, BurstBits;
      var partitions: seq<nat> := [0, 0, 0, 0, 0, 0];
      ghost var l := CurrentLayout();
      for i := 0 to 6
        invariant |partitions| == 6 && l == CurrentLayout() && GoodLayout(l)
        invariant Digits(l, refAddress, i, partitions) == Translated(l, BurstBits(busWidth, burstLength), address)
      {
        var part := FindOrder(i);
        Position(l, i);
        DigitsStep(l, refAddress, i, partitions);
        partitions := partitions[part := Modulo(refAddress, part)];
        refAddress := Divide(refAddress, part);
      }
      DigitsEnd(l, refAddress, partitions);
      fields := partitions;
    }

    method ReverseTranslate(fields: seq<nat>) returns (phyAddr: nat)
      requires Valid() && |fields| == 6
      modifies this`lowColBits
      ensures phyAddr == Composed(CurrentLayout(), BurstBits(busWidth, burstLength), fields)
    {
      hide Pow2, Value, IsPermutation, Times, FieldAt, Base, BurstBits;
      var busOffsetBits, low := OffsetBits();
      lowColBits := low;
      var unitAddr: nat := Pow2(busOffsetBits);
      unitAddr := Times(unitAddr, Pow2(low));
      UnitAdds(busOffsetBits, low);
      ghost var l := CurrentLayout();
      phyAddr := 0;
      ghost var whole := Composed(l, BurstBits(busWidth, burstLength), fields);
      for i := 0 to 6
        invariant l == CurrentLayout() && GoodLayout(l)
        invariant phyAddr + Times(unitAddr, Value(l, fields, i)) == whole
      {
        var part := FindOrder(i);
        Position(l, i);
        ValueStep(l, fields, i);
        Peel(unitAddr, fields[part], Base(l, i), Value(l, fields, i + 1));
        phyAddr := phyAddr + Times(fields[part], unitAddr);
        unitAddr := Times(unitAddr, Pow2(method_.bitWidths[part]));
      }
      ValueEnd(l, fields);
      NothingTimes(unitAddr);
    }
  }

  lemma UnitAdds(a: nat, b: nat)
    ensures Times(Pow2(a), Pow2(b)) == Pow2(a + b)
  {
    Pow2Add(a, b);
  }

  lemma NothingTimes(a: nat)
    ensures Times(a, 0) == 0
  {
  }

  lemma DigitsEnd(l: Layout, n: nat, fields: seq<nat>)
    requires GoodLayout(l) && |fields| == 6
    ensures Digits(l, n, 6, fields) == fields
  {
  }

  lemma ValueEnd(l: Layout, fields: seq<nat>)
    requires GoodLayout(l) && |fields| == 6
    ensures Value(l, fields, 6) == 0
  {
  }

  // The lowest digit of what is left moves over to the sum.
  lemma Peel(unit: nat, d: nat, b: nat, v: nat)
    ensures Times(unit, d + Times(b, v)) == Times(d, unit) + Times(Times(unit, b), v)
  {
    assert unit * (d + b * v) == unit * d + unit * (b * v);
    assert unit * (b * v) == (unit * b) * v;
  }
}
