/**
 * The two text helpers of the component library: `reduceText`, which
 * shortens a string to a length limit with an ellipsis, and
 * `toLocaleString`, which prints an amount with Indian digit grouping
 * (1234567 prints as "12,34,567").
 */
module TextUtils {
  import opened Wrappers
  import opened Digits

  function Min(a: int, b: int): int { if a <= b then a else b }
  function Max(a: int, b: int): int { if a >= b then a else b }

  /**
   * JavaScript's `String.prototype.substr(start, length)` on integer
   * arguments: a negative start counts from the end, and the length is
   * clamped to what is there.
   */
  function Substr(s: string, start: int, length: int): (r: string)
    ensures 0 <= start && 0 <= length <= |s| - start ==> r == s[start..start + length]
    ensures length <= 0 ==> r == []
  {
    var from := if start < 0 then Max(|s| + start, 0) else Min(start, |s|);
    var len := Min(Max(length, 0), |s|);
    var to := Min(from + len, |s|);
    s[from..to]
  }

  // ---------------------------------------------------------------- reduceText

  const DefaultLength: int := 50
  const Ellipsis: string := "..."

  /** `length || 50`: an absent or zero limit means 50. */
  function Limit(length: Option<int>): (l: int)
    ensures l != 0
    ensures l == DefaultLength || (length.Some? && l == length.value)
    ensures length.Some? && length.value != 0 ==> l == length.value
  {
    if length.None? || length.value == 0 then DefaultLength else length.value
  }

  /**
   * `reduceText(val, length)`: a string longer than the limit L keeps its
   * first L - 3 characters (none when L < 3) and gets "..." appended; any
   * other string is returned as it is.
   */
  function ReduceText(val: string, length: Option<int>): (r: string)
    ensures |val| <= Limit(length) ==> r == val
    ensures |val| > Limit(length) ==> r == val[..Max(Limit(length) - 3, 0)] + Ellipsis
  {
    var limit := Limit(length);
    if |val| > limit then Substr(val, 0, limit - 3) + Ellipsis else val
  }

  /** With a limit of at least 3 the result never exceeds it, and a shortened string has exactly that length. */
  lemma ReduceTextLength(val: string, length: Option<int>)
    requires Limit(length) >= 3
    ensures |ReduceText(val, length)| <= Limit(length)
    ensures |val| > Limit(length) ==> |ReduceText(val, length)| == Limit(length)
  {
  }

  /** Reducing an already reduced text changes nothing, whatever the limit. */
  lemma ReduceTextIdempotent(val: string, length: Option<int>)
    ensures ReduceText(ReduceText(val, length), length) == ReduceText(val, length)
  {
    var limit := Limit(length);
    var r := ReduceText(val, length);
    if |val| > limit && limit < 3 {
      assert r == Ellipsis;
    }
  }

  /** The code's answer to the example in its own documentation: "..." rather than "123...". */
  lemma ReduceTextDocExample()
    ensures ReduceText("123456", Some(3)) == "..."
    ensures ReduceText("123456", Some(3)) != "123..."
  {
  }

  // ------------------------------------------------------------ toLocaleString

  /** From 10^21 on, `toFixed` switches to exponent notation; the model stops below it. */
  const FixedLimit: nat := 1_000_000_000_000_000_000_000

  /** `n.toFixed(2)` for a non-negative integer below 10^21: its digits, then ".00". */
  function ToFixed2(n: nat): (s: string)
    requires n < FixedLimit
  {
    NatToString(n) + ".00"
  }

  /** The lookahead `(?=(\d{2})+\d\.)`: one or more pairs of digits, then a digit and a '.'. */
  predicate PairsDigitDot(t: string)
    decreases |t|
  {
    |t| >= 4 && IsDigit(t[0]) && IsDigit(t[1]) &&
    ((IsDigit(t[2]) && t[3] == '.') || PairsDigitDot(t[2..]))
  }

  /** `replace(/(\d)(?=(\d{2})+\d\.)/g, '$1,')`: a comma after every digit the lookahead accepts. */
  function InsertCommas(s: string): string
  {
    if s == [] then []
    else (if IsDigit(s[0]) && PairsDigitDot(s[1..]) then [s[0], ','] else [s[0]]) + InsertCommas(s[1..])
  }

  /** `split('.')[0]`: everything before the first '.'. */
  function BeforeDot(s: string): (r: string)
    ensures '.' !in r
    ensures '.' !in s ==> r == s
  {
    if s == [] then [] else if s[0] == '.' then [] else [s[0]] + BeforeDot(s[1..])
  }

  /** `toLocaleString(n)` for a non-negative integer `n` below 10^21. */
  function ToLocaleString(n: nat): (r: string)
    requires n < FixedLimit
    ensures '.' !in r
  {
    BeforeDot(InsertCommas(ToFixed2(n)))
  }

  function RemoveCommas(s: string): (r: string)
    ensures ',' !in r
  {
    if s == [] then [] else (if s[0] == ',' then [] else [s[0]]) + RemoveCommas(s[1..])
  }

  /** The reference grouping: the last three digits, and pairs before them, joined by commas. */
  function IndianGrouping(ds: string): string
  {
    if |ds| <= 3 then ds else Pairs(ds[..|ds| - 3]) + "," + ds[|ds| - 3..]
  }

  /** Groups of two counted from the right, joined by commas. */
  function Pairs(p: string): string
    decreases |p|
  {
    if |p| <= 2 then p else Pairs(p[..|p| - 2]) + "," + p[|p| - 2..]
  }

  /** What the global replace writes after a digit with `r` more digits before the '.' (`t` of them not in view). */
  function Sep(r: nat): string
  {
    if r >= 3 && r % 2 == 1 then "," else ""
  }

  /** Each digit of `ds`, followed by a comma when the digits after it, plus `t`, are an odd number of at least 3. */
  function Grouped(ds: string, t: nat): string
  {
    if ds == [] then [] else [ds[0]] + Sep(|ds| - 1 + t) + Grouped(ds[1..], t)
  }

  /** The lookahead, over digits followed by ".00", accepts exactly an odd number of at least three digits. */
  lemma {:induction false} LookaheadOnDigits(u: string)
    requires AllDigits(u)
    ensures PairsDigitDot(u + ".00") <==> |u| >= 3 && |u| % 2 == 1
  {
    var t := u + ".00";
    if |u| >= 3 {
      assert t[2..] == u[2..] + ".00";
      LookaheadOnDigits(u[2..]);
    } else if |u| == 2 {
      assert !IsDigit(t[2]);
      assert !PairsDigitDot(t[2..]);
    } else {
      assert !IsDigit(t[|u|]);
    }
  }

  lemma {:induction false} InsertCommasOnFixed(ds: string)
    requires AllDigits(ds)
    ensures InsertCommas(ds + ".00") == Grouped(ds, 0) + ".00"
  {
    var s := ds + ".00";
    if ds == [] {
      assert s == ".00";
      assert InsertCommas("0") == "0";
      assert InsertCommas("00") == "00";
      assert InsertCommas(".00") == "." + InsertCommas("00");
    } else {
      assert s[1..] == ds[1..] + ".00";
      LookaheadOnDigits(ds[1..]);
      InsertCommasOnFixed(ds[1..]);
    }
  }

  lemma {:induction false} GroupedHasNoDot(ds: string, t: nat)
    requires AllDigits(ds)
    ensures '.' !in Grouped(ds, t)
  {
    if ds != [] {
      GroupedHasNoDot(ds[1..], t);
    }
  }

  lemma {:induction false} BeforeDotAppend(g: string, tail: string)
    requires '.' !in g
    requires tail != [] && tail[0] == '.'
    ensures BeforeDot(g + tail) == g
  {
    if g != [] {
      assert (g + tail)[1..] == g[1..] + tail;
      BeforeDotAppend(g[1..], tail);
    }
  }

  /** `toLocaleString` puts one comma after each digit followed by an odd number (at least 3) of digits. */
  lemma ToLocaleStringGrouped(n: nat)
    requires n < FixedLimit
    ensures ToLocaleString(n) == Grouped(NatToString(n), 0)
  {
    var ds := NatToString(n);
    InsertCommasOnFixed(ds);
    GroupedHasNoDot(ds, 0);
    BeforeDotAppend(Grouped(ds, 0), ".00");
  }

  lemma {:induction false} RemoveCommasGrouped(ds: string, t: nat)
    requires AllDigits(ds)
    ensures RemoveCommas(Grouped(ds, t)) == ds
  {
    if ds != [] {
      var g := Grouped(ds, t);
      RemoveCommasAppend([ds[0]] + Sep(|ds| - 1 + t), Grouped(ds[1..], t));
      RemoveCommasGrouped(ds[1..], t);
    }
  }

  lemma {:induction false} RemoveCommasAppend(a: string, b: string)
    ensures RemoveCommas(a + b) == RemoveCommas(a) + RemoveCommas(b)
  {
    if a == [] {
      assert a + b == b;
    } else {
      assert (a + b)[0] == a[0];
      assert (a + b)[1..] == a[1..] + b;
      RemoveCommasAppend(a[1..], b);
    }
  }

  /** The output has no decimal point, and dropping its commas leaves exactly the decimal digits of `n`. */
  lemma ToLocaleStringDigits(n: nat)
    requires n < FixedLimit
    ensures '.' !in ToLocaleString(n)
    ensures RemoveCommas(ToLocaleString(n)) == NatToString(n)
  {
    ToLocaleStringGrouped(n);
    RemoveCommasGrouped(NatToString(n), 0);
  }

  lemma {:induction false} GroupedAppend(a: string, b: string, t: nat)
    ensures Grouped(a + b, t) == Grouped(a, |b| + t) + Grouped(b, t)
  {
    if a == [] {
      assert a + b == b;
    } else {
      assert (a + b)[0] == a[0];
      assert (a + b)[1..] == a[1..] + b;
      assert |a + b| - 1 + t == |a| - 1 + (|b| + t);
      GroupedAppend(a[1..], b, t);
    }
  }

  lemma {:induction false} GroupedShift(a: string, t: nat)
    requires t >= 3
    ensures Grouped(a, t) == Grouped(a, t + 2)
  {
    if a != [] {
      GroupedShift(a[1..], t);
    }
  }

  lemma {:induction false} GroupedPairs(p: string)
    requires 1 <= |p|
    ensures Grouped(p, 3) == Pairs(p) + ","
    decreases |p|
  {
    if |p| == 1 {
      assert Grouped(p, 3) == [p[0]] + "," + Grouped([], 3);
    } else if |p| == 2 {
      assert Grouped(p[1..], 3) == [p[1]] + ",";
    } else {
      var q, two := p[..|p| - 2], p[|p| - 2..];
      assert p == q + two;
      GroupedAppend(q, two, 3);
      GroupedShift(q, 3);
      GroupedPairs(q);
      assert Grouped(two[1..], 3) == [two[1]] + ",";
      assert Grouped(two, 3) == two + ",";
    }
  }

  lemma {:induction false} GroupedShort(ds: string)
    requires |ds| <= 3
    ensures Grouped(ds, 0) == ds
  {
    if ds != [] {
      GroupedShort(ds[1..]);
    }
  }

  /** The comma placement is Indian grouping. */
  lemma {:induction false} GroupedIsIndian(ds: string)
    ensures Grouped(ds, 0) == IndianGrouping(ds)
  {
    if |ds| <= 3 {
      GroupedShort(ds);
    } else {
      var p, s3 := ds[..|ds| - 3], ds[|ds| - 3..];
      assert ds == p + s3;
      calc {
        Grouped(ds, 0);
        { GroupedAppend(p, s3, 0); }
        Grouped(p, 3) + Grouped(s3, 0);
        { GroupedPairs(p); GroupedShort(s3); }
        Pairs(p) + "," + s3;
      }
    }
  }

  /**
   * `toLocaleString` prints `n` with Indian grouping, and it writes a comma
   * exactly when `n` is 1000 or more.
   */
  lemma ToLocaleStringIndian(n: nat)
    requires n < FixedLimit
    ensures ToLocaleString(n) == IndianGrouping(NatToString(n))
    ensures ',' in ToLocaleString(n) <==> n >= 1000
  {
    var ds := NatToString(n);
    ToLocaleStringGrouped(n);
    GroupedIsIndian(ds);
    LengthBound(n, 3);
    if |ds| > 3 {
      var r := IndianGrouping(ds);
      assert r[|Pairs(ds[..|ds| - 3])|] == ',';
    } else {
      assert ',' !in ds;
    }
  }

  /** The example the library's users rely on. */
  lemma {:induction false} ToLocaleStringExample(n: nat)
    requires n == 1234567
    ensures ToLocaleString(n) == "12,34,567"
  {
    ToLocaleStringIndian(n);
    PrintExample(n);
    IndianExample(NatToString(n));
  }

  lemma PrintExample(n: nat)
    requires n == 1234567
    ensures NatToString(n) == "1234567"
  {
    assert NatToString(1) == "1";
    assert NatToString(12) == "12";
    assert NatToString(123) == "123";
    assert NatToString(1234) == "1234";
    assert NatToString(12345) == "12345";
    assert NatToString(123456) == "123456";
  }

  lemma IndianExample(ds: string)
    requires ds == "1234567"
    ensures IndianGrouping(ds) == "12,34,567"
  {
    assert ds[..4] == "1234" && ds[4..] == "567";
    assert Pairs("1234") == "12,34";
  }
}
