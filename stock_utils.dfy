/** The front end's computational helpers (lib/utils.ts): summary statistics of a return
    series, the compounded-return series, class-name joining and the ticker colour table. */
module StockUtils {
  import opened Common
  import opened StockTypes
  import Rounding

  // ---------------------------------------------------------------- summary statistics

  /** `data.map(point => point.return)` */
  function Returns(data: seq<StockDataPoint>): (rs: seq<real>)
    ensures |rs| == |data|
    ensures forall i :: 0 <= i < |data| ==> rs[i] == data[i].ret
  {
    if data == [] then [] else [data[0].ret] + Returns(data[1..])
  }

  function Min(a: real, b: real): real { if a <= b then a else b }
  function Max(a: real, b: real): real { if a >= b then a else b }

  /** `Math.min(...s)` for a non-empty s. */
  function SeqMin(s: seq<real>): (m: real)
    requires |s| > 0
    ensures m in s
    ensures forall i :: 0 <= i < |s| ==> m <= s[i]
  {
    if |s| == 1 then s[0]
    else
      var init := s[..|s| - 1];
      assert s == init + [s[|s| - 1]];
      Min(SeqMin(init), s[|s| - 1])
  }

  /** `Math.max(...s)` for a non-empty s. */
  function SeqMax(s: seq<real>): (m: real)
    requires |s| > 0
    ensures m in s
    ensures forall i :: 0 <= i < |s| ==> s[i] <= m
  {
    if |s| == 1 then s[0]
    else
      var init := s[..|s| - 1];
      assert s == init + [s[|s| - 1]];
      Max(SeqMax(init), s[|s| - 1])
  }

  /** `s.reduce((sum, value) => sum + value, 0)`, folded from the left. */
  function Sum(s: seq<real>): real {
    if s == [] then 0.0 else Sum(s[..|s| - 1]) + s[|s| - 1]
  }

  /** Bounds on every element bound the sum. */
  lemma {:induction false} SumBetween(s: seq<real>, lo: real, hi: real)
    requires forall i :: 0 <= i < |s| ==> lo <= s[i] <= hi
    ensures |s| as real * lo <= Sum(s) <= |s| as real * hi
  {
    if s != [] {
      var init := s[..|s| - 1];
      SumBetween(init, lo, hi);
      assert |s| as real * lo == |init| as real * lo + lo;
      assert |s| as real * hi == |init| as real * hi + hi;
    }
  }

  /** `sum / returns.length` */
  function Mean(s: seq<real>): (m: real)
    requires |s| > 0
    ensures m * |s| as real == Sum(s)
  {
    Sum(s) / |s| as real
  }

  /** The arithmetic mean of a non-empty series lies within any bounds of its elements. */
  lemma MeanWithin(s: seq<real>, lo: real, hi: real)
    requires |s| > 0
    requires forall i :: 0 <= i < |s| ==> lo <= s[i] <= hi
    ensures lo <= Mean(s) <= hi
  {
    SumBetween(s, lo, hi);
    DivBetween(Sum(s), |s| as real, lo, hi);
  }

  lemma DivBetween(sum: real, n: real, lo: real, hi: real)
    requires n > 0.0 && n * lo <= sum <= n * hi
    ensures lo <= sum / n <= hi
  {
  }

  /** A summary's min, max and mean. */
  datatype Stats = Stats(min: real, max: real, mean: real)

  /** `Number(x.toFixed(4))`: within half of the fourth decimal place of x. */
  function Round4(x: real): (r: real)
    ensures -0.00005 <= r - x <= 0.00005
  {
    assert Rounding.Pow10(4) == 10000;
    Rounding.ToFixed(x, 4)
  }

  /** calculateSummaryStats: all zero for an empty series, otherwise min, max and mean of the
      returns, each rounded to four decimals. */
  function CalculateSummaryStats(data: seq<StockDataPoint>): (r: Stats)
    ensures data == [] ==> r == Stats(0.0, 0.0, 0.0)
    ensures data != [] ==> r.min <= r.mean <= r.max
    ensures data != [] ==> -0.00005 <= r.mean - Mean(Returns(data)) <= 0.00005
    ensures data != [] ==> exists i :: 0 <= i < |data| && r.min == Round4(data[i].ret)
    ensures data != [] ==> exists i :: 0 <= i < |data| && r.max == Round4(data[i].ret)
    ensures forall i :: 0 <= i < |data| ==> r.min <= Round4(data[i].ret) <= r.max
  {
    if |data| == 0 then Stats(0.0, 0.0, 0.0)
    else
      var rs := Returns(data);
      var min, max, mean := SeqMin(rs), SeqMax(rs), Mean(rs);
      MeanWithin(rs, min, max);
      Rounding.ToFixedMonotone(min, mean, 4);
      Rounding.ToFixedMonotone(mean, max, 4);
      RoundedBounds(data, min, max);
      Stats(Round4(min), Round4(max), Round4(mean))
  }

  lemma RoundedBounds(data: seq<StockDataPoint>, min: real, max: real)
    requires forall i :: 0 <= i < |data| ==> min <= data[i].ret <= max
    ensures forall i :: 0 <= i < |data| ==> Round4(min) <= Round4(data[i].ret) <= Round4(max)
  {
    forall i | 0 <= i < |data| ensures Round4(min) <= Round4(data[i].ret) <= Round4(max) {
      Rounding.ToFixedMonotone(min, data[i].ret, 4);
      Rounding.ToFixedMonotone(data[i].ret, max, 4);
    }
  }

  /** Before rounding, min and max are returns of the series bounding all of them, and the
      mean (the sum over the length) lies between them. */
  lemma SummaryBeforeRounding(data: seq<StockDataPoint>)
    requires |data| > 0
    ensures exists i :: 0 <= i < |data| && SeqMin(Returns(data)) == data[i].ret
    ensures exists i :: 0 <= i < |data| && SeqMax(Returns(data)) == data[i].ret
    ensures forall i :: 0 <= i < |data| ==> SeqMin(Returns(data)) <= data[i].ret <= SeqMax(Returns(data))
    ensures SeqMin(Returns(data)) <= Mean(Returns(data)) <= SeqMax(Returns(data))
  {
    var rs := Returns(data);
    var lo, hi := SeqMin(rs), SeqMax(rs);
    MeanWithin(rs, lo, hi);
    var i :| 0 <= i < |rs| && rs[i] == lo;
    var j :| 0 <= j < |rs| && rs[j] == hi;
    assert data[i].ret == lo && data[j].ret == hi;
  }

  /** The summary is the four-decimal rounding of min, max and mean of the returns. */
  lemma SummaryOfReturns(data: seq<StockDataPoint>)
    requires |data| > 0
    ensures var rs := Returns(data);
      CalculateSummaryStats(data) == Stats(Round4(SeqMin(rs)), Round4(SeqMax(rs)), Round4(Mean(rs)))
  {
  }

  /** A value with at most four decimals is kept as it is. */
  lemma Round4Exact(n: int, x: real)
    requires x == n as real / 10000.0
    ensures Round4(x) == x
  {
    assert Rounding.Pow10(4) == 10000;
    Rounding.ToFixedExact(n, 4);
  }

  /** Returns of 10% and -5% summarise to min -5%, max 10% and mean 2.5%. */
  lemma SummaryExample(d1: string, d2: string)
    ensures CalculateSummaryStats([StockDataPoint(d1, 0.10), StockDataPoint(d2, -0.05)]) == Stats(-0.05, 0.10, 0.025)
  {
    var data := [StockDataPoint(d1, 0.10), StockDataPoint(d2, -0.05)];
    var rs := Returns(data);
    assert rs == [0.10, -0.05];
    assert SeqMin(rs) == -0.05 && SeqMax(rs) == 0.10;
    assert Sum(rs) == 0.05 by {
      assert rs[..1] == [0.10] && rs[..1][..0] == [];
      assert Sum([0.10]) == 0.10;
    }
    assert Mean(rs) == 0.025;
    SummaryOfReturns(data);
    Round4Exact(-500, -0.05);
    Round4Exact(1000, 0.10);
    Round4Exact(250, 0.025);
  }

  // ---------------------------------------------------------------- compounding

  /** The compounded factor after the returns in s: the product of (1 + r) over s, from 1. */
  function Growth(s: seq<real>): (g: real)
    ensures (forall i :: 0 <= i < |s| ==> s[i] > -1.0) ==> g > 0.0
  {
    if s == [] then 1.0 else Growth(s[..|s| - 1]) * (1.0 + s[|s| - 1])
  }

  /** Entry i is the cumulative compounded return through day i. */
  function Compounded(s: seq<real>): (c: seq<real>)
    ensures |c| == |s|
    ensures forall i :: 0 <= i < |s| ==> c[i] == Growth(s[..i + 1]) - 1.0
  {
    seq(|s|, i requires 0 <= i < |s| => Growth(s[..i + 1]) - 1.0)
  }

  /** calculateCompoundedReturns: a running factor, multiplied by (1 + return) for each point
      in order, with factor - 1 pushed after each step. */
  method CalculateCompoundedReturns(data: seq<StockDataPoint>) returns (compoundedReturns: seq<real>)
    ensures compoundedReturns == Compounded(Returns(data))
  {
    ghost var rs := Returns(data);
    compoundedReturns := [];
    var compoundedFactor := 1.0;
    for i := 0 to |data|
      invariant compoundedFactor == Growth(rs[..i])
      invariant |compoundedReturns| == i
      invariant forall j :: 0 <= j < i ==> compoundedReturns[j] == Growth(rs[..j + 1]) - 1.0
    {
      assert rs[..i + 1][..i] == rs[..i];
      compoundedFactor := compoundedFactor * (1.0 + data[i].ret);
      compoundedReturns := compoundedReturns + [compoundedFactor - 1.0];
    }
  }

  /** 1 + out[i] = (1 + out[i-1]) * (1 + r_i), starting from the factor 1. */
  lemma CompoundedStep(s: seq<real>, i: nat)
    requires i < |s|
    ensures 1.0 + Compounded(s)[i] == (if i == 0 then 1.0 else 1.0 + Compounded(s)[i - 1]) * (1.0 + s[i])
  {
    assert s[..i + 1][..i] == s[..i];
    assert Growth(s[..i + 1]) == Growth(s[..i]) * (1.0 + s[i]);
    if i == 0 {
      assert s[..0] == [];
    }
  }

  /** Compounding a prefix gives the prefix of the compounded series. */
  lemma CompoundedPrefix(s: seq<real>, k: nat)
    requires k <= |s|
    ensures Compounded(s[..k]) == Compounded(s)[..k]
  {
    forall i | 0 <= i < k ensures Compounded(s[..k])[i] == Compounded(s)[i] {
      assert s[..k][..i + 1] == s[..i + 1];
    }
  }

  /** The compounded series of an empty series is empty, and only then. */
  lemma CompoundedEmptyIff(data: seq<StockDataPoint>)
    ensures Compounded(Returns(data)) == [] <==> data == []
  {
  }

  /** A 10% gain followed by a 5% loss leaves a 4.5% cumulative gain. */
  lemma CompoundedExample()
    ensures Compounded([0.10, -0.05]) == [0.10, 0.045]
  {
    var s := [0.10, -0.05];
    assert s[..1] == [0.10] && s[..1][..0] == [];
    assert s[..2] == s && s[..2][..1] == [0.10];
    assert Growth(s[..1]) == 1.1;
  }

  // ---------------------------------------------------------------- cn

  /** One argument of `cn`: a string, or one of the falsy non-strings it accepts. */
  datatype ClassValue = Class(name: string) | Undefined | Null | False

  /** `Boolean(c)`: only a non-empty string is truthy. */
  predicate Truthy(c: ClassValue) {
    c.Class? && c.name != ""
  }

  /** `classes.filter(Boolean)`, as the strings it keeps. */
  function KeepTruthy(classes: seq<ClassValue>): (kept: seq<string>)
    ensures |kept| <= |classes|
    ensures forall s :: s in kept <==> (s != "" && Class(s) in classes)
  {
    if classes == [] then []
    else (if Truthy(classes[0]) then [classes[0].name] else []) + KeepTruthy(classes[1..])
  }

  /** `parts.join(sep)` */
  function Join(parts: seq<string>, sep: string): (r: string)
    ensures parts == [] ==> r == ""
    ensures parts != [] ==> |r| >= |parts[0]|
  {
    if parts == [] then ""
    else if |parts| == 1 then parts[0]
    else parts[0] + sep + Join(parts[1..], sep)
  }

  /** cn: the truthy arguments, in order, separated by single spaces. */
  function Cn(classes: seq<ClassValue>): (r: string)
    ensures r == "" <==> forall i :: 0 <= i < |classes| ==> !Truthy(classes[i])
  {
    var kept := KeepTruthy(classes);
    assert kept != [] ==> kept[0] in kept;
    assert (exists i :: 0 <= i < |classes| && Truthy(classes[i])) ==> kept != [] by {
      if i :| 0 <= i < |classes| && Truthy(classes[i]) {
        assert classes[i] == Class(classes[i].name);
        assert classes[i].name in kept;
      }
    }
    Join(kept, " ")
  }

  lemma {:induction false} KeepTruthyAppend(a: seq<ClassValue>, b: seq<ClassValue>)
    ensures KeepTruthy(a + b) == KeepTruthy(a) + KeepTruthy(b)
  {
    if a == [] {
      assert a + b == b;
    } else {
      assert (a + b)[0] == a[0] && (a + b)[1..] == a[1..] + b;
      KeepTruthyAppend(a[1..], b);
    }
  }

  lemma {:induction false} JoinAppend(x: seq<string>, y: seq<string>, sep: string)
    requires x != [] && y != []
    ensures Join(x + y, sep) == Join(x, sep) + sep + Join(y, sep)
  {
    assert (x + y)[0] == x[0];
    if |x| > 1 {
      assert (x + y)[1..] == x[1..] + y;
      JoinAppend(x[1..], y, sep);
    }
  }

  /** cn of two argument lists joined is the two results joined by one space, where both
      keep something. */
  lemma CnAppend(a: seq<ClassValue>, b: seq<ClassValue>)
    ensures Cn(a + b) ==
      if KeepTruthy(a) == [] then Cn(b)
      else if KeepTruthy(b) == [] then Cn(a)
      else Cn(a) + " " + Cn(b)
  {
    KeepTruthyAppend(a, b);
    if KeepTruthy(a) != [] && KeepTruthy(b) != [] {
      JoinAppend(KeepTruthy(a), KeepTruthy(b), " ");
    } else if KeepTruthy(a) == [] {
      assert KeepTruthy(a + b) == KeepTruthy(b);
    } else {
      assert KeepTruthy(a + b) == KeepTruthy(a);
    }
  }

  /** A falsy argument (`""`, `undefined`, `null`, `false`) anywhere changes nothing. */
  lemma CnDropsFalsy(a: seq<ClassValue>, c: ClassValue, b: seq<ClassValue>)
    requires !Truthy(c)
    ensures Cn(a + [c] + b) == Cn(a + b)
  {
    assert KeepTruthy([c]) == [] by {
      assert [c][1..] == [];
    }
    calc {
      KeepTruthy(a + [c] + b);
      { KeepTruthyAppend(a + [c], b); }
      KeepTruthy(a + [c]) + KeepTruthy(b);
      { KeepTruthyAppend(a, [c]); }
      KeepTruthy(a) + KeepTruthy([c]) + KeepTruthy(b);
      { assert KeepTruthy(a) + [] == KeepTruthy(a); }
      KeepTruthy(a) + KeepTruthy(b);
      { KeepTruthyAppend(a, b); }
      KeepTruthy(a + b);
    }
  }

  /** `s.split(sep)` for a one-character separator. */
  function Split(s: string, sep: char): (parts: seq<string>)
    ensures |parts| >= 1
  {
    if sep !in s then [s]
    else
      var i := IndexOf(s, sep);
      [s[..i]] + Split(s[i + 1..], sep)
  }

  function IndexOf(s: string, c: char): (i: nat)
    requires c in s
    ensures i < |s| && s[i] == c && c !in s[..i]
  {
    if s[0] == c then 0 else 1 + IndexOf(s[1..], c)
  }

  /** Splitting cn's result at spaces gives back the kept class names, when none of them
      contains a space. */
  lemma {:induction false} SplitJoin(parts: seq<string>)
    requires parts != []
    requires forall i :: 0 <= i < |parts| ==> ' ' !in parts[i]
    ensures Split(Join(parts, " "), ' ') == parts
  {
    if |parts| > 1 {
      var p, rest := parts[0], Join(parts[1..], " ");
      var s := p + " " + rest;
      assert s[..|p|] == p && s[|p|] == ' ';
      assert IndexOf(s, ' ') == |p| by {
        IndexOfFirst(s, ' ', |p|);
      }
      assert s[|p| + 1..] == rest;
      SplitJoin(parts[1..]);
    }
  }

  lemma IndexOfFirst(s: string, c: char, k: nat)
    requires k < |s| && s[k] == c && c !in s[..k]
    ensures IndexOf(s, c) == k
  {
  }

  // ---------------------------------------------------------------- getStockColor

  const STOCK_COLORS: seq<(string, string)> := [
    ("MSFT", "#00a4ef"), ("AAPL", "#a2aaad"), ("GOOGL", "#4285f4"), ("AMZN", "#ff9900"),
    ("NVDA", "#76b900"), ("META", "#0668E1"), ("TSLA", "#cc0000")]

  const DEFAULT_COLOR: string := "#6b7280"

  function TableColor(table: seq<(string, string)>, ticker: string): (r: Option<string>)
    ensures r.None? <==> forall i :: 0 <= i < |table| ==> table[i].0 != ticker
    ensures r.Some? ==> exists i :: 0 <= i < |table| && table[i] == (ticker, r.value)
  {
    if table == [] then None
    else if table[0].0 == ticker then Some(table[0].1)
    else TableColor(table[1..], ticker)
  }

  /** getStockColor, reading only the colour table's own entries: the table colour of the
      seven tickers, the grey default for every other string. */
  function GetStockColor(ticker: string): (color: string)
    ensures forall i :: 0 <= i < |STOCK_COLORS| && STOCK_COLORS[i].0 == ticker ==> color == STOCK_COLORS[i].1
    ensures ticker !in MAG7_TICKERS ==> color == DEFAULT_COLOR
    ensures |color| == 7 && color[0] == '#'
  {
    assert forall i :: 0 <= i < |STOCK_COLORS| ==> STOCK_COLORS[i].0 == MAG7_TICKERS[i];
    match TableColor(STOCK_COLORS, ticker)
    case Some(c) => c
    case None => DEFAULT_COLOR
  }

  /** Ticker i of the seven gets colour i of the table, and no two of them share a colour. */
  lemma TickerColors(i: nat, j: nat)
    requires i < |MAG7_TICKERS| && j < |MAG7_TICKERS| && i != j
    ensures GetStockColor(MAG7_TICKERS[i]) == STOCK_COLORS[i].1
    ensures GetStockColor(MAG7_TICKERS[i]) != GetStockColor(MAG7_TICKERS[j])
  {
    assert STOCK_COLORS[i].0 == MAG7_TICKERS[i] && STOCK_COLORS[j].0 == MAG7_TICKERS[j];
    assert STOCK_COLORS[i].1[1] != STOCK_COLORS[j].1[1] || STOCK_COLORS[i].1[2] != STOCK_COLORS[j].1[2];
  }

  // The lookup as written: `colors[ticker]` on an object literal also finds the members every
  // object inherits from Object.prototype.

  /** What a JavaScript property read can produce here. */
  datatype JsValue = JsString(s: string) | JsFunction(name: string) | JsObject | JsUndefined

  predicate JsTruthy(v: JsValue) {
    match v
    case JsString(s) => s != ""
    case JsUndefined => false
    case _ => true
  }

  /** Members every plain object inherits (all functions, except `__proto__`, an object). */
  const OBJECT_PROTOTYPE_METHODS: seq<string> := [
    "constructor", "hasOwnProperty", "isPrototypeOf", "propertyIsEnumerable",
    "toLocaleString", "toString", "valueOf",
    "__defineGetter__", "__defineSetter__", "__lookupGetter__", "__lookupSetter__"]

  function ColorsProperty(ticker: string): JsValue {
    match TableColor(STOCK_COLORS, ticker)
    case Some(c) => JsString(c)
    case None =>
      if ticker in OBJECT_PROTOTYPE_METHODS then JsFunction(ticker)
      else if ticker == "__proto__" then JsObject
      else JsUndefined
  }

  /** `colors[ticker] || '#6b7280'` as written. */
  function GetStockColorAsWritten(ticker: string): (v: JsValue)
    ensures ticker !in MAG7_TICKERS && ticker !in OBJECT_PROTOTYPE_METHODS && ticker != "__proto__" ==>
      v == JsString(GetStockColor(ticker))
  {
    var p := ColorsProperty(ticker);
    if JsTruthy(p) then p else JsString(DEFAULT_COLOR)
  }

  /** The as-written lookup agrees with GetStockColor on the seven tickers. */
  lemma AsWrittenAgreesOnTickers(ticker: string)
    requires ticker in MAG7_TICKERS
    ensures GetStockColorAsWritten(ticker) == JsString(GetStockColor(ticker))
  {
  }

  /** ...but for "toString" it returns an inherited function instead of a colour. */
  lemma AsWrittenReturnsInheritedMember()
    ensures GetStockColorAsWritten("toString") == JsFunction("toString")
    ensures GetStockColor("toString") == DEFAULT_COLOR
  {
    assert "toString" in OBJECT_PROTOTYPE_METHODS;
  }
}
