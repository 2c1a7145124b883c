/** `computePortfolioStats`: total value, per-symbol rows sorted by
    weight, per-asset-class buckets sorted by weight, the top symbols and
    the top-1 / top-3 concentration. `StatsOf` is the specification,
    `ComputePortfolioStats` the step-by-step computation (in-place sorts,
    a dictionary filled in a loop), and the lemmas state what the
    statistics mean. */
module Stats {
  import opened Seqs
  import opened OrderedMaps
  import opened StableSort
  import opened PortfolioTypes

  /** `shares * (price ?? 0)`: a missing price counts as zero. */
  function HoldingValue(h: Holding): real {
    h.shares * h.price.GetOr(0.0)
  }

  function TotalValue(hs: seq<Holding>): real {
    SumBy(hs, HoldingValue)
  }

  /** The bucket of a holding: its asset class, or "UNKNOWN". */
  function ClassOf(h: Holding): string {
    h.assetClass.GetOr("UNKNOWN")
  }

  /** `value / totalValue`, with 0 standing in for the non-finite
      quotient a zero total produces. */
  function Weight(value: real, total: real): real {
    if total == 0.0 then 0.0 else value / total
  }

  function RowOf(h: Holding, total: real): SymbolRow {
    SymbolRow(h.symbol, HoldingValue(h), Weight(HoldingValue(h), total), h.assetClass)
  }

  /** `holdings.map(...)`: one row per holding, in input order. */
  function Rows(hs: seq<Holding>, total: real): (rows: seq<SymbolRow>)
    ensures |rows| == |hs|
    ensures forall i :: 0 <= i < |hs| ==> rows[i] == RowOf(hs[i], total)
  {
    if hs == [] then [] else Rows(Init(hs), total) + [RowOf(Last(hs), total)]
  }

  function RowWeight(r: SymbolRow): real { r.weight }
  function RowValue(r: SymbolRow): real { r.value }
  function RowSymbol(r: SymbolRow): string { r.symbol }
  function ClassWeight(c: ClassRow): real { c.weight }
  function ClassValue(c: ClassRow): real { c.value }
  function ClassName(c: ClassRow): string { c.assetClass }
  function EntryValue(e: Entry<real>): real { e.value }

  /** The comparator `(a, b) => b.weight - a.weight`: heavier rows first. */
  predicate HeavierRow(a: SymbolRow, b: SymbolRow) {
    a.weight > b.weight
  }

  predicate HeavierClass(a: ClassRow, b: ClassRow) {
    a.weight > b.weight
  }

  /** `mapByClass[ac] = mapByClass[ac] ?? { value: 0 }; mapByClass[ac].value += value`. */
  function AddTo(m: OrderedMap<real>, k: string, v: real): OrderedMap<real> {
    Put(m, k, Get(m, k).GetOr(0.0) + v)
  }

  /** The class dictionary after the loop has visited every holding of `hs`. */
  function ClassTotals(hs: seq<Holding>): OrderedMap<real> {
    if hs == [] then [] else AddTo(ClassTotals(Init(hs)), ClassOf(Last(hs)), HoldingValue(Last(hs)))
  }

  /** `Object.entries(mapByClass).map(...)`. */
  function ClassRows(m: OrderedMap<real>, total: real): (rows: seq<ClassRow>)
    ensures |rows| == |m|
    ensures forall i :: 0 <= i < |m| ==> rows[i] == ClassRow(m[i].key, m[i].value, Weight(m[i].value, total))
  {
    if m == [] then [] else ClassRows(Init(m), total) + [ClassRow(Last(m).key, Last(m).value, Weight(Last(m).value, total))]
  }

  function BySymbol(hs: seq<Holding>): seq<SymbolRow> {
    SortBy(Rows(hs, TotalValue(hs)), HeavierRow)
  }

  function ByAssetClass(hs: seq<Holding>): seq<ClassRow> {
    SortBy(ClassRows(ClassTotals(hs), TotalValue(hs)), HeavierClass)
  }

  /** `bySymbol[0]?.weight ?? 0`. */
  function Top1(rows: seq<SymbolRow>): real {
    if |rows| > 0 then rows[0].weight else 0.0
  }

  /** The statistics `computePortfolioStats` returns, or the error it throws. */
  function StatsOf(hs: seq<Holding>): (r: Result<PortfolioStats>)
    ensures r.Failure? <==> hs == []
    ensures r.Failure? ==> r.error == "No holdings provided"
  {
    if hs == [] then Failure("No holdings provided")
    else
      var bySymbol := BySymbol(hs);
      Success(PortfolioStats(
        TotalValue(hs),
        bySymbol,
        ByAssetClass(hs),
        MapSeq(SliceTo(bySymbol, 5), RowSymbol),
        Top1(bySymbol),
        SumBy(SliceTo(bySymbol, 3), RowWeight)))
  }

  /** `computePortfolioStats(holdings)`. */
  method ComputePortfolioStats(holdings: seq<Holding>) returns (r: Result<PortfolioStats>)
    ensures r == StatsOf(holdings)
  {
    if |holdings| == 0 {
      return Failure("No holdings provided");
    }
    var totalValue := TotalValue(holdings);

    var bySymbol := ToArray(Rows(holdings, totalValue));
    SortInPlace(bySymbol, HeavierRow);

    var mapByClass := BuildClassTotals(holdings);

    var byAssetClass := ToArray(ClassRows(mapByClass, totalValue));
    SortInPlace(byAssetClass, HeavierClass);

    var rows := bySymbol[..];
    var concentrationTop1 := if bySymbol.Length > 0 then bySymbol[0].weight else 0.0;
    var concentrationTop3 := SumBy(SliceTo(rows, 3), RowWeight);
    var topSymbols := MapSeq(SliceTo(rows, 5), RowSymbol);
    r := Success(PortfolioStats(totalValue, rows, byAssetClass[..], topSymbols, concentrationTop1, concentrationTop3));
  }

  /** The loop filling `mapByClass`, one holding at a time. */
  method BuildClassTotals(holdings: seq<Holding>) returns (mapByClass: OrderedMap<real>)
    ensures mapByClass == ClassTotals(holdings)
  {
    mapByClass := [];
    for i := 0 to |holdings|
      invariant mapByClass == ClassTotals(holdings[..i])
    {
      assert Init(holdings[..i + 1]) == holdings[..i];
      var h := holdings[i];
      mapByClass := AddTo(mapByClass, ClassOf(h), HoldingValue(h));
    }
    assert holdings[..|holdings|] == holdings;
  }

  // ----- what the statistics mean -----

  lemma HeavierRowOrder()
    ensures StrictWeakOrder(HeavierRow)
  {
  }

  lemma HeavierClassOrder()
    ensures StrictWeakOrder(HeavierClass)
  {
  }

  lemma DivAdd(a: real, b: real, t: real)
    requires t != 0.0
    ensures a / t + b / t == (a + b) / t
  {
  }

  lemma DivSelf(t: real)
    requires t != 0.0
    ensures t / t == 1.0
  {
  }

  /** Sum of the weights of the rows, divided out. */
  lemma RowsWeightSum(hs: seq<Holding>, total: real)
    requires total != 0.0
    ensures SumBy(Rows(hs, total), RowWeight) == TotalValue(hs) / total
  {
    WeightsSum(Rows(hs, total), total);
    RowsValueSum(hs, total);
  }

  /** Rows whose weights are their values over `total`: the weights add
      up to the summed value over `total`. */
  lemma {:induction false} WeightsSum(rows: seq<SymbolRow>, total: real)
    requires total != 0.0
    requires forall i :: 0 <= i < |rows| ==> rows[i].weight == rows[i].value / total
    ensures SumBy(rows, RowWeight) == SumBy(rows, RowValue) / total
  {
    if rows != [] {
      var a, v := SumBy(Init(rows), RowValue), Last(rows).value;
      assert forall i :: 0 <= i < |rows| - 1 ==> Init(rows)[i] == rows[i];
      WeightsSum(Init(rows), total);
      DivAdd(a, v, total);
    }
  }

  lemma {:induction false} RowsValueSum(hs: seq<Holding>, total: real)
    ensures SumBy(Rows(hs, total), RowValue) == TotalValue(hs)
  {
    if hs != [] {
      RowsValueSum(Init(hs), total);
      assert Init(Rows(hs, total)) == Rows(Init(hs), total);
    }
  }

  /** `bySymbol` has one row per holding (duplicates are not merged): it
      is a permutation of the rows `shares * (price ?? 0)` of the
      holdings, sorted by weight descending, and rows of equal weight
      keep the order of the holdings. */
  lemma BySymbolSpec(hs: seq<Holding>, w: real)
    requires hs != []
    ensures var s := StatsOf(hs).value;
      && |s.bySymbol| == |hs|
      && multiset(s.bySymbol) == multiset(Rows(hs, s.totalValue))
      && (forall i, j :: 0 <= i < j < |s.bySymbol| ==> s.bySymbol[i].weight >= s.bySymbol[j].weight)
      && Filter(s.bySymbol, (r: SymbolRow) => r.weight == w) == Filter(Rows(hs, s.totalValue), (r: SymbolRow) => r.weight == w)
  {
    var t := TotalValue(hs);
    SortPermutation(Rows(hs, t), HeavierRow);
    HeavierRowOrder();
    SortSorted(Rows(hs, t), HeavierRow);
    SortStable(Rows(hs, t), HeavierRow, (r: SymbolRow) => r.weight == w);
  }

  /** `r` is the row of one of the holdings. */
  predicate RowOfSomeHolding(hs: seq<Holding>, t: real, r: SymbolRow) {
    exists j :: 0 <= j < |hs| && r == RowOf(hs[j], t)
  }

  /** Every row of `bySymbol` is the row of some holding. */
  lemma BySymbolRowsFromHoldings(hs: seq<Holding>)
    requires hs != []
    ensures var s := StatsOf(hs).value;
      forall i :: 0 <= i < |s.bySymbol| ==> RowOfSomeHolding(hs, s.totalValue, s.bySymbol[i])
  {
    var s := StatsOf(hs).value;
    assert s.bySymbol == SortBy(Rows(hs, s.totalValue), HeavierRow);
    SortedRowsFromHoldings(hs, s.totalValue);
  }

  lemma SortedRowsFromHoldings(hs: seq<Holding>, t: real)
    ensures var rows := SortBy(Rows(hs, t), HeavierRow);
      forall i :: 0 <= i < |rows| ==> RowOfSomeHolding(hs, t, rows[i])
  {
    var rows := SortBy(Rows(hs, t), HeavierRow);
    forall i | 0 <= i < |rows|
      ensures RowOfSomeHolding(hs, t, rows[i])
    {
      SortedMember(Rows(hs, t), HeavierRow, rows[i]);
      RowFromHolding(hs, t, rows[i]);
    }
  }

  lemma SortedMember<T>(s: seq<T>, before: (T, T) -> bool, x: T)
    requires x in SortBy(s, before)
    ensures x in s
  {
    SortPermutation(s, before);
    assert x in multiset(SortBy(s, before));
  }

  lemma RowFromHolding(hs: seq<Holding>, t: real, r: SymbolRow)
    requires r in Rows(hs, t)
    ensures RowOfSomeHolding(hs, t, r)
  {
    var j :| 0 <= j < |Rows(hs, t)| && Rows(hs, t)[j] == r;
  }

  /** The row values add up to `totalValue`, and when `totalValue` is not
      zero the weights of `bySymbol` add up to 1. */
  lemma BySymbolSums(hs: seq<Holding>)
    requires hs != []
    ensures var s := StatsOf(hs).value;
      && SumBy(s.bySymbol, RowValue) == s.totalValue
      && (s.totalValue != 0.0 ==> SumBy(s.bySymbol, RowWeight) == 1.0)
  {
    var t := TotalValue(hs);
    var s := StatsOf(hs).value;
    assert s.totalValue == t && s.bySymbol == SortBy(Rows(hs, t), HeavierRow);
    SortSum(Rows(hs, t), HeavierRow, RowValue);
    RowsValueSum(hs, t);
    if t != 0.0 {
      SortSum(Rows(hs, t), HeavierRow, RowWeight);
      RowsWeightSum(hs, t);
      DivSelf(t);
    }
  }

  /** The class dictionary's keys are the distinct buckets in order of
      first appearance. */
  lemma {:induction false} ClassTotalsKeys(hs: seq<Holding>)
    ensures Valid(ClassTotals(hs))
    ensures Keys(ClassTotals(hs)) == Uniq(MapSeq(hs, ClassOf))
  {
    if hs != [] {
      ClassTotalsKeys(Init(hs));
      assert Init(MapSeq(hs, ClassOf)) == MapSeq(Init(hs), ClassOf);
    }
  }

  /** Each bucket holds the summed value of its members. */
  lemma {:induction false} ClassTotalsGet(hs: seq<Holding>, c: string)
    ensures Get(ClassTotals(hs), c).GetOr(0.0) == SumBy(Filter(hs, (h: Holding) => ClassOf(h) == c), HoldingValue)
  {
    if hs != [] {
      var h := Last(hs);
      ClassTotalsGet(Init(hs), c);
      if ClassOf(h) == c {
        var f := Filter(Init(hs), (h: Holding) => ClassOf(h) == c);
        assert Filter(hs, (h: Holding) => ClassOf(h) == c) == f + [h];
        SumByAppend(f, [h], HoldingValue);
        assert Init([h]) == [];
      } else {
        assert Filter(hs, (h: Holding) => ClassOf(h) == c) == Filter(Init(hs), (h: Holding) => ClassOf(h) == c);
      }
    }
  }

  lemma {:induction false} AddToSum(m: OrderedMap<real>, k: string, v: real)
    ensures SumBy(AddTo(m, k, v), EntryValue) == SumBy(m, EntryValue) + v
  {
    var i := IndexOf(Keys(m), k);
    if i < |m| {
      var e := Entry(k, m[i].value + v);
      assert AddTo(m, k, v) == m[i := e];
      SumByUpdate(m, i, e, EntryValue);
    } else {
      var e := Entry(k, 0.0 + v);
      assert AddTo(m, k, v) == m + [e];
      SumByAppend(m, [e], EntryValue);
      assert SumBy([e], EntryValue) == v by { assert Init([e]) == []; }
    }
  }

  /** The bucket values add up to the total value. */
  lemma {:induction false} ClassTotalsSum(hs: seq<Holding>)
    ensures SumBy(ClassTotals(hs), EntryValue) == TotalValue(hs)
  {
    if hs != [] {
      var m := ClassTotals(Init(hs));
      var h := Last(hs);
      ClassTotalsSum(Init(hs));
      AddToSum(m, ClassOf(h), HoldingValue(h));
    }
  }

  lemma {:induction false} ClassRowsValueSum(m: OrderedMap<real>, total: real)
    ensures SumBy(ClassRows(m, total), ClassValue) == SumBy(m, EntryValue)
  {
    if m != [] {
      ClassRowsValueSum(Init(m), total);
      assert Init(ClassRows(m, total)) == ClassRows(Init(m), total);
    }
  }

  lemma {:induction false} ClassRowsWeightSum(m: OrderedMap<real>, total: real)
    requires total != 0.0
    ensures SumBy(ClassRows(m, total), ClassWeight) == SumBy(m, EntryValue) / total
  {
    if m != [] {
      var rows := ClassRows(m, total);
      ClassRowsWeightSum(Init(m), total);
      assert Init(rows) == ClassRows(Init(m), total) && Last(rows).weight == Last(m).value / total;
      assert SumBy(rows, ClassWeight) == SumBy(Init(rows), ClassWeight) + Last(rows).weight;
      assert SumBy(m, EntryValue) == SumBy(Init(m), EntryValue) + Last(m).value;
      DivAdd(SumBy(Init(m), EntryValue), Last(m).value, total);
    }
  }

  /** Among the rows built from a dictionary with distinct keys, each key
      names exactly one row. */
  lemma {:induction false} ClassRowsCount(m: OrderedMap<real>, total: real, c: string)
    requires Valid(m)
    ensures |Filter(ClassRows(m, total), (r: ClassRow) => r.assetClass == c)| == if c in Keys(m) then 1 else 0
  {
    if m != [] {
      assert Keys(Init(m)) == Keys(m)[..|m| - 1];
      ClassRowsCount(Init(m), total, c);
      assert Init(ClassRows(m, total)) == ClassRows(Init(m), total);
      assert Keys(m) == Keys(Init(m)) + [Last(m).key];
    }
  }

  lemma FilterCountPermutation<T>(a: seq<T>, b: seq<T>, p: T -> bool)
    requires multiset(a) == multiset(b)
    ensures |Filter(a, p)| == |Filter(b, p)|
  {
    forall x ensures multiset(Filter(a, p))[x] == multiset(Filter(b, p))[x] {
      FilterMultiset(a, p, x);
      FilterMultiset(b, p, x);
    }
    assert multiset(Filter(a, p)) == multiset(Filter(b, p));
    assert |multiset(Filter(a, p))| == |Filter(a, p)|;
    assert |multiset(Filter(b, p))| == |Filter(b, p)|;
  }

  /** A bucket is in the class dictionary iff some holding falls in it. */
  lemma ClassTotalsHasKey(hs: seq<Holding>, c: string)
    ensures c in Keys(ClassTotals(hs)) <==> exists h :: h in hs && ClassOf(h) == c
  {
    ClassTotalsKeys(hs);
    if c in Keys(ClassTotals(hs)) {
      assert c in Uniq(MapSeq(hs, ClassOf));
      var k :| 0 <= k < |hs| && MapSeq(hs, ClassOf)[k] == c;
      assert hs[k] in hs;
    }
    if h :| h in hs && ClassOf(h) == c {
      var k :| 0 <= k < |hs| && hs[k] == h;
      assert MapSeq(hs, ClassOf)[k] == c;
    }
  }

  lemma ByAssetClassCount(hs: seq<Holding>, c: string)
    ensures |Filter(ByAssetClass(hs), (r: ClassRow) => r.assetClass == c)|
         == (if exists h :: h in hs && ClassOf(h) == c then 1 else 0)
  {
    var m := ClassTotals(hs);
    var cr := ClassRows(m, TotalValue(hs));
    ClassTotalsKeys(hs);
    SortPermutation(cr, HeavierClass);
    FilterCountPermutation(ByAssetClass(hs), cr, (r: ClassRow) => r.assetClass == c);
    ClassRowsCount(m, TotalValue(hs), c);
    ClassTotalsHasKey(hs, c);
  }

  lemma ByAssetClassValue(hs: seq<Holding>, i: nat)
    requires i < |ByAssetClass(hs)|
    ensures ByAssetClass(hs)[i].value
         == SumBy(Filter(hs, (h: Holding) => ClassOf(h) == ByAssetClass(hs)[i].assetClass), HoldingValue)
  {
    var m := ClassTotals(hs);
    var cr := ClassRows(m, TotalValue(hs));
    var r := ByAssetClass(hs)[i];
    SortedMember(cr, HeavierClass, r);
    ClassTotalsKeys(hs);
    ClassRowValue(m, TotalValue(hs), r);
    ClassTotalsGet(hs, r.assetClass);
  }

  /** A row built from a dictionary with distinct keys carries the value
      stored under its key. */
  lemma ClassRowValue(m: OrderedMap<real>, total: real, r: ClassRow)
    requires Valid(m) && r in ClassRows(m, total)
    ensures Get(m, r.assetClass) == Some(r.value)
  {
    var cr := ClassRows(m, total);
    var k :| 0 <= k < |cr| && cr[k] == r;
    assert m[k].key == r.assetClass;
    assert IndexOf(Keys(m), r.assetClass) == k;
  }

  /** After sorting, each class row still has weight value/total. */
  lemma SortedClassRowWeights(m: OrderedMap<real>, total: real)
    ensures var rows := SortBy(ClassRows(m, total), HeavierClass);
      forall i :: 0 <= i < |rows| ==> rows[i].weight == Weight(rows[i].value, total)
  {
    var rows := SortBy(ClassRows(m, total), HeavierClass);
    forall i | 0 <= i < |rows|
      ensures rows[i].weight == Weight(rows[i].value, total)
    {
      SortedMember(ClassRows(m, total), HeavierClass, rows[i]);
    }
  }

  /** The sorted class rows keep weight value/total and, among rows of
      equal weight, the dictionary order. */
  lemma ByAssetClassWeights(hs: seq<Holding>, w: real)
    ensures var rows := ByAssetClass(hs);
      && (forall i :: 0 <= i < |rows| ==> rows[i].weight == Weight(rows[i].value, TotalValue(hs)))
      && Filter(rows, (r: ClassRow) => r.weight == w)
         == Filter(ClassRows(ClassTotals(hs), TotalValue(hs)), (r: ClassRow) => r.weight == w)
  {
    SortedClassRowWeights(ClassTotals(hs), TotalValue(hs));
    SortStable(ClassRows(ClassTotals(hs), TotalValue(hs)), HeavierClass, (r: ClassRow) => r.weight == w);
  }

  /** `byAssetClass`: exactly one row per distinct bucket (a missing class
      is the bucket "UNKNOWN"), each row's value the sum of its members'
      values and its weight value/total, rows sorted by weight descending,
      and rows of equal weight left in dictionary order. */
  lemma ByAssetClassSpec(hs: seq<Holding>, c: string, w: real)
    requires hs != []
    ensures var s := StatsOf(hs).value;
      && |Filter(s.byAssetClass, (r: ClassRow) => r.assetClass == c)|
         == (if exists h :: h in hs && ClassOf(h) == c then 1 else 0)
      && (forall i :: 0 <= i < |s.byAssetClass| && s.byAssetClass[i].assetClass == c ==>
            s.byAssetClass[i].value == SumBy(Filter(hs, (h: Holding) => ClassOf(h) == c), HoldingValue))
      && (forall i :: 0 <= i < |s.byAssetClass| ==>
            s.byAssetClass[i].weight == Weight(s.byAssetClass[i].value, s.totalValue))
      && (forall i, j :: 0 <= i < j < |s.byAssetClass| ==> s.byAssetClass[i].weight >= s.byAssetClass[j].weight)
      && Filter(s.byAssetClass, (r: ClassRow) => r.weight == w)
         == Filter(ClassRows(ClassTotals(hs), s.totalValue), (r: ClassRow) => r.weight == w)
  {
    var rows := ByAssetClass(hs);
    assert StatsOf(hs).value.byAssetClass == rows;
    assert StatsOf(hs).value.totalValue == TotalValue(hs);
    ByAssetClassWeights(hs, w);
    ByAssetClassCount(hs, c);
    forall i | 0 <= i < |rows| && rows[i].assetClass == c
      ensures rows[i].value == SumBy(Filter(hs, (h: Holding) => ClassOf(h) == c), HoldingValue)
    {
      ByAssetClassValue(hs, i);
    }
    HeavierClassOrder();
    SortSorted(ClassRows(ClassTotals(hs), TotalValue(hs)), HeavierClass);
  }

  /** The bucket values add up to `totalValue`, and when `totalValue` is
      not zero the bucket weights add up to 1. */
  lemma ByAssetClassSums(hs: seq<Holding>)
    requires hs != []
    ensures var s := StatsOf(hs).value;
      && SumBy(s.byAssetClass, ClassValue) == s.totalValue
      && (s.totalValue != 0.0 ==> SumBy(s.byAssetClass, ClassWeight) == 1.0)
  {
    var t := TotalValue(hs);
    var m := ClassTotals(hs);
    var s := StatsOf(hs).value;
    assert s.totalValue == t && s.byAssetClass == SortBy(ClassRows(m, t), HeavierClass);
    ClassTotalsSum(hs);
    SortSum(ClassRows(m, t), HeavierClass, ClassValue);
    ClassRowsValueSum(m, t);
    if t != 0.0 {
      SortSum(ClassRows(m, t), HeavierClass, ClassWeight);
      ClassRowsWeightSum(m, t);
      DivSelf(t);
    }
  }

  /** The first row of `bySymbol` is at least as heavy as any holding's row. */
  lemma BySymbolFirstIsMax(hs: seq<Holding>, h: Holding)
    requires h in hs
    ensures |BySymbol(hs)| > 0 && BySymbol(hs)[0].weight >= RowOf(h, TotalValue(hs)).weight
  {
    var t := TotalValue(hs);
    var rows := BySymbol(hs);
    SortPermutation(Rows(hs, t), HeavierRow);
    HeavierRowOrder();
    SortSorted(Rows(hs, t), HeavierRow);
    var j :| 0 <= j < |hs| && hs[j] == h;
    assert Rows(hs, t)[j] == RowOf(h, t);
    assert RowOf(h, t) in multiset(rows);
    var k :| 0 <= k < |rows| && rows[k] == RowOf(h, t);
    if k > 0 {
      assert !HeavierRow(rows[k], rows[0]);
    }
  }

  /** `concentrationTop1` is the weight of the first row and the largest
      weight of any holding. */
  lemma Top1IsMax(hs: seq<Holding>)
    requires hs != []
    ensures var s := StatsOf(hs).value;
      && s.concentrationTop1 == s.bySymbol[0].weight
      && (forall h :: h in hs ==> s.concentrationTop1 >= RowOf(h, s.totalValue).weight)
  {
    var s := StatsOf(hs).value;
    assert s.bySymbol == BySymbol(hs) && s.totalValue == TotalValue(hs);
    forall h | h in hs
      ensures s.concentrationTop1 >= RowOf(h, s.totalValue).weight
    {
      BySymbolFirstIsMax(hs, h);
    }
  }

  /** `concentrationTop3` is the sum of the first min(3, n) weights and
      `topSymbols` the symbols of the first min(5, n) rows. */
  lemma TopPrefixes(hs: seq<Holding>)
    requires hs != []
    ensures var s := StatsOf(hs).value;
      && s.concentrationTop3 == SumBy(s.bySymbol[..if |hs| < 3 then |hs| else 3], RowWeight)
      && |s.topSymbols| == (if |hs| < 5 then |hs| else 5)
      && (forall i :: 0 <= i < |s.topSymbols| ==> s.topSymbols[i] == s.bySymbol[i].symbol)
  {
    StatsParts(hs);
    HeadsOfRows(BySymbol(hs));
  }

  /** The first three weights and the first five symbols of any rows. */
  lemma HeadsOfRows(rows: seq<SymbolRow>)
    ensures SumBy(SliceTo(rows, 3), RowWeight) == SumBy(rows[..if |rows| < 3 then |rows| else 3], RowWeight)
    ensures var top := MapSeq(SliceTo(rows, 5), RowSymbol);
      && |top| == (if |rows| < 5 then |rows| else 5)
      && (forall i :: 0 <= i < |top| ==> top[i] == rows[i].symbol)
  {
    var n3 := if |rows| < 3 then |rows| else 3;
    assert SliceTo(rows, 3) == rows[..n3];
  }

  /** The statistics of a non-empty list of holdings, field by field. */
  lemma StatsParts(hs: seq<Holding>)
    requires hs != []
    ensures var rows := BySymbol(hs);
      StatsOf(hs) == Success(PortfolioStats(TotalValue(hs), rows, ByAssetClass(hs),
        MapSeq(SliceTo(rows, 5), RowSymbol), Top1(rows), SumBy(SliceTo(rows, 3), RowWeight)))
  {
  }

  lemma {:induction false} SumNonNegative<T>(s: seq<T>, f: T -> real)
    requires forall i :: 0 <= i < |s| ==> f(s[i]) >= 0.0
    ensures SumBy(s, f) >= 0.0
  {
    if s != [] {
      SumNonNegative(Init(s), f);
    }
  }

  lemma PrefixSumBound<T>(s: seq<T>, n: nat, f: T -> real)
    requires n <= |s|
    requires forall i :: 0 <= i < |s| ==> f(s[i]) >= 0.0
    ensures SumBy(s[..n], f) <= SumBy(s, f)
  {
    assert s == s[..n] + s[n..];
    SumByAppend(s[..n], s[n..], f);
    SumNonNegative(s[n..], f);
  }

  lemma BySymbolNonNegative(hs: seq<Holding>)
    requires forall h :: h in hs ==> HoldingValue(h) >= 0.0
    requires TotalValue(hs) > 0.0
    ensures forall i :: 0 <= i < |BySymbol(hs)| ==> BySymbol(hs)[i].weight >= 0.0
  {
    var t := TotalValue(hs);
    var rows := BySymbol(hs);
    forall i | 0 <= i < |rows|
      ensures rows[i].weight >= 0.0
    {
      SortedMember(Rows(hs, t), HeavierRow, rows[i]);
      RowFromHolding(hs, t, rows[i]);
      var j :| 0 <= j < |hs| && rows[i] == RowOf(hs[j], t);
      assert hs[j] in hs;
      DivNonNegative(HoldingValue(hs[j]), t);
    }
  }

  lemma ByAssetClassNonNegative(hs: seq<Holding>)
    requires forall h :: h in hs ==> HoldingValue(h) >= 0.0
    requires TotalValue(hs) > 0.0
    ensures forall i :: 0 <= i < |ByAssetClass(hs)| ==> ByAssetClass(hs)[i].weight >= 0.0
  {
    var t := TotalValue(hs);
    var m := ClassTotals(hs);
    var cr := ClassRows(m, t);
    var rows := ByAssetClass(hs);
    SortPermutation(cr, HeavierClass);
    forall i | 0 <= i < |rows|
      ensures rows[i].weight >= 0.0
    {
      assert rows[i] in multiset(cr);
      var k :| 0 <= k < |cr| && cr[k] == rows[i];
      ByAssetClassValue(hs, i);
      var members := Filter(hs, (h: Holding) => ClassOf(h) == rows[i].assetClass);
      SumNonNegative(members, HoldingValue);
      DivNonNegative(rows[i].value, t);
    }
  }

  lemma DivNonNegative(a: real, t: real)
    requires a >= 0.0 && t > 0.0
    ensures a / t >= 0.0
  {
  }

  /** An element of a sum of non-negative terms is at most the sum. */
  lemma ElementSumBound<T>(s: seq<T>, i: nat, f: T -> real)
    requires i < |s|
    requires forall k :: 0 <= k < |s| ==> f(s[k]) >= 0.0
    ensures f(s[i]) <= SumBy(s, f)
  {
    assert s == s[..i] + [s[i]] + s[i + 1..];
    SumByAppend(s[..i] + [s[i]], s[i + 1..], f);
    SumByAppend(s[..i], [s[i]], f);
    assert Init([s[i]]) == [];
    SumNonNegative(s[..i], f);
    SumNonNegative(s[i + 1..], f);
  }

  /** With no negative holding values and a positive total, every weight
      lies in [0, 1] and 0 <= top-1 <= top-3 <= 1. */
  lemma ConcentrationBounds(hs: seq<Holding>)
    requires hs != []
    requires forall h :: h in hs ==> HoldingValue(h) >= 0.0
    requires TotalValue(hs) > 0.0
    ensures var s := StatsOf(hs).value;
      && (forall i :: 0 <= i < |s.bySymbol| ==> 0.0 <= s.bySymbol[i].weight <= 1.0)
      && 0.0 <= s.concentrationTop1 <= s.concentrationTop3 <= 1.0
  {
    var s := StatsOf(hs).value;
    var rows := BySymbol(hs);
    assert s.bySymbol == rows && s.concentrationTop1 == Top1(rows);
    BySymbolSums(hs);
    BySymbolNonNegative(hs);
    TopPrefixes(hs);
    WeightShareBounds(rows);
  }

  /** Non-negative weights adding up to 1: each is at most 1, and the first
      weight is at most the sum of the first three, itself at most 1. */
  lemma WeightShareBounds(rows: seq<SymbolRow>)
    requires forall i :: 0 <= i < |rows| ==> rows[i].weight >= 0.0
    requires SumBy(rows, RowWeight) == 1.0
    ensures forall i :: 0 <= i < |rows| ==> rows[i].weight <= 1.0
    ensures var n3 := if |rows| < 3 then |rows| else 3;
      0.0 <= Top1(rows) <= SumBy(rows[..n3], RowWeight) <= 1.0
  {
    forall i | 0 <= i < |rows|
      ensures rows[i].weight <= 1.0
    {
      ElementSumBound(rows, i, RowWeight);
    }
    var n3 := if |rows| < 3 then |rows| else 3;
    PrefixSumBound(rows, n3, RowWeight);
    ElementSumBound(rows[..n3], 0, RowWeight);
  }
}
