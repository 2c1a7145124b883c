/** `diffFromStats` and `buildDiffSection`: what changed between two
    statistics snapshots (symbols added, symbols removed, the largest
    weight moves) and its plain-text rendering. Symbols are compared in
    normalised form (trimmed, upper-cased). */
module Diff {
  import opened Seqs
  import opened Strings
  import opened OrderedMaps
  import opened StableSort
  import opened PortfolioTypes

  datatype WeightChange = WeightChange(symbol: string, prevWeight: real, nextWeight: real, delta: real)

  /** The threshold and top-N actually used. */
  datatype DiffMeta = DiffMeta(threshold: real, topN: int)

  datatype PortfolioDiff = PortfolioDiff(
    added: seq<string>,
    removed: seq<string>,
    weightChanges: seq<WeightChange>,
    meta: Option<DiffMeta>)

  datatype DiffOptions = DiffOptions(threshold: Option<real>, topN: Option<int>)

  const DefaultThreshold: real := 0.02
  const DefaultTopN: int := 5

  function Abs(x: real): real {
    if x < 0.0 then -x else x
  }

  // ----- the weight map -----

  function NormalizedSymbol(r: SymbolRow): string {
    NormalizeSymbol(r.symbol)
  }

  function RowEntry(r: SymbolRow): Entry<real> {
    Entry(NormalizeSymbol(r.symbol), r.weight)
  }

  /** `buildWeightMap(stats)`: `map.set(normalizeSymbol(row.symbol), row.weight)` for each row. */
  function WeightMap(stats: PortfolioStats): OrderedMap<real> {
    PutAll(MapSeq(stats.bySymbol, RowEntry))
  }

  method BuildWeightMap(stats: PortfolioStats) returns (map_: OrderedMap<real>)
    ensures map_ == WeightMap(stats)
  {
    var rows := stats.bySymbol;
    map_ := [];
    for i := 0 to |rows|
      invariant map_ == PutAll(MapSeq(rows[..i], RowEntry))
    {
      assert Init(MapSeq(rows[..i + 1], RowEntry)) == MapSeq(rows[..i], RowEntry);
      var row := rows[i];
      map_ := Put(map_, NormalizeSymbol(row.symbol), row.weight);
    }
    assert rows[..|rows|] == rows;
  }

  /** The normalised symbols of the rows of a snapshot, in row order. */
  function Symbols(stats: PortfolioStats): (syms: seq<string>)
    ensures |syms| == |stats.bySymbol|
    ensures forall i :: 0 <= i < |syms| ==> syms[i] == NormalizeSymbol(stats.bySymbol[i].symbol)
  {
    MapSeq(stats.bySymbol, NormalizedSymbol)
  }

  /** Some row of the snapshot has normalised symbol `s`. */
  predicate Listed(stats: PortfolioStats, s: string) {
    s in Symbols(stats)
  }

  /** Row `i` is the last row of the snapshot with its normalised symbol. */
  ghost predicate LastRowFor(stats: PortfolioStats, i: int)
    requires 0 <= i < |stats.bySymbol|
  {
    forall j :: i < j < |stats.bySymbol| ==> Symbols(stats)[j] != Symbols(stats)[i]
  }

  lemma EntryKeys(stats: PortfolioStats)
    ensures Keys(MapSeq(stats.bySymbol, RowEntry)) == Symbols(stats)
  {
  }

  /** The weight map has one key per listed symbol, in order of first
      appearance. */
  lemma WeightMapKeys(stats: PortfolioStats)
    ensures Valid(WeightMap(stats))
    ensures Keys(WeightMap(stats)) == Uniq(Symbols(stats))
    ensures forall s :: s in Keys(WeightMap(stats)) <==> Listed(stats, s)
  {
    var syms := Symbols(stats);
    var es := MapSeq(stats.bySymbol, RowEntry);
    PutAllKeys(es);
    EntryKeys(stats);
    UniqSameElements(syms);
  }

  /** When a normalised symbol repeats, the weight map keeps the weight of
      its last row (weights are not added up). */
  lemma WeightMapLastWins(stats: PortfolioStats, i: nat)
    requires i < |stats.bySymbol| && LastRowFor(stats, i)
    ensures Get(WeightMap(stats), Symbols(stats)[i]) == Some(stats.bySymbol[i].weight)
  {
    var es := MapSeq(stats.bySymbol, RowEntry);
    EntryKeys(stats);
    assert forall j :: 0 <= j < |es| ==> es[j].key == Keys(es)[j];
    PutAllLast(es, i);
  }

  // ----- the diff -----

  /** The elements of `xs` that are not in `ys`, in the order of `xs`. */
  function Missing(xs: seq<string>, ys: seq<string>): (r: seq<string>)
    ensures forall s :: s in r <==> s in xs && s !in ys
    ensures NoDups(xs) ==> NoDups(r)
  {
    if xs == [] then []
    else
      var r := Missing(Init(xs), ys) + (if Last(xs) !in ys then [Last(xs)] else []);
      assert forall s :: s in xs <==> s in Init(xs) || s == Last(xs) by {
        assert xs == Init(xs) + [Last(xs)];
      }
      r
  }

  /** The move of one symbol: absent weights count as 0. */
  function ChangeOf(sym: string, prevMap: OrderedMap<real>, nextMap: OrderedMap<real>): WeightChange {
    var prevWeight := Get(prevMap, sym).GetOr(0.0);
    var nextWeight := Get(nextMap, sym).GetOr(0.0);
    WeightChange(sym, prevWeight, nextWeight, nextWeight - prevWeight)
  }

  /** The moves of the symbols of `syms` whose size reaches the threshold,
      in the order of `syms`. */
  function Moves(syms: seq<string>, prevMap: OrderedMap<real>, nextMap: OrderedMap<real>, threshold: real): (r: seq<WeightChange>)
    ensures forall i :: 0 <= i < |r| ==>
      r[i] == ChangeOf(r[i].symbol, prevMap, nextMap) && r[i].symbol in syms && Abs(r[i].delta) >= threshold
    ensures forall s :: s in syms && Abs(ChangeOf(s, prevMap, nextMap).delta) >= threshold ==>
      ChangeOf(s, prevMap, nextMap) in r
  {
    if syms == [] then []
    else
      var c := ChangeOf(Last(syms), prevMap, nextMap);
      var r0 := Moves(Init(syms), prevMap, nextMap, threshold);
      assert forall s :: s in syms <==> s in Init(syms) || s == Last(syms) by {
        assert syms == Init(syms) + [Last(syms)];
      }
      if Abs(c.delta) >= threshold then
        assert forall i :: 0 <= i < |r0| ==> (r0 + [c])[i] == r0[i];
        r0 + [c]
      else r0
  }

  /** No symbol is reported twice. */
  predicate DistinctSymbols(ws: seq<WeightChange>) {
    forall i, j :: 0 <= i < j < |ws| ==> ws[i].symbol != ws[j].symbol
  }

  /** Walking a repeat-free symbol list reports each symbol at most once. */
  lemma {:induction false} MovesDistinct(syms: seq<string>, prevMap: OrderedMap<real>, nextMap: OrderedMap<real>, threshold: real)
    requires NoDups(syms)
    ensures DistinctSymbols(Moves(syms, prevMap, nextMap, threshold))
  {
    if syms != [] {
      var init := Init(syms);
      assert forall i :: 0 <= i < |init| ==> init[i] == syms[i];
      MovesDistinct(init, prevMap, nextMap, threshold);
      assert Last(syms) !in init;
    }
  }

  /** The comparator `(a, b) => Math.abs(b.delta) - Math.abs(a.delta)`. */
  predicate LargerMove(a: WeightChange, b: WeightChange) {
    Abs(a.delta) > Abs(b.delta)
  }

  /** The symbols of `nextMap` missing from `prevMap`, sorted: `added`
      (and, with the maps swapped, `removed`). */
  function AddedOf(prevMap: OrderedMap<real>, nextMap: OrderedMap<real>): seq<string> {
    SortBy(Missing(Keys(nextMap), Keys(prevMap)), LexLess)
  }

  /** The moves of all symbols of either map, in the order of `allSyms`. */
  function MovesOf(prevMap: OrderedMap<real>, nextMap: OrderedMap<real>, threshold: real): seq<WeightChange> {
    Moves(Uniq(Keys(prevMap) + Keys(nextMap)), prevMap, nextMap, threshold)
  }

  /** `weightChanges.sort(...)` then `.slice(0, topN)`. */
  function TopChanges(moves: seq<WeightChange>, topN: int): seq<WeightChange> {
    SliceTo(SortBy(moves, LargerMove), topN)
  }

  /** `diffFromStats(prevStats, nextStats, options)`. */
  function DiffOf(prev: Option<PortfolioStats>, next: PortfolioStats, opts: DiffOptions): (d: PortfolioDiff)
    ensures d.meta == Some(DiffMeta(opts.threshold.GetOr(DefaultThreshold), opts.topN.GetOr(DefaultTopN)))
    ensures prev.None? ==> d.added == [] && d.removed == [] && d.weightChanges == []
  {
    var threshold := opts.threshold.GetOr(DefaultThreshold);
    var topN := opts.topN.GetOr(DefaultTopN);
    if prev.None? then PortfolioDiff([], [], [], Some(DiffMeta(threshold, topN)))
    else
      var prevMap := WeightMap(prev.value);
      var nextMap := WeightMap(next);
      PortfolioDiff(
        AddedOf(prevMap, nextMap),
        AddedOf(nextMap, prevMap),
        TopChanges(MovesOf(prevMap, nextMap, threshold), topN),
        Some(DiffMeta(threshold, topN)))
  }

  method DiffFromStats(prevStats: Option<PortfolioStats>, nextStats: PortfolioStats, options: DiffOptions)
    returns (d: PortfolioDiff)
    ensures d == DiffOf(prevStats, nextStats, options)
  {
    var threshold := options.threshold.GetOr(DefaultThreshold);
    var topN := options.topN.GetOr(DefaultTopN);
    if prevStats.None? {
      return PortfolioDiff([], [], [], Some(DiffMeta(threshold, topN)));
    }
    var prevMap := BuildWeightMap(prevStats.value);
    var nextMap := BuildWeightMap(nextStats);
    var prevSyms := Keys(prevMap);
    var nextSyms := Keys(nextMap);

    var added := SortedMissing(nextSyms, prevSyms);
    var removed := SortedMissing(prevSyms, nextSyms);
    var weightChanges := TopMovesOfMaps(prevMap, nextMap, threshold, topN);
    d := PortfolioDiff(added, removed, weightChanges, Some(DiffMeta(threshold, topN)));
  }

  /** `added` (or `removed`): the missing symbols collected, then `.sort()`. */
  method SortedMissing(xs: seq<string>, ys: seq<string>) returns (r: seq<string>)
    ensures r == SortBy(Missing(xs, ys), LexLess)
  {
    var missing := CollectMissing(xs, ys);
    var arr := ToArray(missing);
    SortInPlace(arr, LexLess);
    r := arr[..];
  }

  /** The moves over the symbols of both maps, sorted by size, the first
      `topN` kept. */
  method TopMovesOfMaps(prevMap: OrderedMap<real>, nextMap: OrderedMap<real>, threshold: real, topN: int)
    returns (r: seq<WeightChange>)
    ensures r == TopChanges(MovesOf(prevMap, nextMap, threshold), topN)
  {
    var allSyms := Uniq(Keys(prevMap) + Keys(nextMap));
    var weightChanges := CollectMoves(allSyms, prevMap, nextMap, threshold);
    var changesArr := ToArray(weightChanges);
    SortInPlace(changesArr, LargerMove);
    r := SliceTo(changesArr[..], topN);
  }

  /** `for (const s of xs) if (!ys.has(s)) out.push(s)`. */
  method CollectMissing(xs: seq<string>, ys: seq<string>) returns (out: seq<string>)
    ensures out == Missing(xs, ys)
  {
    out := [];
    for i := 0 to |xs|
      invariant out == Missing(xs[..i], ys)
    {
      MissingStep(xs, ys, i);
      if xs[i] !in ys {
        out := out + [xs[i]];
      }
    }
    assert xs[..|xs|] == xs;
  }

  lemma MissingStep(xs: seq<string>, ys: seq<string>, i: nat)
    requires i < |xs|
    ensures Missing(xs[..i + 1], ys) == Missing(xs[..i], ys) + (if xs[i] !in ys then [xs[i]] else [])
  {
    assert Init(xs[..i + 1]) == xs[..i] && Last(xs[..i + 1]) == xs[i];
  }

  /** The loop over `allSyms` that pushes every move reaching the threshold. */
  method CollectMoves(allSyms: seq<string>, prevMap: OrderedMap<real>, nextMap: OrderedMap<real>, threshold: real)
    returns (weightChanges: seq<WeightChange>)
    ensures weightChanges == Moves(allSyms, prevMap, nextMap, threshold)
  {
    weightChanges := [];
    for i := 0 to |allSyms|
      invariant weightChanges == Moves(allSyms[..i], prevMap, nextMap, threshold)
    {
      assert Init(allSyms[..i + 1]) == allSyms[..i];
      var sym := allSyms[i];
      var prevWeight := Get(prevMap, sym).GetOr(0.0);
      var nextWeight := Get(nextMap, sym).GetOr(0.0);
      var delta := nextWeight - prevWeight;
      if Abs(delta) >= threshold {
        weightChanges := weightChanges + [WeightChange(sym, prevWeight, nextWeight, delta)];
      }
    }
    assert allSyms[..|allSyms|] == allSyms;
  }

  // ----- properties of the diff -----

  /** Each element strictly before the next in string order: sorted
      ascending without duplicates. */
  ghost predicate StrictlyAscending(s: seq<string>) {
    forall i, j :: 0 <= i < j < |s| ==> LexLess(s[i], s[j])
  }

  /** The default string order is a strict weak order. */
  lemma LexLessOrder()
    ensures StrictWeakOrder(LexLess)
  {
    forall a: string, b: string ensures LexLess(a, b) ==> !LexLess(b, a) {
      LexLessAsymmetric(a, b);
    }
    forall a: string, b: string, c: string
      ensures !LexLess(a, b) && !LexLess(b, c) ==> !LexLess(a, c)
    {
      LexLessTotal(a, b);
      LexLessTotal(b, c);
      LexLessTransitive(c, b, a);
      LexLessAsymmetric(a, c);
    }
  }

  lemma {:induction false} NoDupsCount<T>(s: seq<T>, x: T)
    requires NoDups(s)
    ensures multiset(s)[x] <= 1
  {
    if s != [] {
      NoDupsCount(Init(s), x);
      assert s == Init(s) + [Last(s)];
      assert Last(s) !in Init(s);
    }
  }

  /** A permutation of a duplicate-free sequence is duplicate-free. */
  lemma NoDupsPermutation<T>(a: seq<T>, b: seq<T>)
    requires multiset(a) == multiset(b) && NoDups(b)
    ensures NoDups(a)
  {
    forall i, j | 0 <= i < j < |a|
      ensures a[i] != a[j]
    {
      if a[i] == a[j] {
        assert a == a[..j] + [a[j]] + a[j + 1..];
        assert a[i] in a[..j];
        assert multiset(a)[a[j]] >= 2;
        NoDupsCount(b, a[j]);
        assert false;
      }
    }
  }

  /** Sorting a duplicate-free list of strings yields a strictly ascending one. */
  lemma SortStrictlyAscending(xs: seq<string>)
    requires NoDups(xs)
    ensures StrictlyAscending(SortBy(xs, LexLess))
    ensures forall s :: s in SortBy(xs, LexLess) <==> s in xs
  {
    var ys := SortBy(xs, LexLess);
    SortPermutation(xs, LexLess);
    NoDupsPermutation(ys, xs);
    LexLessOrder();
    SortSorted(xs, LexLess);
    forall i, j | 0 <= i < j < |ys|
      ensures LexLess(ys[i], ys[j])
    {
      LexLessTotal(ys[i], ys[j]);
    }
    forall s ensures s in ys <==> s in xs {
      assert s in ys <==> s in multiset(ys);
      assert s in xs <==> s in multiset(xs);
    }
  }

  /** `added` holds exactly the symbols listed in the new snapshot and not
      in the old one, `removed` the reverse; both are sorted ascending
      without duplicates, and no symbol is both added and removed. */
  lemma AddedRemovedSpec(prev: PortfolioStats, next: PortfolioStats, opts: DiffOptions)
    ensures var d := DiffOf(Some(prev), next, opts);
      && (forall s :: s in d.added <==> Listed(next, s) && !Listed(prev, s))
      && (forall s :: s in d.removed <==> Listed(prev, s) && !Listed(next, s))
      && StrictlyAscending(d.added)
      && StrictlyAscending(d.removed)
      && (forall s :: !(s in d.added && s in d.removed))
  {
    DiffParts(prev, next, opts);
    AddedOfListed(prev, next);
    AddedOfListed(next, prev);
  }

  /** The symbols listed in `next` and not in `prev`, sorted ascending
      without duplicates. */
  lemma AddedOfListed(prev: PortfolioStats, next: PortfolioStats)
    ensures var a := AddedOf(WeightMap(prev), WeightMap(next));
      && (forall s :: s in a <==> Listed(next, s) && !Listed(prev, s))
      && StrictlyAscending(a)
  {
    WeightMapKeys(prev);
    WeightMapKeys(next);
    SortStrictlyAscending(Missing(Keys(WeightMap(next)), Keys(WeightMap(prev))));
  }

  /** Sorting the moves by size and keeping the first `topN`: the kept
      moves are among the given ones, in descending order of size, and at
      most `topN` of them. */
  lemma TopMoves(moves: seq<WeightChange>, topN: int)
    ensures var wc := TopChanges(moves, topN);
      && (forall i :: 0 <= i < |wc| ==> wc[i] in moves)
      && (forall i, j :: 0 <= i < j < |wc| ==> Abs(wc[i].delta) >= Abs(wc[j].delta))
      && (topN >= 0 ==> |wc| <= topN)
  {
    var sorted := SortBy(moves, LargerMove);
    var wc := SliceTo(sorted, topN);
    SortPermutation(moves, LargerMove);
    assert StrictWeakOrder(LargerMove);
    SortSorted(moves, LargerMove);
    forall i | 0 <= i < |wc|
      ensures wc[i] in moves
    {
      assert wc[i] == sorted[i];
      assert sorted[i] in multiset(moves);
    }
  }

  /** Sorting and cutting keeps symbols distinct. */
  lemma TopChangesDistinct(moves: seq<WeightChange>, topN: int)
    requires DistinctSymbols(moves)
    ensures DistinctSymbols(TopChanges(moves, topN))
  {
    var sorted := SortBy(moves, LargerMove);
    var wc := SliceTo(sorted, topN);
    SortPermutation(moves, LargerMove);
    NoDupsPermutation(sorted, moves);
    forall i, j | 0 <= i < j < |wc|
      ensures wc[i].symbol != wc[j].symbol
    {
      assert wc[i] == sorted[i] && wc[j] == sorted[j];
      assert sorted[i] in multiset(moves) && sorted[j] in multiset(moves);
      var k :| 0 <= k < |moves| && moves[k] == sorted[i];
      var l :| 0 <= l < |moves| && moves[l] == sorted[j];
      assert k != l;
    }
  }

  /** A given move is kept, or every kept move is at least as large; when
      fewer than `topN` are kept, it is kept. */
  lemma TopMovesRanking(moves: seq<WeightChange>, topN: int, c: WeightChange)
    requires c in moves
    ensures var wc := TopChanges(moves, topN);
      && (c in wc || forall i :: 0 <= i < |wc| ==> Abs(wc[i].delta) >= Abs(c.delta))
      && (|wc| < topN ==> c in wc)
  {
    var sorted := SortBy(moves, LargerMove);
    var wc := SliceTo(sorted, topN);
    SortPermutation(moves, LargerMove);
    assert c in multiset(sorted);
    var m :| 0 <= m < |sorted| && sorted[m] == c;
    assert StrictWeakOrder(LargerMove);
    SortSorted(moves, LargerMove);
    if m < |wc| {
      assert wc[m] == c;
    } else {
      forall i | 0 <= i < |wc|
        ensures Abs(wc[i].delta) >= Abs(c.delta)
      {
        assert wc[i] == sorted[i];
        assert !LargerMove(sorted[m], sorted[i]);
      }
    }
  }

  /** The moves considered: one per symbol of either map whose move
      reaches the threshold, absent weights counting as 0. */
  lemma MovesOfSpec(prevMap: OrderedMap<real>, nextMap: OrderedMap<real>, threshold: real)
    ensures var moves := MovesOf(prevMap, nextMap, threshold);
      && (forall i :: 0 <= i < |moves| ==>
           && moves[i] == ChangeOf(moves[i].symbol, prevMap, nextMap)
           && (moves[i].symbol in Keys(prevMap) || moves[i].symbol in Keys(nextMap))
           && Abs(moves[i].delta) >= threshold)
      && (forall s :: (s in Keys(prevMap) || s in Keys(nextMap)) && Abs(ChangeOf(s, prevMap, nextMap).delta) >= threshold
           ==> ChangeOf(s, prevMap, nextMap) in moves)
      && DistinctSymbols(moves)
  {
    var syms := Keys(prevMap) + Keys(nextMap);
    UniqSameElements(syms);
    MovesDistinct(Uniq(syms), prevMap, nextMap, threshold);
    forall s | (s in Keys(prevMap) || s in Keys(nextMap)) && Abs(ChangeOf(s, prevMap, nextMap).delta) >= threshold
      ensures ChangeOf(s, prevMap, nextMap) in MovesOf(prevMap, nextMap, threshold)
    {
      assert s in syms;
    }
  }

  /** Every reported move: absent weights count as 0, `delta` is the new
      weight minus the old, `|delta|` reaches the threshold and the symbol
      is listed in one of the snapshots; the moves are ordered by `|delta|`
      descending and there are at most `topN` of them. */
  lemma WeightChangesSpec(prev: PortfolioStats, next: PortfolioStats, opts: DiffOptions)
    ensures var d := DiffOf(Some(prev), next, opts);
      var wc := d.weightChanges;
      && (forall i :: 0 <= i < |wc| ==>
           && wc[i].prevWeight == Get(WeightMap(prev), wc[i].symbol).GetOr(0.0)
           && wc[i].nextWeight == Get(WeightMap(next), wc[i].symbol).GetOr(0.0)
           && wc[i].delta == wc[i].nextWeight - wc[i].prevWeight
           && Abs(wc[i].delta) >= d.meta.value.threshold
           && (Listed(prev, wc[i].symbol) || Listed(next, wc[i].symbol)))
      && (forall i, j :: 0 <= i < j < |wc| ==> Abs(wc[i].delta) >= Abs(wc[j].delta))
      && (d.meta.value.topN >= 0 ==> |wc| <= d.meta.value.topN)
      && DistinctSymbols(wc)
  {
    var pm, nm := WeightMap(prev), WeightMap(next);
    var threshold, topN := opts.threshold.GetOr(DefaultThreshold), opts.topN.GetOr(DefaultTopN);
    var d := DiffOf(Some(prev), next, opts);
    var wc := TopChanges(MovesOf(pm, nm, threshold), topN);
    DiffParts(prev, next, opts);
    assert d.weightChanges == wc && d.meta.value == DiffMeta(threshold, topN);
    TopMovesOf(pm, nm, threshold, topN);
    assert DistinctSymbols(d.weightChanges);
    TopMovesListed(prev, next, threshold, topN);
  }

  /** The symbol of every kept move is listed in one of the snapshots. */
  lemma TopMovesListed(prev: PortfolioStats, next: PortfolioStats, threshold: real, topN: int)
    ensures var wc := TopChanges(MovesOf(WeightMap(prev), WeightMap(next), threshold), topN);
      forall i :: 0 <= i < |wc| ==> Listed(prev, wc[i].symbol) || Listed(next, wc[i].symbol)
  {
    var pm, nm := WeightMap(prev), WeightMap(next);
    var wc := TopChanges(MovesOf(pm, nm, threshold), topN);
    TopMovesOf(pm, nm, threshold, topN);
    forall i | 0 <= i < |wc|
      ensures Listed(prev, wc[i].symbol) || Listed(next, wc[i].symbol)
    {
      var sym := wc[i].symbol;
      if sym in Keys(pm) {
        KeyListed(prev, sym);
      } else {
        KeyListed(next, sym);
      }
    }
  }

  /** The keys of the weight map are the listed symbols. */
  lemma KeyListed(stats: PortfolioStats, s: string)
    ensures s in Keys(WeightMap(stats)) <==> Listed(stats, s)
  {
    WeightMapKeys(stats);
  }

  /** The diff of two snapshots, spelled out in terms of their weight maps. */
  lemma DiffParts(prev: PortfolioStats, next: PortfolioStats, opts: DiffOptions)
    ensures var pm, nm := WeightMap(prev), WeightMap(next);
      var threshold, topN := opts.threshold.GetOr(DefaultThreshold), opts.topN.GetOr(DefaultTopN);
      DiffOf(Some(prev), next, opts) ==
        PortfolioDiff(AddedOf(pm, nm), AddedOf(nm, pm), TopChanges(MovesOf(pm, nm, threshold), topN), Some(DiffMeta(threshold, topN)))
  {
  }

  /** The kept moves of two weight maps: each is the move of a key of
      either map reaching the threshold, in descending order of size, at
      most `topN` of them. */
  lemma TopMovesOf(pm: OrderedMap<real>, nm: OrderedMap<real>, threshold: real, topN: int)
    ensures var wc := TopChanges(MovesOf(pm, nm, threshold), topN);
      && (forall i :: 0 <= i < |wc| ==>
           && wc[i].prevWeight == Get(pm, wc[i].symbol).GetOr(0.0)
           && wc[i].nextWeight == Get(nm, wc[i].symbol).GetOr(0.0)
           && wc[i].delta == wc[i].nextWeight - wc[i].prevWeight
           && (wc[i].symbol in Keys(pm) || wc[i].symbol in Keys(nm))
           && Abs(wc[i].delta) >= threshold)
      && (forall i, j :: 0 <= i < j < |wc| ==> Abs(wc[i].delta) >= Abs(wc[j].delta))
      && (topN >= 0 ==> |wc| <= topN)
      && DistinctSymbols(wc)
  {
    TopMoves(MovesOf(pm, nm, threshold), topN);
    MovesOfSpec(pm, nm, threshold);
    TopChangesDistinct(MovesOf(pm, nm, threshold), topN);
  }

  /** The top-N rule: the move of a listed symbol that reaches the
      threshold is reported, or every reported move is at least as large;
      and when fewer than `topN` moves are reported, it is reported. */
  lemma WeightChangesRanking(prev: PortfolioStats, next: PortfolioStats, opts: DiffOptions, sym: string)
    requires Listed(prev, sym) || Listed(next, sym)
    requires Abs(ChangeOf(sym, WeightMap(prev), WeightMap(next)).delta) >= opts.threshold.GetOr(DefaultThreshold)
    ensures var wc := DiffOf(Some(prev), next, opts).weightChanges;
      var c := ChangeOf(sym, WeightMap(prev), WeightMap(next));
      && (c in wc || forall i :: 0 <= i < |wc| ==> Abs(wc[i].delta) >= Abs(c.delta))
      && (|wc| < opts.topN.GetOr(DefaultTopN) ==> c in wc)
  {
    var pm, nm := WeightMap(prev), WeightMap(next);
    var threshold, topN := opts.threshold.GetOr(DefaultThreshold), opts.topN.GetOr(DefaultTopN);
    var moves := MovesOf(pm, nm, threshold);
    DiffParts(prev, next, opts);
    KeyListed(prev, sym);
    KeyListed(next, sym);
    MovesOfSpec(pm, nm, threshold);
    TopMovesRanking(moves, topN, ChangeOf(sym, pm, nm));
  }

  lemma {:induction false} MissingAll(xs: seq<string>, ys: seq<string>)
    requires forall i :: 0 <= i < |xs| ==> xs[i] in ys
    ensures Missing(xs, ys) == []
  {
    if xs != [] {
      MissingAll(Init(xs), ys);
    }
  }

  /** Between a map and itself no symbol moves. */
  lemma {:induction false} MovesSame(syms: seq<string>, m: OrderedMap<real>, threshold: real)
    requires threshold > 0.0
    ensures Moves(syms, m, m, threshold) == []
  {
    if syms != [] {
      MovesSame(Init(syms), m, threshold);
    }
  }

  /** With a positive threshold, a snapshot diffed against itself shows no change. */
  lemma SelfDiffEmpty(s: PortfolioStats, opts: DiffOptions)
    requires opts.threshold.GetOr(DefaultThreshold) > 0.0
    ensures var d := DiffOf(Some(s), s, opts);
      d.added == [] && d.removed == [] && d.weightChanges == []
  {
    var m := WeightMap(s);
    var threshold := opts.threshold.GetOr(DefaultThreshold);
    var d := DiffOf(Some(s), s, opts);
    assert d.added == AddedOf(m, m) && d.removed == AddedOf(m, m);
    assert d.weightChanges == TopChanges(MovesOf(m, m, threshold), opts.topN.GetOr(DefaultTopN));
    MissingAll(Keys(m), Keys(m));
    MovesSame(Uniq(Keys(m) + Keys(m)), m, threshold);
  }

  // ----- the rendering -----

  const NoPriorSnapshot: string := "No prior snapshot to compare."
  const NoMaterialChanges: string := "No material changes since the last snapshot."

  /** `fmtPct(x)`: `Math.round(x * 100)` followed by `%`. */
  function FmtPct(x: real): (r: string)
    ensures exists n: int :: x * 100.0 - 0.5 < n as real <= x * 100.0 + 0.5 && r == IntToString(n) + "%"
    ensures r[0] != '+'
  {
    var n := Round(x * 100.0);
    IntToString(n) + "%"
  }

  /** The bracketed delta: `+` in front exactly when `delta >= 0`. */
  function SignedPct(delta: real): (r: string)
    ensures |r| > 0 && (r[0] == '+' <==> delta >= 0.0)
  {
    (if delta >= 0.0 then "+" else "") + FmtPct(delta)
  }

  /** `  • SYM: `. */
  function MovePrefix(c: WeightChange): string {
    "  \U{2022} " + c.symbol + ": "
  }

  /** `P% → N% `. */
  function MoveMiddle(c: WeightChange): string {
    FmtPct(c.prevWeight) + " \U{2192} " + FmtPct(c.nextWeight) + " "
  }

  /** `(±D%)`. */
  function MoveDelta(c: WeightChange): string {
    "(" + SignedPct(c.delta) + ")"
  }

  /** `  • SYM: P% → N% (±D%)`. */
  function ChangeLine(c: WeightChange): string {
    MovePrefix(c) + (MoveMiddle(c) + MoveDelta(c))
  }

  /** A move line starts with the bullet and the symbol and ends with the
      bracketed delta, whose first character after `(` is `+` exactly when
      `delta >= 0`. */
  lemma ChangeLineShape(c: WeightChange)
    ensures var r := ChangeLine(c);
      && "  \U{2022} " + c.symbol + ": " <= r
      && |r| >= |MoveDelta(c)|
      && r[|r| - |MoveDelta(c)|..] == "(" + SignedPct(c.delta) + ")"
      && (r[|r| - |MoveDelta(c)| + 1] == '+' <==> c.delta >= 0.0)
  {
    var a, m, t := MovePrefix(c), MoveMiddle(c), MoveDelta(c);
    ConcatParts(a, m + t);
    ConcatParts(a + m, t);
    AppendAssoc(a, m, t);
    ConcatParts(['('], SignedPct(c.delta) + [')']);
  }

  /** `xs.join(sep)`. */
  function Join(xs: seq<string>, sep: string): (r: string)
    ensures xs != [] ==> xs[0] <= r
  {
    if xs == [] then ""
    else if |xs| == 1 then xs[0]
    else
      assert Init(xs)[0] == xs[0];
      Join(Init(xs), sep) + sep + Last(xs)
  }

  /** The `- Added:` line, present when there is an added symbol; it
      names at most five of them. */
  function AddedLine(d: PortfolioDiff): seq<string> {
    var added := SliceTo(d.added, 5);
    if |added| > 0 then ["- Added: " + Join(added, ", ")] else []
  }

  function RemovedLine(d: PortfolioDiff): seq<string> {
    var removed := SliceTo(d.removed, 5);
    if |removed| > 0 then ["- Removed: " + Join(removed, ", ")] else []
  }

  /** The header and one line for each of at most five moves. */
  function MoveLines(d: PortfolioDiff): seq<string> {
    var changes := SliceTo(d.weightChanges, 5);
    if |changes| > 0 then ["- Biggest allocation moves:"] + MapSeq(changes, ChangeLine) else []
  }

  /** The lines `buildDiffSection` collects. */
  function DiffLines(d: PortfolioDiff): seq<string> {
    AddedLine(d) + RemovedLine(d) + MoveLines(d)
  }

  /** `buildDiffSection(diff)`: the two sentinels, or the lines joined by
      newlines, which then start with `-`. */
  function DiffSection(diff: Option<PortfolioDiff>): (r: string)
    ensures diff.None? ==> r == NoPriorSnapshot
    ensures diff.Some? ==>
      (r == NoMaterialChanges <==> diff.value.added == [] && diff.value.removed == [] && diff.value.weightChanges == [])
    ensures diff.Some? && r != NoMaterialChanges ==> |r| > 0 && r[0] == '-'
  {
    if diff.None? then NoPriorSnapshot
    else
      var lines := DiffLines(diff.value);
      if |lines| == 0 then NoMaterialChanges
      else
        assert lines[0][0] == '-';
        Join(lines, "\n")
  }

  method BuildDiffSection(diff: Option<PortfolioDiff>) returns (text: string)
    ensures text == DiffSection(diff)
  {
    if diff.None? {
      return NoPriorSnapshot;
    }
    var lines := CollectLines(diff.value);
    if |lines| == 0 {
      return NoMaterialChanges;
    }
    text := Join(lines, "\n");
  }

  /** The `lines` array of `buildDiffSection`, filled step by step. */
  method CollectLines(d: PortfolioDiff) returns (lines: seq<string>)
    ensures lines == DiffLines(d)
  {
    var added := SliceTo(d.added, 5);
    var removed := SliceTo(d.removed, 5);
    var changes := SliceTo(d.weightChanges, 5);

    lines := [];
    if |added| > 0 {
      lines := lines + ["- Added: " + Join(added, ", ")];
    }
    assert lines == AddedLine(d);
    if |removed| > 0 {
      lines := lines + ["- Removed: " + Join(removed, ", ")];
    }
    assert lines == AddedLine(d) + RemovedLine(d);
    if |changes| > 0 {
      ghost var head := lines;
      lines := PushAll(lines + ["- Biggest allocation moves:"], changes, ChangeLine);
      AppendAssoc(head, ["- Biggest allocation moves:"], MapSeq(changes, ChangeLine));
    } else {
      assert lines + [] == lines;
    }
  }

  /** The rendering has one line per non-empty list, plus a header and
      at most five move lines; never more than eight lines. */
  lemma DiffLinesCount(d: PortfolioDiff)
    ensures var n := if |d.weightChanges| < 5 then |d.weightChanges| else 5;
      && |DiffLines(d)| == (if d.added != [] then 1 else 0) + (if d.removed != [] then 1 else 0)
                           + (if n > 0 then 1 + n else 0)
      && |DiffLines(d)| <= 8
  {
  }

  /** The Added and Removed lines name the first min(5, n) symbols of
      their list, in list order, and are absent when the list is empty. */
  lemma ShownPrefixes(d: PortfolioDiff)
    ensures d.added == [] <==> AddedLine(d) == []
    ensures d.removed == [] <==> RemovedLine(d) == []
    ensures d.added != [] ==>
      exists xs :: (xs <= d.added && |xs| == (if |d.added| < 5 then |d.added| else 5)
                    && AddedLine(d) == ["- Added: " + Join(xs, ", ")])
    ensures d.removed != [] ==>
      exists xs :: (xs <= d.removed && |xs| == (if |d.removed| < 5 then |d.removed| else 5)
                    && RemovedLine(d) == ["- Removed: " + Join(xs, ", ")])
  {
  }

  /** The diff computed without a previous snapshot renders as "no material changes". */
  lemma NoPrevRendersNoChanges(next: PortfolioStats, opts: DiffOptions)
    ensures DiffSection(Some(DiffOf(None, next, opts))) == NoMaterialChanges
  {
  }
}
