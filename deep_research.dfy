/** The deterministic part of the deep-research agent: which symbols are
    researched (the top holdings and the diversifier candidates), how the
    per-symbol news results are gathered into an evidence bundle, and the
    research brief that echoes the scope. The news provider is a function
    from a request to its outcome; the timestamp is a parameter. */
module DeepResearch {
  import opened Seqs
  import opened Strings
  import opened OrderedMaps
  import opened PortfolioTypes
  import opened ResearchTypes
  import opened ExplainTypes

  /** The symbols to research. */
  datatype SymbolScope = SymbolScope(holdingsSymbols: seq<string>, diversifierTickers: seq<string>)

  datatype FetchOpts = FetchOpts(days: int, perSymbolLimit: int, concurrency: int)

  /** The caller's partial options; every field may be absent. */
  datatype PartialFetchOpts = PartialFetchOpts(days: Option<int>, perSymbolLimit: Option<int>, concurrency: Option<int>)

  /** What one provider request yields: its articles, or the message of
      the error it throws. */
  datatype ProviderOutcome = Articles(articles: seq<NewsArticle>) | Thrown(message: string)

  /** `provider.fetchSymbolNews(symbol, { days, limit })`. */
  type Provider = (string, int, int) -> ProviderOutcome

  datatype FetchResult = FetchResult(symbol: string, articles: seq<NewsArticle>, error: Option<string>)

  const ResearchDays := 7
  const ResearchLimit := 3
  const ResearchConcurrency := 3

  // ----- scope -----

  /** `.filter(Boolean)` on strings keeps the non-empty ones. */
  predicate NonBlank(s: string) {
    s != ""
  }

  function CandidateKey(c: DiversifierCandidate): string {
    NormalizeSymbol(c.ticker)
  }

  function TopSymbolsOf(state: ExplainState): seq<string> {
    if state.stats.Some? then state.stats.value.topSymbols else []
  }

  /** `computeResearchScope(state)`: the first five top symbols, normalised,
      and the first three candidate tickers, normalised; empty strings are
      dropped after the cut in both. */
  function ComputeResearchScope(state: ExplainState): (r: SymbolScope)
    ensures |r.holdingsSymbols| <= 5 && |r.diversifierTickers| <= 3
    ensures forall i :: 0 <= i < |r.holdingsSymbols| ==> r.holdingsSymbols[i] != ""
    ensures forall i :: 0 <= i < |r.diversifierTickers| ==> r.diversifierTickers[i] != ""
  {
    SymbolScope(
      Filter(MapSeq(SliceTo(TopSymbolsOf(state), 5), NormalizeSymbol), NonBlank),
      Filter(SliceTo(MapSeq(state.diversifierCandidates.GetOr([]), CandidateKey), 3), NonBlank))
  }

  /** A normalised value is left alone by normalising again. */
  lemma MappedNormalized(s: seq<string>)
    ensures forall i :: 0 <= i < |MapSeq(s, NormalizeSymbol)| ==> IsNormalized(MapSeq(s, NormalizeSymbol)[i])
  {
    forall i | 0 <= i < |s|
      ensures IsNormalized(MapSeq(s, NormalizeSymbol)[i])
    {
      NormalizeIdempotent(s[i]);
    }
  }

  /** At most five holdings symbols, each normalised and non-empty: exactly
      the non-empty normalised forms of the first five top symbols. */
  lemma ScopeHoldingsSpec(state: ExplainState)
    ensures var hs := ComputeResearchScope(state).holdingsSymbols;
      && |hs| <= 5
      && (forall i :: 0 <= i < |hs| ==> hs[i] != "" && IsNormalized(hs[i]))
      && (forall x :: x in hs <==> x != "" && x in MapSeq(SliceTo(TopSymbolsOf(state), 5), NormalizeSymbol))
  {
    var ms := MapSeq(SliceTo(TopSymbolsOf(state), 5), NormalizeSymbol);
    assert ComputeResearchScope(state).holdingsSymbols == Filter(ms, NonBlank);
    MappedNormalized(SliceTo(TopSymbolsOf(state), 5));
    NonBlankOfNormalized(ms);
  }

  /** Dropping the empty strings from normalised values leaves non-empty
      normalised values: exactly the non-empty ones among them. */
  lemma NonBlankOfNormalized(ms: seq<string>)
    requires forall i :: 0 <= i < |ms| ==> IsNormalized(ms[i])
    ensures var hs := Filter(ms, NonBlank);
      && |hs| <= |ms|
      && (forall i :: 0 <= i < |hs| ==> hs[i] != "" && IsNormalized(hs[i]))
      && (forall x :: x in hs <==> x != "" && x in ms)
  {
    var hs := Filter(ms, NonBlank);
    forall i | 0 <= i < |hs|
      ensures IsNormalized(hs[i])
    {
      var k :| 0 <= k < |ms| && ms[k] == hs[i];
    }
    forall x
      ensures x in hs <==> x != "" && x in ms
    {
      FilterMember(ms, NonBlank, x);
    }
  }

  /** At most three diversifier tickers, each normalised and non-empty:
      exactly the non-empty normalised tickers of the first three candidates. */
  lemma ScopeTickersSpec(state: ExplainState)
    ensures var ds := ComputeResearchScope(state).diversifierTickers;
      var cands := state.diversifierCandidates.GetOr([]);
      && |ds| <= 3
      && (forall i :: 0 <= i < |ds| ==> ds[i] != "" && IsNormalized(ds[i]))
      && (forall x :: x in ds <==> x != "" && x in MapSeq(SliceTo(cands, 3), CandidateKey))
  {
    var cands := state.diversifierCandidates.GetOr([]);
    SliceOfMapped(cands, CandidateKey, 3);
    var firsts := SliceTo(cands, 3);
    var dm := MapSeq(firsts, CandidateKey);
    assert ComputeResearchScope(state).diversifierTickers == Filter(dm, NonBlank);
    forall i | 0 <= i < |dm|
      ensures IsNormalized(dm[i])
    {
      NormalizeIdempotent(firsts[i].ticker);
    }
    NonBlankOfNormalized(dm);
  }

  // ----- fetching one symbol -----

  /** `fetchOneSymbol(provider, symbol, opts)`: never fails outward; a
      thrown provider error becomes an empty article list plus its message.
      The provider is asked for `opts.days` and `opts.perSymbolLimit`. */
  function FetchOneSymbol(provider: Provider, symbol: string, opts: FetchOpts): (r: FetchResult)
    ensures r.symbol == symbol
    ensures r.error.None? <==> provider(symbol, opts.days, opts.perSymbolLimit).Articles?
    ensures r.error.None? ==> r.articles == provider(symbol, opts.days, opts.perSymbolLimit).articles
    ensures r.error.Some? ==> r.articles == [] && r.error.value == provider(symbol, opts.days, opts.perSymbolLimit).message
  {
    match provider(symbol, opts.days, opts.perSymbolLimit)
    case Articles(articles) => FetchResult(symbol, articles, None)
    case Thrown(message) => FetchResult(symbol, [], Some(message))
  }

  /** `symbols.map((s) => fetchOneSymbol(provider, s, opts))`, awaited in order. */
  function ResultsFor(provider: Provider, symbols: seq<string>, opts: FetchOpts): (rs: seq<FetchResult>)
    ensures |rs| == |symbols|
    ensures forall i :: 0 <= i < |symbols| ==> rs[i] == FetchOneSymbol(provider, symbols[i], opts)
  {
    if symbols == [] then []
    else ResultsFor(provider, Init(symbols), opts) + [FetchOneSymbol(provider, Last(symbols), opts)]
  }

  // ----- the record of results -----

  function ResultEntry(r: FetchResult): Entry<seq<NewsArticle>> {
    Entry(r.symbol, r.articles)
  }

  function ResultSymbol(r: FetchResult): string {
    r.symbol
  }

  function ResultCount(r: FetchResult): nat {
    |r.articles|
  }

  /** The record `resultsToRecord(results)` builds. */
  function RecordOf(results: seq<FetchResult>): OrderedMap<seq<NewsArticle>> {
    PutAll(MapSeq(results, ResultEntry))
  }

  /** `resultsToRecord(results)`: `record[r.symbol] = r.articles` for each
      result in turn. */
  method ResultsToRecord(results: seq<FetchResult>) returns (record: OrderedMap<seq<NewsArticle>>)
    ensures record == RecordOf(results)
  {
    record := [];
    for i := 0 to |results|
      invariant record == PutAll(MapSeq(results[..i], ResultEntry))
    {
      assert Init(MapSeq(results[..i + 1], ResultEntry)) == MapSeq(results[..i], ResultEntry);
      record := Put(record, results[i].symbol, results[i].articles);
    }
    assert results[..|results|] == results;
  }

  lemma ResultKeys(results: seq<FetchResult>)
    ensures Keys(MapSeq(results, ResultEntry)) == MapSeq(results, ResultSymbol)
  {
  }

  /** The record has one key per distinct symbol, in order of first
      appearance, and maps it to the articles of the last result with that
      symbol: a later duplicate overwrites an earlier one. */
  lemma RecordSpec(results: seq<FetchResult>, i: nat)
    requires i < |results|
    requires forall j :: i < j < |results| ==> results[j].symbol != results[i].symbol
    ensures Valid(RecordOf(results))
    ensures Keys(RecordOf(results)) == Uniq(MapSeq(results, ResultSymbol))
    ensures Get(RecordOf(results), results[i].symbol) == Some(results[i].articles)
  {
    var es := MapSeq(results, ResultEntry);
    PutAllKeys(es);
    ResultKeys(results);
    assert IsLastWith(es, es[i].key, i);
    PutAllLast(es, i);
  }

  // ----- counting -----

  function EntryCount(e: Entry<seq<NewsArticle>>): nat {
    |e.value|
  }

  /** `countArticles(record)`: the total length of the record's article lists. */
  function CountArticles(record: OrderedMap<seq<NewsArticle>>): (n: nat)
    ensures forall i :: 0 <= i < |record| ==> |record[i].value| <= n
    ensures n == 0 <==> forall i :: 0 <= i < |record| ==> record[i].value == []
  {
    CountByBounds(record, EntryCount);
    CountBy(record, EntryCount)
  }

  /** When no symbol repeats, nothing is overwritten and the record holds
      every article of every result. */
  lemma RecordCountDistinct(results: seq<FetchResult>)
    requires NoDups(MapSeq(results, ResultSymbol))
    ensures CountArticles(RecordOf(results)) == CountBy(results, ResultCount)
  {
    var es := MapSeq(results, ResultEntry);
    ResultKeys(results);
    PutAllDistinct(es);
    CountByMap(results, ResultEntry, EntryCount, ResultCount);
  }

  // ----- errors -----

  /** `.filter((r) => r.error)`: an error that is the empty string is falsy. */
  predicate Failed(r: FetchResult) {
    r.error.Some? && r.error.value != ""
  }

  function ErrorOf(r: FetchResult): FetchError {
    FetchError(r.symbol, r.error.GetOr(""))
  }

  function ErrorsOf(results: seq<FetchResult>): seq<FetchError> {
    MapSeq(Filter(results, Failed), ErrorOf)
  }

  /** The errors of two result lists in a row are those of the first list
      followed by those of the second. */
  lemma ErrorsAppend(a: seq<FetchResult>, b: seq<FetchResult>)
    ensures ErrorsOf(a + b) == ErrorsOf(a) + ErrorsOf(b)
  {
    FilterAppend(a, b, Failed);
    MapSeqAppend(Filter(a, Failed), Filter(b, Failed), ErrorOf);
  }

  /** One error entry per result that failed with a non-empty message,
      carrying its symbol and message. */
  lemma ErrorsSpec(results: seq<FetchResult>)
    ensures |ErrorsOf(results)| == |Filter(results, Failed)| <= |results|
    ensures forall e :: e in ErrorsOf(results) <==>
      exists r :: r in results && Failed(r) && e == FetchError(r.symbol, r.error.value)
  {
    forall e ensures e in ErrorsOf(results) <==>
      exists r :: r in results && Failed(r) && e == FetchError(r.symbol, r.error.value)
    {
      if e in ErrorsOf(results) {
        ErrorFromFailed(results, e);
      }
      if exists r :: r in results && Failed(r) && e == FetchError(r.symbol, r.error.value) {
        var r :| r in results && Failed(r) && e == FetchError(r.symbol, r.error.value);
        FailedGivesError(results, r);
      }
    }
  }

  lemma ErrorFromFailed(results: seq<FetchResult>, e: FetchError)
    requires e in ErrorsOf(results)
    ensures exists r :: r in results && Failed(r) && e == FetchError(r.symbol, r.error.value)
  {
    var fs := Filter(results, Failed);
    var es := MapSeq(fs, ErrorOf);
    var k :| 0 <= k < |es| && es[k] == e;
    assert fs[k] in results && Failed(fs[k]);
  }

  lemma FailedGivesError(results: seq<FetchResult>, r: FetchResult)
    requires r in results && Failed(r)
    ensures FetchError(r.symbol, r.error.value) in ErrorsOf(results)
  {
    var fs := Filter(results, Failed);
    var j :| 0 <= j < |results| && results[j] == r;
    assert r in fs;
    var k :| 0 <= k < |fs| && fs[k] == r;
    assert MapSeq(fs, ErrorOf)[k] == ErrorOf(r);
  }

  // ----- the bundle -----

  function OptsFor(days: int, perSymbolLimit: int): FetchOpts {
    FetchOpts(days, perSymbolLimit, 0)
  }

  /** The bundle `buildEvidenceBundle` returns, stamped with `asOf`. */
  function EvidenceBundleOf(scope: SymbolScope, provider: Provider, days: int, perSymbolLimit: int, asOf: string): EvidenceBundle {
    var opts := OptsFor(days, perSymbolLimit);
    var holdingsResults := ResultsFor(provider, scope.holdingsSymbols, opts);
    var diversifierResults := ResultsFor(provider, scope.diversifierTickers, opts);
    var holdings := RecordOf(holdingsResults);
    var diversifiers := RecordOf(diversifierResults);
    EvidenceBundle(asOf, days, perSymbolLimit, holdings, diversifiers,
      BundleMeta(
        PolygonProviderName,
        Uniq(scope.holdingsSymbols + scope.diversifierTickers),
        CountArticles(holdings) + CountArticles(diversifiers),
        ErrorsOf(holdingsResults + diversifierResults)))
  }

  /** `buildEvidenceBundle({ scope, provider, days, perSymbolLimit, concurrency })`. */
  method BuildEvidenceBundle(scope: SymbolScope, provider: Provider, days: int, perSymbolLimit: int, asOf: string)
    returns (bundle: EvidenceBundle)
    ensures bundle == EvidenceBundleOf(scope, provider, days, perSymbolLimit, asOf)
  {
    var opts := OptsFor(days, perSymbolLimit);
    var holdingsResults := ResultsFor(provider, scope.holdingsSymbols, opts);
    var diversifierResults := ResultsFor(provider, scope.diversifierTickers, opts);

    var holdings := ResultsToRecord(holdingsResults);
    var diversifiers := ResultsToRecord(diversifierResults);

    var fetchedSymbols := Uniq(scope.holdingsSymbols + scope.diversifierTickers);
    var totalArticles := CountArticles(holdings) + CountArticles(diversifiers);
    var errors := ErrorsOf(holdingsResults + diversifierResults);

    bundle := EvidenceBundle(asOf, days, perSymbolLimit, holdings, diversifiers,
      BundleMeta(PolygonProviderName, fetchedSymbols, totalArticles, errors));
  }

  /** The results for a list of symbols, recorded: one key per distinct
      symbol, in order of first appearance, holding that symbol's articles
      (none when its fetch failed). */
  lemma RecordForSymbols(provider: Provider, symbols: seq<string>, opts: FetchOpts, s: string)
    ensures var record := RecordOf(ResultsFor(provider, symbols, opts));
      && Valid(record)
      && Keys(record) == Uniq(symbols)
      && (s in symbols ==> Get(record, s) == Some(FetchOneSymbol(provider, s, opts).articles))
  {
    var rs := ResultsFor(provider, symbols, opts);
    var es := MapSeq(rs, ResultEntry);
    assert MapSeq(rs, ResultSymbol) == symbols;
    PutAllKeys(es);
    ResultKeys(rs);
    if s in symbols {
      RecordGet(provider, symbols, opts, s);
    }
  }

  /** The articles recorded under a fetched symbol are those of its fetch. */
  lemma RecordGet(provider: Provider, symbols: seq<string>, opts: FetchOpts, s: string)
    requires s in symbols
    ensures Get(RecordOf(ResultsFor(provider, symbols, opts)), s) == Some(FetchOneSymbol(provider, s, opts).articles)
  {
    var rs := ResultsFor(provider, symbols, opts);
    var es := MapSeq(rs, ResultEntry);
    ResultKeys(rs);
    PutAllGet(es, s);
    var i :| 0 <= i < |es| && IsLastWith(es, s, i) && LastValue(es, s).value == es[i].value;
    assert es[i] == ResultEntry(rs[i]) && rs[i] == FetchOneSymbol(provider, symbols[i], opts);
    assert rs[i].symbol == symbols[i];
  }

  /** The bundle echoes its parameters, records each scope symbol's
      articles under that symbol, and lists every symbol once. */
  lemma BundleRecordsSpec(scope: SymbolScope, provider: Provider, days: int, perSymbolLimit: int, asOf: string, s: string)
    ensures var b := EvidenceBundleOf(scope, provider, days, perSymbolLimit, asOf);
      var opts := OptsFor(days, perSymbolLimit);
      && b.asOf == asOf && b.windowDays == days && b.perSymbolLimit == perSymbolLimit
      && b.meta.provider == "polygon"
      && Keys(b.holdings) == Uniq(scope.holdingsSymbols)
      && Keys(b.diversifiers) == Uniq(scope.diversifierTickers)
      && (s in scope.holdingsSymbols ==> Get(b.holdings, s) == Some(FetchOneSymbol(provider, s, opts).articles))
      && (s in scope.diversifierTickers ==> Get(b.diversifiers, s) == Some(FetchOneSymbol(provider, s, opts).articles))
      && NoDups(b.meta.fetchedSymbols)
      && (s in b.meta.fetchedSymbols <==> s in scope.holdingsSymbols || s in scope.diversifierTickers)
  {
    var opts := OptsFor(days, perSymbolLimit);
    RecordForSymbols(provider, scope.holdingsSymbols, opts, s);
    RecordForSymbols(provider, scope.diversifierTickers, opts, s);
    UniqSameElements(scope.holdingsSymbols + scope.diversifierTickers);
  }

  /** Every result of fetching a list comes from one of its symbols. */
  lemma ResultFromSymbol(provider: Provider, symbols: seq<string>, opts: FetchOpts, r: FetchResult)
    requires r in ResultsFor(provider, symbols, opts)
    ensures r.symbol in symbols && r == FetchOneSymbol(provider, r.symbol, opts)
  {
    var rs := ResultsFor(provider, symbols, opts);
    var i :| 0 <= i < |rs| && rs[i] == r;
    assert r == FetchOneSymbol(provider, symbols[i], opts);
  }

  lemma ErrorsForSymbolsSound(provider: Provider, symbols: seq<string>, opts: FetchOpts, s: string, m: string)
    requires FetchError(s, m) in ErrorsOf(ResultsFor(provider, symbols, opts))
    ensures s in symbols && provider(s, opts.days, opts.perSymbolLimit) == Thrown(m) && m != ""
  {
    var rs := ResultsFor(provider, symbols, opts);
    ErrorsSpec(rs);
    var r :| r in rs && Failed(r) && FetchError(s, m) == FetchError(r.symbol, r.error.value);
    ResultFromSymbol(provider, symbols, opts, r);
    FetchFailedWith(provider, s, opts, m);
  }

  /** A fetch that ends with error `m` is one whose request threw `m`. */
  lemma FetchFailedWith(provider: Provider, s: string, opts: FetchOpts, m: string)
    ensures FetchOneSymbol(provider, s, opts).error == Some(m) <==> provider(s, opts.days, opts.perSymbolLimit) == Thrown(m)
  {
  }

  lemma ErrorsForSymbolsComplete(provider: Provider, symbols: seq<string>, opts: FetchOpts, s: string, m: string)
    requires s in symbols && provider(s, opts.days, opts.perSymbolLimit) == Thrown(m) && m != ""
    ensures FetchError(s, m) in ErrorsOf(ResultsFor(provider, symbols, opts))
  {
    var rs := ResultsFor(provider, symbols, opts);
    var i :| 0 <= i < |symbols| && symbols[i] == s;
    FetchFailedWith(provider, s, opts, m);
    var r := rs[i];
    assert r == FetchOneSymbol(provider, s, opts) && r in rs;
    ErrorsSpec(rs);
  }

  /** An error entry (s, m) comes from fetching a list of symbols exactly
      when s is in the list and its request threw the non-empty message m. */
  lemma ErrorsForSymbols(provider: Provider, symbols: seq<string>, opts: FetchOpts, s: string, m: string)
    ensures FetchError(s, m) in ErrorsOf(ResultsFor(provider, symbols, opts)) <==>
      s in symbols && provider(s, opts.days, opts.perSymbolLimit) == Thrown(m) && m != ""
  {
    if FetchError(s, m) in ErrorsOf(ResultsFor(provider, symbols, opts)) {
      ErrorsForSymbolsSound(provider, symbols, opts, s, m);
    }
    if s in symbols && provider(s, opts.days, opts.perSymbolLimit) == Thrown(m) && m != "" {
      ErrorsForSymbolsComplete(provider, symbols, opts, s, m);
    }
  }

  /** The errors are those of the holdings results followed by those of the
      diversifier results; an entry (s, m) is present exactly when s is in
      scope and its request threw the non-empty message m. */
  lemma BundleErrorsSpec(scope: SymbolScope, provider: Provider, days: int, perSymbolLimit: int, asOf: string, s: string, m: string)
    ensures var b := EvidenceBundleOf(scope, provider, days, perSymbolLimit, asOf);
      var opts := OptsFor(days, perSymbolLimit);
      && b.meta.errors == ErrorsOf(ResultsFor(provider, scope.holdingsSymbols, opts))
                          + ErrorsOf(ResultsFor(provider, scope.diversifierTickers, opts))
      && (FetchError(s, m) in b.meta.errors <==>
            (s in scope.holdingsSymbols || s in scope.diversifierTickers)
            && provider(s, days, perSymbolLimit) == Thrown(m) && m != "")
  {
    var opts := OptsFor(days, perSymbolLimit);
    var hr := ResultsFor(provider, scope.holdingsSymbols, opts);
    var dr := ResultsFor(provider, scope.diversifierTickers, opts);
    ErrorsAppend(hr, dr);
    ErrorsForSymbols(provider, scope.holdingsSymbols, opts, s, m);
    ErrorsForSymbols(provider, scope.diversifierTickers, opts, s, m);
  }

  /** Every article counted is in one of the two records, and with no
      repeated symbol the total is the sum over all results. */
  lemma BundleCountSpec(scope: SymbolScope, provider: Provider, days: int, perSymbolLimit: int, asOf: string)
    requires NoDups(scope.holdingsSymbols) && NoDups(scope.diversifierTickers)
    ensures var b := EvidenceBundleOf(scope, provider, days, perSymbolLimit, asOf);
      var opts := OptsFor(days, perSymbolLimit);
      b.meta.totalArticles
        == CountBy(ResultsFor(provider, scope.holdingsSymbols, opts), ResultCount)
         + CountBy(ResultsFor(provider, scope.diversifierTickers, opts), ResultCount)
  {
    var opts := OptsFor(days, perSymbolLimit);
    var hr := ResultsFor(provider, scope.holdingsSymbols, opts);
    var dr := ResultsFor(provider, scope.diversifierTickers, opts);
    assert MapSeq(hr, ResultSymbol) == scope.holdingsSymbols;
    assert MapSeq(dr, ResultSymbol) == scope.diversifierTickers;
    RecordCountDistinct(hr);
    RecordCountDistinct(dr);
  }

  // ----- the agent -----

  /** The brief and bundle `deepResearchAgent` returns. */
  function DeepResearchOf(state: ExplainState, provider: Provider, asOf: string): DeepResearchResult {
    var scope := ComputeResearchScope(state);
    var bundle := EvidenceBundleOf(scope, provider, ResearchDays, ResearchLimit, asOf);
    var brief := ResearchBrief(
      bundle.asOf,
      BriefScope(scope.holdingsSymbols, scope.diversifierTickers, ResearchDays, ResearchLimit),
      [], [], [], [], [], [], []);
    DeepResearchResult(brief, bundle)
  }

  /** `deepResearchAgent(state, { provider, fetchOpts })`. The merged fetch
      options are computed but never used: the bundle is always built for 7
      days and 3 articles per symbol. */
  method DeepResearchAgent(state: ExplainState, provider: Provider, fetchOpts: PartialFetchOpts, asOf: string)
    returns (r: DeepResearchResult)
    ensures r == DeepResearchOf(state, provider, asOf)
  {
    var scope := ComputeResearchScope(state);
    var merged := FetchOpts(
      fetchOpts.days.GetOr(ResearchDays),
      fetchOpts.perSymbolLimit.GetOr(ResearchLimit),
      fetchOpts.concurrency.GetOr(ResearchConcurrency));
    var evidenceBundle := BuildEvidenceBundle(scope, provider, ResearchDays, ResearchLimit, asOf);
    var researchBrief := ResearchBrief(
      evidenceBundle.asOf,
      BriefScope(scope.holdingsSymbols, scope.diversifierTickers, ResearchDays, ResearchLimit),
      [], [], [], [], [], [], []);
    r := DeepResearchResult(researchBrief, evidenceBundle);
  }

  /** The brief's scope is the computed scope with a 7-day window and 3
      sources per symbol; its content lists are empty; the bundle is built
      for that scope with 7 days and 3 articles per symbol and carries the
      brief's timestamp. */
  lemma DeepResearchSpec(state: ExplainState, provider: Provider, asOf: string)
    ensures var r := DeepResearchOf(state, provider, asOf);
      var scope := ComputeResearchScope(state);
      && r.researchBrief.scope.symbols == scope.holdingsSymbols
      && r.researchBrief.scope.diversifierTickers == scope.diversifierTickers
      && r.researchBrief.scope.timeWindowDays == 7
      && r.researchBrief.scope.maxSourcesPerSymbol == 3
      && r.researchBrief.asOf == r.evidenceBundle.asOf == asOf
      && r.researchBrief.keyThemes == [] && r.researchBrief.symbolBriefs == []
      && r.researchBrief.holdingsBriefs == [] && r.researchBrief.diversifierBriefs == []
      && r.researchBrief.notableRisks == [] && r.researchBrief.notableOpportunities == []
      && r.researchBrief.citations == []
      && r.evidenceBundle.windowDays == 7 && r.evidenceBundle.perSymbolLimit == 3
      && r.evidenceBundle == EvidenceBundleOf(scope, provider, 7, 3, asOf)
  {
  }
}
