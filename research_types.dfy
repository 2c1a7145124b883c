/** The research records: news articles, diversifier candidates, the
    evidence bundle of fetched news and the research brief. */
module ResearchTypes {
  import opened Seqs
  import opened OrderedMaps

  /** One news item as a provider returns it. Only its presence is used by
      the aggregation; its fields mirror a citation. */
  datatype NewsArticle = NewsArticle(title: string, url: string, publisher: Option<string>, publishedAt: Option<string>)

  datatype Citation = Citation(title: string, url: string, publisher: Option<string>, publishedAt: Option<string>)

  /** The ten diversifier categories a candidate can be filed under. */
  datatype Category =
    | DefensiveSector
    | DividendQuality
    | BroadUsEquity
    | InternationalEquity
    | BondsShortDuration
    | BondsCore
    | GoldCommodities
    | LowVolatility
    | RealEstate
    | CashEquivalent

  datatype DiversifierCandidate = DiversifierCandidate(ticker: string, category: Category, rationale: string)

  datatype Sentiment = Positive | Neutral | Negative | Mixed

  datatype Confidence = LowConfidence | MediumConfidence | HighConfidence

  datatype SymbolBrief = SymbolBrief(
    symbol: string,
    bullets: seq<string>,
    sentiment: Sentiment,
    confidence: Confidence,
    citations: seq<Citation>)

  datatype BriefScope = BriefScope(
    symbols: seq<string>,
    diversifierTickers: seq<string>,
    timeWindowDays: int,
    maxSourcesPerSymbol: int)

  datatype ResearchBrief = ResearchBrief(
    asOf: string,
    scope: BriefScope,
    keyThemes: seq<string>,
    symbolBriefs: seq<SymbolBrief>,
    holdingsBriefs: seq<SymbolBrief>,
    diversifierBriefs: seq<SymbolBrief>,
    notableRisks: seq<string>,
    notableOpportunities: seq<string>,
    citations: seq<Citation>)

  /** One failed symbol fetch. */
  datatype FetchError = FetchError(symbol: string, message: string)

  /** The provider name the bundle reports: always "polygon". */
  const PolygonProviderName := "polygon"

  datatype BundleMeta = BundleMeta(
    provider: string,
    fetchedSymbols: seq<string>,
    totalArticles: int,
    errors: seq<FetchError>)

  /** The fetched news, grouped by symbol in two records. */
  datatype EvidenceBundle = EvidenceBundle(
    asOf: string,
    windowDays: int,
    perSymbolLimit: int,
    holdings: OrderedMap<seq<NewsArticle>>,
    diversifiers: OrderedMap<seq<NewsArticle>>,
    meta: BundleMeta)

  datatype DeepResearchResult = DeepResearchResult(researchBrief: ResearchBrief, evidenceBundle: EvidenceBundle)
}
