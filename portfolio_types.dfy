/** The portfolio records: a holding as imported, and the statistics
    derived from a list of holdings. Numbers are mathematical reals. */
module PortfolioTypes {
  import opened Seqs

  /** One position. A missing price or asset class is `None`. */
  datatype Holding = Holding(symbol: string, shares: real, price: Option<real>, assetClass: Option<string>)

  /** One row of `bySymbol`. */
  datatype SymbolRow = SymbolRow(symbol: string, value: real, weight: real, assetClass: Option<string>)

  /** One row of `byAssetClass`. */
  datatype ClassRow = ClassRow(assetClass: string, value: real, weight: real)

  datatype PortfolioStats = PortfolioStats(
    totalValue: real,
    bySymbol: seq<SymbolRow>,
    byAssetClass: seq<ClassRow>,
    topSymbols: seq<string>,
    concentrationTop1: real,
    concentrationTop3: real)

  datatype RiskLevel = Low | Medium | High
}
