/** The deterministic diversifier-candidate selector. A fixed menu lists,
    per category, a few tickers and a one-line rationale; the risk level
    picks three categories, and each category contributes its first ticker
    that the portfolio does not already hold. */
module Diversifiers {
  import opened Seqs
  import opened Strings
  import opened PortfolioTypes
  import opened ResearchTypes
  import opened ExplainTypes

  /** One row of the menu. */
  datatype CategoryTicker = CategoryTicker(category: Category, tickers: seq<string>, rationale: string)

  const DefensiveSectorRow := CategoryTicker(DefensiveSector, ["PG", "JNJ", "NEE"],
    "Defensive sectors tend to exhibit lower volatility during market downturns.")
  const BondsShortDurationRow := CategoryTicker(BondsShortDuration, ["SGOV", "BIL"],
    "Short-duration bonds offer stability with minimal interest rate sensitivity.")
  const BondsCoreRow := CategoryTicker(BondsCore, ["BND", "AGG"],
    "Core bond funds provide diversified fixed-income exposure across maturities.")
  const LowVolatilityRow := CategoryTicker(LowVolatility, ["USMV", "SPLV"],
    "Low-volatility equity strategies target stocks with historically lower price swings.")
  const BroadUsEquityRow := CategoryTicker(BroadUsEquity, ["VTI", "SCHB", "ITOT"],
    "Broad US market ETFs offer diversified exposure across all market capitalizations.")
  const InternationalEquityRow := CategoryTicker(InternationalEquity, ["VEA", "EFA"],
    "International equity funds provide geographic diversification beyond US markets.")
  const GoldCommoditiesRow := CategoryTicker(GoldCommodities, ["GLD", "IAU"],
    "Gold and commodity exposure can serve as a hedge during inflationary periods.")

  /** The menu, in its declared order. */
  const DiversifierMenu: seq<CategoryTicker> := [
    DefensiveSectorRow, BondsShortDurationRow, BondsCoreRow, LowVolatilityRow,
    BroadUsEquityRow, InternationalEquityRow, GoldCommoditiesRow
  ]

  /** The category's name as it appears in messages. */
  function CategoryName(c: Category): string {
    match c
    case DefensiveSector => "DEFENSIVE_SECTOR"
    case DividendQuality => "DIVIDEND_QUALITY"
    case BroadUsEquity => "BROAD_US_EQUITY"
    case InternationalEquity => "INTERNATIONAL_EQUITY"
    case BondsShortDuration => "BONDS_SHORT_DURATION"
    case BondsCore => "BONDS_CORE"
    case GoldCommodities => "GOLD_COMMODITIES"
    case LowVolatility => "LOW_VOLATILITY"
    case RealEstate => "REAL_ESTATE"
    case CashEquivalent => "CASH_EQUIVALENT"
  }

  /** The three categories suggested for a risk level; an absent level is
      treated like MEDIUM. */
  function CategoriesForRisk(level: Option<RiskLevel>): (cs: seq<Category>)
    ensures |cs| == 3
    ensures cs[0] != cs[1] && cs[0] != cs[2] && cs[1] != cs[2]
  {
    match level
    case Some(High) => [DefensiveSector, BondsShortDuration, LowVolatility]
    case Some(Low) => [BroadUsEquity, InternationalEquity, GoldCommodities]
    case _ => [DefensiveSector, InternationalEquity, BondsCore]
  }

  /** `menu.find((m) => m.category === c)`: the first row of category `c`. */
  function FindMenu(menu: seq<CategoryTicker>, c: Category): (r: Option<CategoryTicker>)
    ensures r.None? <==> forall i :: 0 <= i < |menu| ==> menu[i].category != c
    ensures r.Some? ==> r.value in menu && r.value.category == c
  {
    if menu == [] then None
    else if menu[0].category == c then Some(menu[0])
    else FindMenu(menu[1..], c)
  }

  /** The row found is the first row of its category. */
  lemma {:induction false} FindMenuFirst(menu: seq<CategoryTicker>, c: Category)
    ensures var r := FindMenu(menu, c);
      r.Some? ==> exists k :: FirstOfCategory(menu, c, k) && menu[k] == r.value
  {
    if menu != [] && menu[0].category != c && FindMenu(menu, c).Some? {
      var rest := menu[1..];
      FindMenuFirst(rest, c);
      var k :| FirstOfCategory(rest, c, k) && rest[k] == FindMenu(rest, c).value;
      assert forall j :: 0 < j <= k + 1 ==> menu[j] == rest[j - 1];
      assert FirstOfCategory(menu, c, k + 1);
    } else if FindMenu(menu, c).Some? {
      assert FirstOfCategory(menu, c, 0);
    }
  }

  /** Row `k` has category `c` and no earlier row does. */
  predicate FirstOfCategory(menu: seq<CategoryTicker>, c: Category, k: int) {
    && 0 <= k < |menu|
    && menu[k].category == c
    && forall j :: 0 <= j < k ==> menu[j].category != c
  }

  /** `heldSymbols.has(normalizeSymbol(ticker))`. */
  predicate IsHeld(ticker: string, held: set<string>) {
    NormalizeSymbol(ticker) in held
  }

  /** The first ticker whose normalised form is not in `held`, if any. */
  function FirstNotHeld(tickers: seq<string>, held: set<string>): (r: Option<string>)
    ensures r.None? <==> forall j :: 0 <= j < |tickers| ==> IsHeld(tickers[j], held)
  {
    if tickers == [] then None
    else if !IsHeld(tickers[0], held) then Some(tickers[0])
    else
      var rest := tickers[1..];
      assert forall j :: 0 < j < |tickers| ==> tickers[j] == rest[j - 1];
      FirstNotHeld(rest, held)
  }

  /** A ticker found is the earliest one not held. */
  lemma {:induction false} FirstNotHeldIsFirst(tickers: seq<string>, held: set<string>)
    ensures var r := FirstNotHeld(tickers, held);
      r.Some? ==>
        exists k :: 0 <= k < |tickers| && tickers[k] == r.value && !IsHeld(r.value, held)
          && forall j :: 0 <= j < k ==> IsHeld(tickers[j], held)
  {
    var r := FirstNotHeld(tickers, held);
    if tickers != [] && IsHeld(tickers[0], held) && r.Some? {
      var rest := tickers[1..];
      FirstNotHeldIsFirst(rest, held);
      var k :| 0 <= k < |rest| && rest[k] == r.value && !IsHeld(r.value, held)
        && forall j :: 0 <= j < k ==> IsHeld(rest[j], held);
      assert tickers[k + 1] == r.value;
      forall j | 0 <= j < k + 1
        ensures IsHeld(tickers[j], held)
      {
        if j > 0 {
          assert tickers[j] == rest[j - 1];
        }
      }
    } else if r.Some? {
      assert tickers[0] == r.value;
    }
  }

  /** `pickFirstNotHeld`: the first ticker not already held, or the first
      ticker when every one of them is held. */
  function PickFirstNotHeld(tickers: seq<string>, held: set<string>): (t: string)
    requires |tickers| > 0
    ensures t in tickers
    ensures (forall j :: 0 <= j < |tickers| ==> IsHeld(tickers[j], held)) ==> t == tickers[0]
    ensures (exists j :: 0 <= j < |tickers| && !IsHeld(tickers[j], held)) ==>
      exists k :: 0 <= k < |tickers| && tickers[k] == t && !IsHeld(t, held)
        && forall j :: 0 <= j < k ==> IsHeld(tickers[j], held)
  {
    FirstNotHeldIsFirst(tickers, held);
    FirstNotHeld(tickers, held).GetOr(tickers[0])
  }

  /** The normalised symbols of the holdings. */
  function HeldSymbols(holdings: seq<Holding>): set<string> {
    set s | s in MapSeq(holdings, HeldKey)
  }

  /** The form in which a holding's symbol enters the held set. */
  function HeldKey(h: Holding): string {
    NormalizeSymbol(h.symbol)
  }

  /** Every row of `menu` offers at least one ticker. */
  predicate TickersPresent(menu: seq<CategoryTicker>) {
    forall i :: 0 <= i < |menu| ==> |menu[i].tickers| > 0
  }

  lemma MenuTickersPresent()
    ensures TickersPresent(DiversifierMenu)
  {
  }

  /** The candidate for one category, or the error for a category the menu lacks. */
  function CandidateFor(menu: seq<CategoryTicker>, c: Category, held: set<string>): Result<DiversifierCandidate>
    requires TickersPresent(menu)
  {
    match FindMenu(menu, c)
    case None => Failure("No menu found for category: " + CategoryName(c))
    case Some(m) => Success(DiversifierCandidate(PickFirstNotHeld(m.tickers, held), c, m.rationale))
  }

  /** `categories.map(...)`: the candidates in order, or the first error thrown. */
  function CandidatesFor(menu: seq<CategoryTicker>, cats: seq<Category>, held: set<string>): Result<seq<DiversifierCandidate>>
    requires TickersPresent(menu)
  {
    if cats == [] then Success([])
    else
      match CandidatesFor(menu, Init(cats), held)
      case Failure(e) => Failure(e)
      case Success(prev) =>
        match CandidateFor(menu, Last(cats), held)
        case Failure(e) => Failure(e)
        case Success(c) => Success(prev + [c])
  }

  /** `diversifierCandidatesAgent(state).diversifierCandidates`. */
  function DiversifierCandidatesAgent(state: ExplainState): (r: Result<seq<DiversifierCandidate>>)
    ensures r.Success? && |r.value| == 3
    ensures forall i :: 0 <= i < 3 ==> r.value[i].category == CategoriesForRisk(state.riskLevel)[i]
  {
    MenuTickersPresent();
    CategoriesHaveMenus(state.riskLevel);
    CandidatesForSpec(DiversifierMenu, CategoriesForRisk(state.riskLevel), HeldSymbols(state.holdings));
    CandidatesFor(DiversifierMenu, CategoriesForRisk(state.riskLevel), HeldSymbols(state.holdings))
  }

  // ----- what the selection means -----

  /** Every category a risk level can select has a menu row, so the
      "No menu found" error cannot be raised. */
  lemma CategoriesHaveMenus(level: Option<RiskLevel>)
    ensures forall c :: c in CategoriesForRisk(level) ==> FindMenu(DiversifierMenu, c).Some?
  {
    assert DiversifierMenu[0].category == DefensiveSector;
    assert DiversifierMenu[1].category == BondsShortDuration;
    assert DiversifierMenu[2].category == BondsCore;
    assert DiversifierMenu[3].category == LowVolatility;
    assert DiversifierMenu[4].category == BroadUsEquity;
    assert DiversifierMenu[5].category == InternationalEquity;
    assert DiversifierMenu[6].category == GoldCommodities;
  }

  /** When every category has a menu row, the candidates are one per
      category in order, each built from its category's row. */
  lemma {:induction false} CandidatesForSpec(menu: seq<CategoryTicker>, cats: seq<Category>, held: set<string>)
    requires TickersPresent(menu)
    requires forall c :: c in cats ==> FindMenu(menu, c).Some?
    ensures CandidatesFor(menu, cats, held).Success?
    ensures var cs := CandidatesFor(menu, cats, held).value;
      && |cs| == |cats|
      && forall i :: 0 <= i < |cats| ==>
           var m := FindMenu(menu, cats[i]).value;
           cs[i] == DiversifierCandidate(PickFirstNotHeld(m.tickers, held), cats[i], m.rationale)
  {
    if cats != [] {
      CandidatesForSpec(menu, Init(cats), held);
      assert Last(cats) in cats;
      var prev := CandidatesFor(menu, Init(cats), held).value;
      var m := FindMenu(menu, Last(cats)).value;
      var c := DiversifierCandidate(PickFirstNotHeld(m.tickers, held), Last(cats), m.rationale);
      assert CandidateFor(menu, Last(cats), held) == Success(c);
      assert CandidatesFor(menu, cats, held) == Success(prev + [c]);
      var cs := prev + [c];
      forall i | 0 <= i < |cats|
        ensures cs[i] == DiversifierCandidate(PickFirstNotHeld(FindMenu(menu, cats[i]).value.tickers, held),
                                              cats[i], FindMenu(menu, cats[i]).value.rationale)
      {
        if i < |cats| - 1 {
          assert cats[i] == Init(cats)[i] && cs[i] == prev[i];
        }
      }
    }
  }

  /** `cand` is the candidate that row `m` yields for category `c`: same
      category and rationale, and a ticker of the row that is the first one
      not held, or the row's first ticker when all of them are held. */
  predicate FromRow(cand: DiversifierCandidate, c: Category, m: CategoryTicker, held: set<string>) {
    && cand.category == c
    && cand.rationale == m.rationale
    && cand.ticker in m.tickers
    && ((forall j :: 0 <= j < |m.tickers| ==> IsHeld(m.tickers[j], held)) ==> cand.ticker == m.tickers[0])
    && ((exists j :: 0 <= j < |m.tickers| && !IsHeld(m.tickers[j], held)) ==>
          exists k :: 0 <= k < |m.tickers| && m.tickers[k] == cand.ticker && !IsHeld(cand.ticker, held)
            && forall j :: 0 <= j < k ==> IsHeld(m.tickers[j], held))
  }

  /** What one candidate is, for any menu that has a row for each category. */
  lemma CandidateFacts(menu: seq<CategoryTicker>, cats: seq<Category>, held: set<string>, i: nat)
    requires TickersPresent(menu)
    requires forall c :: c in cats ==> FindMenu(menu, c).Some?
    requires i < |cats|
    ensures CandidatesFor(menu, cats, held).Success?
    ensures |CandidatesFor(menu, cats, held).value| == |cats|
    ensures FindMenu(menu, cats[i]).Some?
    ensures FromRow(CandidatesFor(menu, cats, held).value[i], cats[i], FindMenu(menu, cats[i]).value, held)
  {
    CandidatesForSpec(menu, cats, held);
    assert cats[i] in cats;
  }

  /** The agent never fails and returns exactly three candidates, one for
      each category of the risk level, in that order, each built from its
      category's menu row. */
  lemma AgentSpec(state: ExplainState)
    ensures DiversifierCandidatesAgent(state).Success?
    ensures var cs := DiversifierCandidatesAgent(state).value;
      var cats := CategoriesForRisk(state.riskLevel);
      && |cs| == 3
      && forall i :: 0 <= i < 3 ==>
           && FindMenu(DiversifierMenu, cats[i]).Some?
           && FromRow(cs[i], cats[i], FindMenu(DiversifierMenu, cats[i]).value, HeldSymbols(state.holdings))
  {
    var cats := CategoriesForRisk(state.riskLevel);
    var held := HeldSymbols(state.holdings);
    MenuTickersPresent();
    CategoriesHaveMenus(state.riskLevel);
    CandidateFacts(DiversifierMenu, cats, held, 0);
    forall i | 0 <= i < 3
      ensures FindMenu(DiversifierMenu, cats[i]).Some?
      ensures FromRow(CandidatesFor(DiversifierMenu, cats, held).value[i], cats[i], FindMenu(DiversifierMenu, cats[i]).value, held)
    {
      CandidateFacts(DiversifierMenu, cats, held, i);
    }
  }

  /** The result depends only on the risk level and the set of normalised
      held symbols: holdings in another order, with repeats, or spelled
      with other case or surrounding spaces give the same candidates. */
  lemma DependsOnlyOnHeldSet(s1: ExplainState, s2: ExplainState)
    requires s1.riskLevel == s2.riskLevel
    requires forall x :: x in MapSeq(s1.holdings, HeldKey) <==> x in MapSeq(s2.holdings, HeldKey)
    ensures DiversifierCandidatesAgent(s1) == DiversifierCandidatesAgent(s2)
  {
    assert HeldSymbols(s1.holdings) == HeldSymbols(s2.holdings);
  }
}
