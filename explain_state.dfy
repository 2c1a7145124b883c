/** The state record that the analysis pipeline passes from agent to agent.
    Every field except `holdings` may be absent. */
module ExplainTypes {
  import opened Seqs
  import opened PortfolioTypes
  import opened ResearchTypes
  import Diff

  datatype ExplainState = ExplainState(
    holdings: seq<Holding>,
    stats: Option<PortfolioStats>,
    explanation: Option<string>,
    riskLevel: Option<RiskLevel>,
    riskFactors: Option<seq<string>>,
    warning: Option<string>,
    diversificationIdeas: Option<string>,
    useLivePrices: Option<bool>,
    portfolioDiff: Option<Diff.PortfolioDiff>,
    researchBrief: Option<ResearchBrief>,
    evidenceBundle: Option<EvidenceBundle>,
    diversifierCandidates: Option<seq<DiversifierCandidate>>)
}
