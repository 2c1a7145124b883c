/** The live-price refresh: each holding that is not cash-like gets the
    previous close of its symbol when the market-data service returns one.
    The service is an oracle that says, per holding, what the request
    produced; the pause between requests is not modelled. */
module PriceUpdate {
  import opened Seqs
  import opened PortfolioTypes

  /** What `fetchPrevClose(symbol)` produced for one holding: a close, a
      null result, or a thrown error. */
  datatype PriceOutcome = Close(close: real) | NoClose | FetchFailed

  /** Cash-like rows are never repriced. */
  predicate IsCashLike(h: Holding) {
    h.assetClass == Some("CASH") || h.symbol == "SPAXX"
  }

  /** The output row for one holding and the outcome of its request. */
  function Repriced(h: Holding, outcome: PriceOutcome): Holding {
    if IsCashLike(h) then h
    else if outcome.Close? then h.(price := Some(outcome.close))
    else h
  }

  /** Every holding repriced with its own outcome. */
  function RepriceAll(holdings: seq<Holding>, outcomes: seq<PriceOutcome>): (r: seq<Holding>)
    requires |outcomes| == |holdings|
    ensures |r| == |holdings|
    ensures forall i :: 0 <= i < |holdings| ==> r[i] == Repriced(holdings[i], outcomes[i])
  {
    seq(|holdings|, i requires 0 <= i < |holdings| => Repriced(holdings[i], outcomes[i]))
  }

  /** `updateHoldingsPrices(holdings)`, with `outcomes[i]` the result of the
      request for `holdings[i]` (not consulted for a cash-like row, for which
      no request is made). One row out per row in, in order: a cash-like row
      is passed through unchanged; otherwise a returned close replaces the
      price, a null close or a failed request keeps the old price, and the
      symbol, share count and asset class never change. */
  method UpdateHoldingsPrices(holdings: seq<Holding>, outcomes: seq<PriceOutcome>) returns (out: seq<Holding>)
    requires |outcomes| == |holdings|
    ensures |out| == |holdings|
    ensures forall i :: 0 <= i < |holdings| && IsCashLike(holdings[i]) ==> out[i] == holdings[i]
    ensures forall i :: 0 <= i < |holdings| ==>
      && out[i].symbol == holdings[i].symbol
      && out[i].shares == holdings[i].shares
      && out[i].assetClass == holdings[i].assetClass
    ensures forall i :: 0 <= i < |holdings| && !IsCashLike(holdings[i]) ==>
      out[i].price == if outcomes[i].Close? then Some(outcomes[i].close) else holdings[i].price
    ensures out == RepriceAll(holdings, outcomes)
  {
    out := [];
    for i := 0 to |holdings|
      invariant |out| == i
      invariant forall k :: 0 <= k < i ==> out[k] == Repriced(holdings[k], outcomes[k])
    {
      var h := holdings[i];
      if h.assetClass == Some("CASH") || h.symbol == "SPAXX" {
        out := out + [h];
        continue;
      }

      var price := h.price;
      match outcomes[i] {
        case Close(close) => price := Some(close);
        case NoClose =>
        case FetchFailed =>
      }

      out := out + [h.(price := price)];
    }
  }

  /** Repricing with the same outcomes a second time changes nothing more. */
  lemma RepricedIdempotent(h: Holding, outcome: PriceOutcome)
    ensures Repriced(Repriced(h, outcome), outcome) == Repriced(h, outcome)
  {
    if !IsCashLike(h) && outcome.Close? {
      assert !IsCashLike(h.(price := Some(outcome.close)));
    }
  }

  /** When no request returns a close, every row keeps its price: the
      output is the input. */
  lemma NoCloseKeepsHoldings(holdings: seq<Holding>, outcomes: seq<PriceOutcome>)
    requires |outcomes| == |holdings|
    requires forall i :: 0 <= i < |outcomes| ==> !outcomes[i].Close?
    ensures RepriceAll(holdings, outcomes) == holdings
  {
  }
}
