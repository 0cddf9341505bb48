/** Prices of settled trades: the maker's own price, and within the taker's limit. */
module Limits {
  import opened Types
  import opened Sums
  import opened BookSpec
  import opened Matching
  import opened Settlement
  import opened ExchangeSpec
  import opened Soundness
  import opened Tracking
  import opened Provenance
  import opened Runs
  import opened History

  /** `price` is at least as good for an order on `side` as its limit. */
  predicate NoWorse(side: Side, price: Price, limit: Price) {
    if side.Bid? then price <= limit else price >= limit
  }

  /** A trade names two orders of one market, on opposite sides, the older one resting; its
      price is the resting order's and respects the incoming order's limit, if it has one. */
  predicate TradeOk(pair: AssetIdPair, tx: ObTransaction, session: seq<PlacedOrder>, requests: seq<InsertionRequest>) {
    && tx.maker < tx.taker < |session| && tx.taker < |requests|
    && var maker, taker := session[tx.maker], session[tx.taker];
    && maker.pair == taker.pair == pair
    && taker.side == tx.takerSide && maker.side == tx.takerSide.Opposite()
    && maker.account != taker.account
    && tx.price == maker.price
    && (requests[tx.taker].orderType.Market? || NoWorse(tx.takerSide, tx.price, requests[tx.taker].price))
  }

  predicate EntryOk(e: Settled, session: seq<PlacedOrder>, requests: seq<InsertionRequest>) {
    && TradeOk(e.pair, e.tx, session, requests)
    && e.maker == session[e.tx.maker].account && e.taker == session[e.tx.taker].account
  }

  predicate LogOk(log: seq<Settled>, session: seq<PlacedOrder>, requests: seq<InsertionRequest>) {
    forall i :: 0 <= i < |log| ==> EntryOk(log[i], session, requests)
  }

  /** Only fields that never change matter, and records are only added. */
  lemma EntryOkFrame(e: Settled, session: seq<PlacedOrder>, requests: seq<InsertionRequest>,
                     session': seq<PlacedOrder>, requests': seq<InsertionRequest>)
    requires SameTerms(session, session') && |requests| == |session|
    requires |requests| <= |requests'| && requests'[..|requests|] == requests
    requires e.tx.maker < |session| && e.tx.taker < |session|
    ensures EntryOk(e, session, requests) <==> EntryOk(e, session', requests')
  {
    assert requests'[e.tx.taker] == requests'[..|requests|][e.tx.taker];
  }

  /** As long as the log names known orders, it is as good under later records as under these. */
  lemma LogOkFrame(log: seq<Settled>, session: seq<PlacedOrder>, requests: seq<InsertionRequest>,
                   session': seq<PlacedOrder>, requests': seq<InsertionRequest>)
    requires KnownOrders(log, |session|) && SameTerms(session, session') && |requests| == |session|
    requires |requests| <= |requests'| && requests'[..|requests|] == requests
    ensures LogOk(log, session, requests) <==> LogOk(log, session', requests')
  {
    hide EntryOk, SameTerms;
    forall i | 0 <= i < |log|
      ensures EntryOk(log[i], session, requests) <==> EntryOk(log[i], session', requests')
    {
      EntryOkFrame(log[i], session, requests, session', requests');
    }
  }

  // ---- insertions ----

  /** The maker of the trade rests on the other side of the requested market, within the requested limit. */
  predicate Suits(session: seq<PlacedOrder>, tx: ObTransaction, req: InsertionRequest) {
    && tx.maker < |session|
    && var p := session[tx.maker];
    && p.pair == req.pair && p.side == req.side.Opposite()
    && (req.orderType.Market? || NoWorse(req.side, p.price, req.price))
  }

  /** Every waiting trade suits the order. */
  predicate AllSuit(s: State, req: InsertionRequest) {
    forall i :: 0 <= i < |s.buf| ==> Suits(s.ledger.session, s.buf[i], req)
  }

  /** A waiting trade is a trade as it should be exactly when it suits the order it is booked on. */
  lemma WaitingOkIff(s: State, req: InsertionRequest, o: OrderInsertion, tx: ObTransaction)
    requires o == req.IntoInsertion(|s.ledger.session|) && Waits(tx, s.ledger.session)
    requires |s.requests| == |s.ledger.session| && s.ledger.session[tx.maker].account != o.account
    ensures EntryOk(Record(Placed(s, o).session, o.pair, tx), Placed(s, o).session, s.requests + [req])
       <==> Suits(s.ledger.session, tx, req)
  {}

  lemma RequestsCount(s: State)
    requires Sound(s)
    ensures |s.requests| == |s.ledger.session|
  {}

  lemma BookedAccountsDiffer(l: Ledger, pair: AssetIdPair, tx: ObTransaction)
    requires Addressable(l, pair, tx)
    ensures l.session[tx.maker].account != l.session[tx.taker].account
  {}

  /** One trade of an accepted insertion, inherited or its own. */
  lemma TradeOkIff(s: State, req: InsertionRequest, m: nat, o: OrderInsertion, i: nat)
    requires Filling(s, req, m, o) && i < |s.buf + FillIn(s, m, o).trades|
    requires Drain(Placed(s, o), s.buf + FillIn(s, m, o).trades, o.pair).Some?
    ensures var tx := (s.buf + FillIn(s, m, o).trades)[i]; var session := Placed(s, o).session;
            && tx.maker < |session| && tx.taker < |session|
            && (EntryOk(Record(session, o.pair, tx), session, s.requests + [req]) <==> Suits(s.ledger.session, tx, req))
            && (i >= |s.buf| ==> Suits(s.ledger.session, tx, req))
  {
    hide Offers, FillOf, Insert, Drain, Sound, MarketsKnown, Addressable;
    var txs := s.buf + FillIn(s, m, o).trades;
    if i >= |s.buf| { FillTrade(s, req, m, o, i - |s.buf|); }
    assert Waits(txs[i], s.ledger.session);
    RequestsCount(s);
    DrainKnown(Placed(s, o), txs, o.pair);
    BookedAccountsDiffer(Placed(s, o), o.pair, txs[i]);
    WaitingOkIff(s, req, o, txs[i]);
  }

  lemma RecordedOkIff(session: seq<PlacedOrder>, requests: seq<InsertionRequest>, pair: AssetIdPair,
                      txs: seq<ObTransaction>)
    requires forall tx :: tx in txs ==> tx.maker < |session| && tx.taker < |session|
    ensures LogOk(Recorded(session, pair, txs), session, requests)
       <==> forall i :: 0 <= i < |txs| ==> EntryOk(Record(session, pair, txs[i]), session, requests)
  {
    hide EntryOk, Record;
    RecordedLength(session, pair, txs);
    forall k | 0 <= k < |txs| ensures Recorded(session, pair, txs)[k] == Record(session, pair, txs[|txs| - 1 - k]) {
      RecordedAt(session, pair, txs, k);
    }
    if LogOk(Recorded(session, pair, txs), session, requests) {
      forall i | 0 <= i < |txs| ensures EntryOk(Record(session, pair, txs[i]), session, requests) {
        assert EntryOk(Recorded(session, pair, txs)[|txs| - 1 - i], session, requests);
      }
    }
  }

  /** Under the records the drain starts from. */
  lemma AddedLogOkIff(s: State, req: InsertionRequest, m: nat, o: OrderInsertion)
    requires Filling(s, req, m, o) && Drain(Placed(s, o), s.buf + FillIn(s, m, o).trades, o.pair).Some?
    ensures var l, txs := Placed(s, o), s.buf + FillIn(s, m, o).trades;
            && (forall tx :: tx in txs ==> tx.maker < |l.session| && tx.taker < |l.session|)
            && (LogOk(Recorded(l.session, o.pair, txs), l.session, s.requests + [req]) <==> AllSuit(s, req))
  {
    assert m < |s.markets|;
    hide FillIn, Filling, Drain, Recorded, EntryOk, Suits, LogOk, Record, Placed;
    var l, txs := Placed(s, o), s.buf + FillIn(s, m, o).trades;
    DrainKnown(l, txs, o.pair);
    RecordedOkIff(l.session, s.requests + [req], o.pair, txs);
    forall i | 0 <= i < |txs|
      ensures EntryOk(Record(l.session, o.pair, txs[i]), l.session, s.requests + [req])
         <==> Suits(s.ledger.session, txs[i], req)
      ensures i >= |s.buf| ==> Suits(s.ledger.session, txs[i], req)
    {
      TradeOkIff(s, req, m, o, i);
    }
    SuitsSplit(s, req, FillIn(s, m, o).trades);
  }

  /** When the order's own trades suit it, all trades do exactly when the waiting ones do. */
  lemma SuitsSplit(s: State, req: InsertionRequest, trades: seq<ObTransaction>)
    requires forall i :: |s.buf| <= i < |s.buf + trades| ==> Suits(s.ledger.session, (s.buf + trades)[i], req)
    ensures AllSuit(s, req)
       <==> forall i :: 0 <= i < |s.buf + trades| ==> Suits(s.ledger.session, (s.buf + trades)[i], req)
  {
    hide Suits;
    assert forall i :: 0 <= i < |s.buf| ==> (s.buf + trades)[i] == s.buf[i];
  }

  /** What an accepted insertion adds to the log is as it should be exactly when all waiting trades suit it. */
  lemma HeirLogOkIff(s: State, req: InsertionRequest)
    requires Sound(s) && Traceable(s) && AcceptsInsertion(s, req)
    ensures var s' := InsertOrder(s, req).state;
            && s.ledger.log <= s'.ledger.log
            && (LogOk(s'.ledger.log[|s.ledger.log|..], s'.ledger.session, s'.requests) <==> AllSuit(s, req))
  {
    hide Offers, FillIn, Insert, InsertOrder, Drain, Recorded, Sound, Traceable, EntryOk, LogOk, AllSuit;
    var m, o := InheritingOutcome(s, req);
    var l, txs := Placed(s, o), s.buf + FillIn(s, m, o).trades;
    var s' := InsertOrder(s, req).state;
    assert s'.ledger.log[|s.ledger.log|..] == Recorded(l.session, o.pair, txs);
    RequestsCount(s);
    DrainedSession(l, txs, o.pair);
    RecordedKnown(l.session, o.pair, txs);
    AddedLogOkIff(s, req, m, o);
    LogOkFrame(Recorded(l.session, o.pair, txs), l.session, s'.requests, s'.ledger.session, s'.requests);
  }

  // ---- runs ----

  /** The command places no order that some waiting trade does not suit. */
  ghost predicate SuitsWaiting(s: State, c: Command) {
    c.InsertCmd? && AcceptsInsertion(s, c.insertion) ==> AllSuit(s, c.insertion)
  }

  lemma LogOkConcat(a: seq<Settled>, b: seq<Settled>, session: seq<PlacedOrder>, requests: seq<InsertionRequest>)
    ensures LogOk(a + b, session, requests) <==> LogOk(a, session, requests) && LogOk(b, session, requests)
  {
    hide EntryOk;
    assert forall i :: 0 <= i < |a| ==> (a + b)[i] == a[i];
    assert forall i :: 0 <= i < |b| ==> (a + b)[|a| + i] == b[i];
    if LogOk(a + b, session, requests) {
      forall i | 0 <= i < |b| ensures EntryOk(b[i], session, requests) {
        assert EntryOk((a + b)[|a| + i], session, requests);
      }
    }
  }

  lemma InsertTerms(s: State, req: InsertionRequest)
    requires Sound(s) && Traceable(s) && AcceptsInsertion(s, req)
    ensures var s' := InsertOrder(s, req).state;
            SameTerms(s.ledger.session, s'.ledger.session) && s'.requests == s.requests + [req]
  {
    hide Offers, FillIn, Insert, InsertOrder, Drain, Recorded, Sound, Traceable;
    var m, o := InheritingOutcome(s, req);
    DrainedSession(Placed(s, o), s.buf + FillIn(s, m, o).trades, o.pair);
  }

  lemma AcceptedLogOkIff(s: State, req: InsertionRequest)
    requires Sound(s) && Traceable(s) && LogKnown(s) && AcceptsInsertion(s, req)
    ensures var s' := InsertOrder(s, req).state;
            LogOk(s'.ledger.log, s'.ledger.session, s'.requests)
            <==> LogOk(s.ledger.log, s.ledger.session, s.requests) && AllSuit(s, req)
  {
    hide InsertOrder, Sound, Traceable, LogOk, AllSuit, SameTerms;
    var s' := InsertOrder(s, req).state;
    HeirLogOkIff(s, req);
    InsertTerms(s, req);
    RequestsCount(s);
    LogOkFrame(s.ledger.log, s.ledger.session, s.requests, s'.ledger.session, s'.requests);
    assert s'.ledger.log == s.ledger.log + s'.ledger.log[|s.ledger.log|..];
    LogOkConcat(s.ledger.log, s'.ledger.log[|s.ledger.log|..], s'.ledger.session, s'.requests);
  }

  lemma StepLogOkIff(s: State, c: Command)
    requires Sound(s) && Traceable(s) && LogKnown(s) && s.ledger.balances.Dense() && Step(s, c).Done?
    ensures var s' := Step(s, c).state;
            LogOk(s'.ledger.log, s'.ledger.session, s'.requests)
            <==> LogOk(s.ledger.log, s.ledger.session, s.requests) && SuitsWaiting(s, c)
  {
    hide InsertOrder, Cancel, Modify, Sound, Traceable, LogOk, AllSuit;
    RequestsCount(s);
    if c.InsertCmd? && AcceptsInsertion(s, c.insertion) {
      AcceptedLogOkIff(s, c.insertion);
    } else {
      if c.InsertCmd? { RefusedLedger(s, c.insertion); }
      var s' := Step(s, c).state;
      LogOkFrame(s.ledger.log, s.ledger.session, s.requests, s'.ledger.session, s'.requests);
    }
  }

  /** A run in which every accepted order is suited by all trades that wait for it. */
  ghost predicate SuitedRun(cmds: seq<Command>)
    decreases |cmds|
  {
    cmds == [] ||
    var n := |cmds| - 1;
    && SuitedRun(cmds[..n])
    && (Run(cmds[..n]).Running? ==> SuitsWaiting(Run(cmds[..n]).state, cmds[n]))
  }

  /** After a run every settled trade has its maker's price, is between two orders of the market it was booked
      in, and respects its taker's side and limit, exactly when every accepted order was suited. */
  lemma {:induction false} LimitsRespectedIff(cmds: seq<Command>)
    requires Run(cmds).Running?
    ensures var s := Run(cmds).state; LogOk(s.ledger.log, s.ledger.session, s.requests) <==> SuitedRun(cmds)
    decreases |cmds|
  {
    hide Step, LogOk, Sound, Traceable, LogKnown;
    if cmds == [] {
      var s := EMPTY_EXCHANGE;
      assert LogOk(s.ledger.log, s.ledger.session, s.requests) by { EmptyLogOk(); }
    } else {
      var n := |cmds| - 1;
      LimitsRespectedIff(cmds[..n]);
      RunSound(cmds[..n]);
      TraceableOverRuns(cmds[..n]);
      OpenVolumeIsHistory(cmds[..n]);
      StepLogOkIff(Run(cmds[..n]).state, cmds[n]);
    }
  }

  lemma EmptyLogOk()
    ensures LogOk([], [], [])
  {}

  /** Nothing ever waits in a calm run. */
  lemma {:induction false} CalmSuited(cmds: seq<Command>)
    requires Calm(cmds)
    ensures SuitedRun(cmds)
    decreases |cmds|
  {
    hide Step, Sound, MarketMatches, Aligned;
    if cmds != [] {
      var n := |cmds| - 1;
      CalmSuited(cmds[..n]);
      TrackedOverRuns(cmds[..n]);
    }
  }

  /** So in every calm run all settled trades are as they should be. */
  lemma LimitsRespected(cmds: seq<Command>)
    requires Calm(cmds)
    ensures Run(cmds).Running?
    ensures var s := Run(cmds).state; LogOk(s.ledger.log, s.ledger.session, s.requests)
  {
    TrackedOverRuns(cmds);
    CalmSuited(cmds);
    LimitsRespectedIff(cmds);
  }

  function CostOf(id: OrderId): Settled -> int {
    (e: Settled) => if Touches(e.tx, id) then e.tx.volume * e.tx.price else 0
  }

  /** What order `id` paid or received in the secondary asset, over all its trades. */
  function Cost(log: seq<Settled>, id: OrderId): int {
    SumBy(log, CostOf(id))
  }

  lemma TimesMonotone(v: Volume, p: int, q: int)
    requires p <= q
    ensures v * p <= v * q
  {}

  lemma {:induction false} CostWithinLimit(log: seq<Settled>, session: seq<PlacedOrder>,
                                           requests: seq<InsertionRequest>, id: OrderId)
    requires LogOk(log, session, requests) && id < |session| == |requests|
    requires !requests[id].orderType.Market?
    requires session[id].price == requests[id].price && session[id].side == requests[id].side
    ensures NoWorse(requests[id].side, Cost(log, id), FilledVolume(log, id) * requests[id].price)
  {
    if log != [] {
      var k := |log| - 1;
      CostWithinLimit(log[..k], session, requests, id);
      var e, limit := log[k], requests[id].price;
      assert EntryOk(e, session, requests);
      if Touches(e.tx, id) {
        if requests[id].side.Bid? { TimesMonotone(e.tx.volume, e.tx.price, limit); }
        else { TimesMonotone(e.tx.volume, limit, e.tx.price); }
        assert FilledVolume(log, id) == FilledVolume(log[..k], id) + e.tx.volume;
        assert (FilledVolume(log[..k], id) + e.tx.volume) * limit
            == FilledVolume(log[..k], id) * limit + e.tx.volume * limit;
      }
    }
  }

  /** When every accepted order was suited, a bid that is not a market order pays at most its limit per unit
      filled, and an ask receives at least its limit. */
  lemma OrderCostWithinLimit(cmds: seq<Command>, id: OrderId)
    requires SuitedRun(cmds) && Run(cmds).Running? && id < |Run(cmds).state.requests|
    requires !Run(cmds).state.requests[id].orderType.Market?
    ensures var s := Run(cmds).state; var req := s.requests[id];
            && id < |s.ledger.session|
            && NoWorse(req.side, Cost(s.ledger.log, id), (req.volume - s.ledger.session[id].remaining) * req.price)
  {
    hide SuitedRun, Run, LogOk, Cost, FilledVolume;
    LimitsRespectedIff(cmds);
    OpenVolumeIsHistory(cmds);
    RunSound(cmds);
    var s := Run(cmds).state;
    assert OrderOk(s.ledger.session[id], id, s.requests[id], s.accounts, s.markets);
    CostWithinLimit(s.ledger.log, s.ledger.session, s.requests, id);
  }
}
