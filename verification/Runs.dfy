/** The session table and the books over whole runs of commands. */
module Runs {
  import opened Types
  import opened BookSpec
  import opened Sums
  import opened Matching
  import opened BookFacts
  import opened BalancesSpec
  import opened ExchangeSpec
  import opened Soundness
  import opened Tracking
  import opened InsertTracking
  import opened CancelTracking
  import opened Views

  /** Accounts are created with `create_account`, and every market trades two different assets. */
  predicate Regular(c: Command) {
    && !c.CreateNamedAccountCmd?
    && (c.AddMarketCmd? ==> c.pair.primary != c.pair.secondary)
  }

  /** The command does not run into the account's own resting order. */
  predicate NoSelfTrade(s: State, c: Command)
    requires s.ledger.balances.Dense()
  {
    Step(s, c).Done? ==> Step(s, c).reply != InsertReply(Err(SelfTrade))
  }

  /** A modification that gets as far as the book finds at least the open volume recorded as the
      volume; refused ones are not restricted. */
  ghost predicate ModifyCovered(s: State, c: Command) {
    c.ModifyCmd? ==>
      forall m :: ReachesBook(s, c.modification, m) ==>
        var p := s.ledger.session[c.modification.orderId]; p.remaining <= p.volume
  }

  /** A run of regular commands without self-trades in which every modification that reaches the book is covered. */
  ghost predicate Calm(cmds: seq<Command>)
    decreases |cmds|
  {
    cmds == [] ||
    var n := |cmds| - 1;
    && Calm(cmds[..n]) && Regular(cmds[n])
    && (Run(cmds[..n]).Running? ==>
          NoSelfTrade(Run(cmds[..n]).state, cmds[n]) && ModifyCovered(Run(cmds[..n]).state, cmds[n]))
  }

  predicate Unmodified(cmds: seq<Command>) {
    forall i :: 0 <= i < |cmds| ==> !cmds[i].ModifyCmd?
  }

  // ---- one step ----

  lemma GrowKeepsTracked(s: State, s': State, exact: bool)
    requires Tracked(s, exact) && s'.buf == s.buf && s'.ledger.session == s.ledger.session
    requires s'.markets == s.markets || exists m :: s'.markets == s.markets + [m] && m.book == EMPTY_BOOK
    ensures Tracked(s', exact)
  {
    forall i | 0 <= i < |s'.markets| ensures MarketMatches(s'.ledger.session, s'.markets[i], exact) {
      if i < |s.markets| {
        assert MarketMatches(s.ledger.session, s.markets[i], exact);
      }
    }
  }

  lemma {:induction false} FindMarketKept(markets: seq<MarketState>, market: MarketState, pair: AssetIdPair)
    requires FindMarket(markets, pair).Some?
    ensures FindMarket(markets + [market], pair) == FindMarket(markets, pair)
  {
    if markets[0].pair != pair {
      assert (markets + [market])[1..] == markets[1..] + [market];
      FindMarketKept(markets[1..], market, pair);
    }
  }

  lemma AddMarketKeepsComplete(s: State, pair: AssetIdPair)
    requires Complete(s)
    ensures Complete(AddMarket(s, pair).state)
  {
    var s' := AddMarket(s, pair).state;
    if s' != s {
      forall id | 0 <= id < |s'.ledger.session| && Live(s'.ledger.session[id])
        ensures Rests(s'.ledger.session, s'.markets, id)
      {
        assert Rests(s.ledger.session, s.markets, id);
        FindMarketKept(s.markets, MarketState(pair, 0, EMPTY_BOOK), s.ledger.session[id].pair);
      }
    }
  }

  /** One command of a calm run; exact agreement survives everything but modifications. */
  lemma StepKeepsTracked(s: State, c: Command, exact: bool)
    requires Sound(s) && Tracked(s, exact) && Aligned(s) && DistinctAssets(s)
    requires Regular(c) && NoSelfTrade(s, c) && ModifyCovered(s, c) && (exact ==> !c.ModifyCmd?)
    ensures Step(s, c).Done?
    ensures var s' := Step(s, c).state; Tracked(s', exact) && Aligned(s') && DistinctAssets(s')
  {
    hide InsertOrder, Sound, MarketMatches, CancelOrder;
    match c
    case AddAssetCmd => GrowKeepsTracked(s, Step(s, c).state, exact); AddAssetDense(s.ledger.balances);
    case CreateAccountCmd => GrowKeepsTracked(s, Step(s, c).state, exact);
    case AddMarketCmd(pair) => GrowKeepsTracked(s, Step(s, c).state, exact);
    case InsertCmd(req) => InsertKeepsTracked(s, req, exact);
    case CancelCmd(req) =>
      CancelKeepsTracked(s, req, exact);
      CancelFrame(s, req);
    case ModifyCmd(req) =>
      ModifyFrame(s, req);
      ModifyKeepsTracked(s, req);
    case QueryCmd(q) =>
  }

  /** Cancelling and modifying touch neither balances nor the list of markets. */
  lemma CancelFrame(s: State, req: CancellationRequest)
    requires Aligned(s) && DistinctAssets(s)
    ensures var s' := CancelOrder(s, req).state; Aligned(s') && DistinctAssets(s')
  {
    hide Cancel;
  }

  lemma ModifyFrame(s: State, req: ModificationRequest)
    requires Aligned(s) && DistinctAssets(s) && ModifyCovered(s, ModifyCmd(req))
    ensures ModifyOrder(s, req).Done?
    ensures var s' := ModifyOrder(s, req).state; Aligned(s') && DistinctAssets(s')
  {
    hide Modify;
    if m: nat :| ReachesBook(s, req, m) {
      ModifyCases(s, req, m);
    } else {
      ModifyRejected(s, req);
    }
  }

  lemma StepKeepsMirror(s: State, c: Command)
    requires Sound(s) && Mirror(s) && Aligned(s) && DistinctAssets(s)
    requires Regular(c) && NoSelfTrade(s, c) && !c.ModifyCmd?
    ensures Step(s, c).Done?
    ensures Mirror(Step(s, c).state)
  {
    StepKeepsTracked(s, c, true);
    hide InsertOrder, Sound, Tracked, CancelOrder;
    match c
    case AddAssetCmd =>
    case CreateAccountCmd =>
    case AddMarketCmd(pair) => AddMarketKeepsComplete(s, pair);
    case InsertCmd(req) => InsertKeepsMirror(s, req);
    case CancelCmd(req) => CancelKeepsMirror(s, req);
    case QueryCmd(q) =>
  }

  // ---- runs ----

  /** Over every calm run, modifications included, no settlement ever underflows or fails, and
      every resting order is bounded by its record. */
  lemma {:induction false} TrackedOverRuns(cmds: seq<Command>)
    requires Calm(cmds)
    ensures Run(cmds).Running?
    ensures var s := Run(cmds).state; Sound(s) && Tracked(s, false) && Aligned(s) && DistinctAssets(s)
    decreases |cmds|
  {
    hide Step, Sound, Tracked, Aligned, DistinctAssets;
    if cmds == [] {
      EmptyExchangeOk();
    } else {
      var n := |cmds| - 1;
      TrackedOverRuns(cmds[..n]);
      var s := Run(cmds[..n]).state;
      StepKeepsTracked(s, cmds[n], false);
      StepSound(s, cmds[n]);
    }
  }

  lemma EmptyExchangeOk()
    ensures Sound(EMPTY_EXCHANGE) && Mirror(EMPTY_EXCHANGE) && Tracked(EMPTY_EXCHANGE, false)
    ensures Aligned(EMPTY_EXCHANGE) && DistinctAssets(EMPTY_EXCHANGE)
  {}

  /** Over every calm run of inserts and cancels the books and the session table are mirror
      images: an order rests, once, where and as its record says, exactly when it is live. */
  lemma {:induction false} MirrorOverRuns(cmds: seq<Command>)
    requires Calm(cmds) && Unmodified(cmds)
    ensures Run(cmds).Running?
    ensures var s := Run(cmds).state; Sound(s) && Mirror(s) && Aligned(s) && DistinctAssets(s)
    decreases |cmds|
  {
    hide Step, Sound, Mirror, Aligned, DistinctAssets;
    if cmds == [] {
      EmptyExchangeOk();
    } else {
      var n := |cmds| - 1;
      MirrorOverRuns(cmds[..n]);
      var s := Run(cmds[..n]).state;
      StepKeepsMirror(s, cmds[n]);
      MirrorTracked(s);
      StepKeepsTracked(s, cmds[n], true);
      StepSound(s, cmds[n]);
    }
  }

  lemma MirrorTracked(s: State)
    requires Mirror(s)
    ensures Tracked(s, true)
  {}

  /** What the mirror means for a single order id: it occurs in one place at most, and it
      occurs exactly when its record awaits fill with volume left, with equal data. */
  lemma OrderRestsIffLive(cmds: seq<Command>, id: OrderId, m: nat, side: Side, k: nat)
    requires Calm(cmds) && Unmodified(cmds)
    requires Run(cmds).Running? && id < |Run(cmds).state.ledger.session|
    ensures var s := Run(cmds).state; Live(s.ledger.session[id]) <==> Rests(s.ledger.session, s.markets, id)
    ensures var s := Run(cmds).state;
            m < |s.markets| && k < |SideOffers(s.markets[m], side)|
                && SideOffers(s.markets[m], side)[k].entry.id == id ==>
              && var p := s.ledger.session[id];
              && Live(p) && FindMarket(s.markets, p.pair) == Some(m) && p.side == side
              && SideOffers(s.markets[m], side)[k] == Offer(p.price, Entry(id, p.account, p.remaining))
              && forall j :: 0 <= j < |SideOffers(s.markets[m], side)| && j != k ==>
                   SideOffers(s.markets[m], side)[j].entry.id != id
  {
    MirrorOverRuns(cmds);
    var s := Run(cmds).state;
    hide Run, Calm, Offers;
    RestingIsLive(s, id);
    if m < |s.markets| && k < |SideOffers(s.markets[m], side)| && SideOffers(s.markets[m], side)[k].entry.id == id {
      SideFacts(s, m, side, true);
      assert Matches(s.ledger.session, s.markets[m].pair, side, SideOffers(s.markets[m], side)[k], true);
      FindMarketAt(s.markets, m);
    }
  }

  lemma RestingIsLive(s: State, id: OrderId)
    requires Sound(s) && Mirror(s) && id < |s.ledger.session|
    ensures Live(s.ledger.session[id]) <==> Rests(s.ledger.session, s.markets, id)
  {
    hide Offers;
    var p := s.ledger.session[id];
    if Rests(s.ledger.session, s.markets, id) {
      var m := FindMarket(s.markets, p.pair).value;
      SideFacts(s, m, p.side, true);
      var k :| 0 <= k < |SideOffers(s.markets[m], p.side)| && SideOffers(s.markets[m], p.side)[k].entry.id == id;
      assert Matches(s.ledger.session, s.markets[m].pair, p.side, SideOffers(s.markets[m], p.side)[k], true);
    }
  }

  /** Owners can always cancel what is live. */
  lemma OwnerCanCancel(cmds: seq<Command>, req: CancellationRequest)
    requires Calm(cmds) && Unmodified(cmds)
    requires Run(cmds).Running? && req.orderId < |Run(cmds).state.ledger.session|
    requires var p := Run(cmds).state.ledger.session[req.orderId]; p.account == req.account && Live(p)
    ensures CancelOrder(Run(cmds).state, req).reply == CancelReply(Ok(()))
  {
    MirrorOverRuns(cmds);
    hide Run, Calm, Offers, CancelOrder;
    CancelSucceedsIff(Run(cmds).state, req);
  }

  /** In every calm run the aggregate views of every market are ordered, uncrossed and add up
      to the resting volume; no level is empty and no order has volume zero. */
  lemma ViewsAgreeOverRuns(cmds: seq<Command>, m: nat)
    requires Calm(cmds) && Run(cmds).Running? && m < |Run(cmds).state.markets|
    ensures var book := Run(cmds).state.markets[m].book;
            var l1, l2 := L1Of(book), L2Of(book);
            && TidyBook(book)
            && RisingPrices(l2.bids) && RisingPrices(l2.asks) && PositiveVolumes(l2.bids) && PositiveVolumes(l2.asks)
            && SumBy(l2.bids, VolumeOfAggregate()) + SumBy(l2.asks, VolumeOfAggregate()) == RestingVolume(book)
            && (l1.bestBid.Some? && l1.bestAsk.Some? ==> l1.bestBid.value.price < l1.bestAsk.value.price)
  {
    TrackedOverRuns(cmds);
    var s := Run(cmds).state;
    hide Run, Calm, Offers, BookOk;
    assert MarketMatches(s.ledger.session, s.markets[m], false);
    assert BookOk(s.markets[m].book, |s.ledger.session|);
    ViewsAgree(s.markets[m].book, |s.ledger.session|);
  }
}
