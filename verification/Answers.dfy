/** What clients are answered when they ask, in terms of the settled trades and the books. */
module Answers {
  import opened Types
  import opened BookSpec
  import opened Matching
  import opened BookFacts
  import opened BalancesSpec
  import opened Settlement
  import opened ExchangeSpec
  import opened Soundness
  import opened RecentTransactionsBuffer
  import opened Views
  import opened ViewLines
  import opened History
  import opened InsertReplies

  /** The reply to a question asked after the run. */
  ghost function AnswerAfter(cmds: seq<Command>, q: Query): Answer
    requires Run(cmds).Running?
  {
    RunNext(cmds, QueryCmd(q));
    Run(cmds + [QueryCmd(q)]).replies[|cmds|].answer
  }

  lemma AnswerIs(cmds: seq<Command>, q: Query)
    requires Run(cmds).Running?
    ensures AnswerAfter(cmds, q) == AnswerTo(Run(cmds).state, q)
  {
    hide AnswerTo;
    RunNext(cmds, QueryCmd(q));
  }

  /** A question is always answered and changes nothing. */
  lemma QuestionsChangeNothing(cmds: seq<Command>, q: Query)
    requires Run(cmds).Running?
    ensures var next := Run(cmds + [QueryCmd(q)]);
            && next.Running? && next.state == Run(cmds).state
            && next.replies == Run(cmds).replies + [AnswerReply(AnswerAfter(cmds, q))]
  {
    hide AnswerTo;
    RunNext(cmds, QueryCmd(q));
  }

  /** A known account's balance is answered as what all settled trades add up to for that account in that asset. */
  lemma BalanceAnswered(cmds: seq<Command>, account: AccountId, asset: AssetId)
    requires KnownAccounts(cmds) && Run(cmds).Running?
    requires asset < Run(cmds).state.assets && account < Run(cmds).state.ledger.balances.accounts
    ensures AnswerAfter(cmds, Query.GetBalance(account, asset))
         == BalanceAnswer(Some(Net(Run(cmds).state.ledger.log, asset, account)))
  {
    BalancesAreHistory(cmds, asset, account);
    hide KnownAccounts, Net, Run, AnswerAfter;
    AnswerIs(cmds, Query.GetBalance(account, asset));
  }

  predicate NoMarketFor(markets: seq<MarketState>, pair: AssetIdPair) {
    forall m :: 0 <= m < |markets| ==> markets[m].pair != pair
  }

  /** For a pair without a market there is no L1; for one with a market it says the best of both sides of that book. */
  lemma L1Answered(cmds: seq<Command>, pair: AssetIdPair)
    requires Run(cmds).Running?
    ensures var s, a := Run(cmds).state, AnswerAfter(cmds, Query.GetOrderbookL1(pair));
            && a.L1Answer?
            && (a.l1.None? <==> NoMarketFor(s.markets, pair))
            && forall m :: 0 <= m < |s.markets| && s.markets[m].pair == pair ==>
                 && a.l1.Some?
                 && SaysBest(Bid, s.markets[m].book.bids, a.l1.value.bestBid)
                 && SaysBest(Ask, s.markets[m].book.asks, a.l1.value.bestAsk)
  {
    RunSound(cmds);
    hide Run, AnswerAfter, Sound, L1Of, SaysBest;
    var s := Run(cmds).state;
    AnswerIs(cmds, Query.GetOrderbookL1(pair));
    forall m | 0 <= m < |s.markets| && s.markets[m].pair == pair
      ensures FindMarket(s.markets, pair) == Some(m)
      ensures SaysBest(Bid, s.markets[m].book.bids, L1Of(s.markets[m].book).bestBid)
      ensures SaysBest(Ask, s.markets[m].book.asks, L1Of(s.markets[m].book).bestAsk)
    {
      SortedBooks(s, m);
      L1Lines(s.markets[m].book);
    }
  }

  /** The lines of one side of L2. */
  predicate SaysDepth(side: Side, levels: seq<Level>, d: seq<Aggregate>, price: Price, volume: int) {
    HasLine(d, price, volume) <==> HasPrice(levels, price) && volume == VolumeResting(side, levels, price)
  }

  /** For a pair without a market there is no L2; for one with a market it has one line for each price of each side
      of that book, with the volume resting there, lowest price first. */
  lemma L2Answered(cmds: seq<Command>, pair: AssetIdPair, price: Price, volume: int)
    requires Run(cmds).Running?
    ensures var s, a := Run(cmds).state, AnswerAfter(cmds, Query.GetOrderbookL2(pair));
            && a.L2Answer?
            && (a.l2.None? <==> NoMarketFor(s.markets, pair))
            && forall m :: 0 <= m < |s.markets| && s.markets[m].pair == pair ==>
                 && a.l2.Some? && RisingPrices(a.l2.value.bids) && RisingPrices(a.l2.value.asks)
                 && SaysDepth(Bid, s.markets[m].book.bids, a.l2.value.bids, price, volume)
                 && SaysDepth(Ask, s.markets[m].book.asks, a.l2.value.asks, price, volume)
  {
    RunSound(cmds);
    hide Run, AnswerAfter, Sound, L2Of, HasLine, HasPrice, VolumeResting, TidySide, Offers;
    var s := Run(cmds).state;
    AnswerIs(cmds, Query.GetOrderbookL2(pair));
    forall m | 0 <= m < |s.markets| && s.markets[m].pair == pair
      ensures FindMarket(s.markets, pair) == Some(m)
      ensures var l2 := L2Of(s.markets[m].book);
              && RisingPrices(l2.bids) && RisingPrices(l2.asks)
              && SaysDepth(Bid, s.markets[m].book.bids, l2.bids, price, volume)
              && SaysDepth(Ask, s.markets[m].book.asks, l2.asks, price, volume)
    {
      SortedBooks(s, m);
      L2Lines(s.markets[m].book, Bid, price, volume);
      L2Lines(s.markets[m].book, Ask, price, volume);
    }
  }

  /** All markets are listed, in the order they were added, each with the best of both sides of its book. */
  lemma AllL1Answered(cmds: seq<Command>)
    requires Run(cmds).Running?
    ensures var s, a := Run(cmds).state, AnswerAfter(cmds, Query.GetAllOrderbookL1);
            && a.AllL1Answer? && |a.all| == |s.markets|
            && forall m :: 0 <= m < |s.markets| ==>
                 && a.all[m].0 == s.markets[m].pair
                 && SaysBest(Bid, s.markets[m].book.bids, a.all[m].1.bestBid)
                 && SaysBest(Ask, s.markets[m].book.asks, a.all[m].1.bestAsk)
  {
    RunSound(cmds);
    hide Run, AnswerAfter, Sound, L1Of, SaysBest;
    var s := Run(cmds).state;
    AnswerIs(cmds, Query.GetAllOrderbookL1);
    forall m | 0 <= m < |s.markets|
      ensures SaysBest(Bid, s.markets[m].book.bids, L1Of(s.markets[m].book).bestBid)
      ensures SaysBest(Ask, s.markets[m].book.asks, L1Of(s.markets[m].book).bestAsk)
    {
      SortedBooks(s, m);
      L1Lines(s.markets[m].book);
    }
  }

  /** The assets are listed by their ids, counting from zero. */
  lemma AssetsAnswered(cmds: seq<Command>)
    requires Run(cmds).Running?
    ensures var s, a := Run(cmds).state, AnswerAfter(cmds, Query.GetAssets);
            a.AssetsAnswer? && |a.assets| == s.assets && forall i :: 0 <= i < s.assets ==> a.assets[i] == i
  {
    hide Run, AnswerAfter;
    AnswerIs(cmds, Query.GetAssets);
  }

  /** What clients see of a settled trade: its market, price, volume and side, and the accounts of the resting and of
      the incoming order. */
  predicate Shows(t: Transaction, e: Settled, session: seq<PlacedOrder>) {
    && t.market == e.pair && t.price == e.tx.price && t.volume == e.tx.volume && t.takerSide == e.tx.takerSide
    && e.tx.maker < |session| && t.maker == session[e.tx.maker].account
    && e.tx.taker < |session| && t.taker == session[e.tx.taker].account
  }

  lemma TrailShows(l: Ledger, k: nat)
    requires AccountsLogged(l.log, l.session) && k < |l.log|
    ensures Shows(Trail(l.log)[k], l.log[k], l.session)
  {
    var e := l.log[k];
    assert e.tx.maker < |l.session| && e.tx.taker < |l.session|
        && e.maker == l.session[e.tx.maker].account && e.taker == l.session[e.tx.taker].account;
    hide AccountsLogged;
  }

  lemma LastShown(l: Ledger, t: seq<Transaction>, i: nat)
    requires AccountsLogged(l.log, l.session) && t == Tail(Trail(l.log), 100) && i < |t|
    ensures |t| <= |l.log| && Shows(t[i], l.log[|l.log| - |t| + i], l.session)
  {
    hide Shows, AccountsLogged;
    var k := |l.log| - |t| + i;
    TrailShows(l, k);
    assert t[i] == Trail(l.log)[k];
  }

  /** The last hundred settled trades, oldest first, or all when there are fewer. */
  predicate ShowsRecent(a: Answer, l: Ledger) {
    && a.TransactionsAnswer?
    && |a.transactions| == (if |l.log| <= 100 then |l.log| else 100)
    && forall i :: 0 <= i < |a.transactions| ==>
         Shows(a.transactions[i], l.log[|l.log| - |a.transactions| + i], l.session)
  }

  lemma TradesAnswered(s: State)
    requires AccountsLogged(s.ledger.log, s.ledger.session)
    ensures ShowsRecent(AnswerTo(s, Query.GetLast100Transactions), s.ledger)
  {
    hide Trail, Tail, Shows, AccountsLogged;
    var l := s.ledger;
    var t := Tail(Trail(l.log), 100);
    forall i | 0 <= i < |t| ensures Shows(t[i], l.log[|l.log| - |t| + i], l.session) {
      LastShown(l, t, i);
    }
  }

  /** Clients are shown the most recent settled trades. */
  lemma RecentTradesAnswered(cmds: seq<Command>)
    requires Run(cmds).Running?
    ensures ShowsRecent(AnswerAfter(cmds, Query.GetLast100Transactions), Run(cmds).state.ledger)
  {
    AccountsOverRuns(cmds);
    AnswerIs(cmds, Query.GetLast100Transactions);
    TradesAnswered(Run(cmds).state);
  }

  // ---- markets ----

  /** A market is made for two assets that exist when the pair has none yet, and is refused for one of these reasons. */
  lemma MarketsAnswered(cmds: seq<Command>, pair: AssetIdPair)
    requires Run(cmds).Running?
    ensures var s, c, next := Run(cmds).state, AddMarketCmd(pair), Run(cmds + [AddMarketCmd(pair)]);
            var traded := pair.primary < s.assets && pair.secondary < s.assets;
            && (Answered(cmds, c, MarketReply(Err(AssetNotTraded))) <==> !traded)
            && (Answered(cmds, c, MarketReply(Err(MarketAlreadyExists))) <==> traded && !NoMarketFor(s.markets, pair))
            && (Answered(cmds, c, MarketReply(Ok(()))) <==> traded && NoMarketFor(s.markets, pair))
            && next.Running?
            && next.state == if traded && NoMarketFor(s.markets, pair) then
                               s.(markets := s.markets + [MarketState(pair, 0, Book([], []))])
                             else s
  {
    hide Run;
    RunNext(cmds, AddMarketCmd(pair));
  }

  // ---- ids ----

  predicate MakesAsset(c: Command) {
    c.AddAssetCmd?
  }

  predicate MakesAccount(c: Command) {
    c.CreateAccountCmd? || c.CreateNamedAccountCmd?
  }

  /** How many of the commands are of this kind. */
  function CountOf(cmds: seq<Command>, kind: Command -> bool): nat {
    if cmds == [] then 0 else CountOf(cmds[..|cmds| - 1], kind) + if kind(cmds[|cmds| - 1]) then 1 else 0
  }

  lemma StepCounts(s: State, c: Command)
    requires s.ledger.balances.Dense() && Step(s, c).Done?
    ensures var r := Step(s, c);
            && r.state.assets == s.assets + (if MakesAsset(c) then 1 else 0)
            && r.state.accounts == s.accounts + (if MakesAccount(c) then 1 else 0)
  {
    hide Insert, Drain, Cancel, Modify, AnswerTo;
  }

  lemma MakersComplete(s: State, c: Command)
    requires s.ledger.balances.Dense() && (MakesAsset(c) || MakesAccount(c))
    ensures Step(s, c).Done?
    ensures MakesAsset(c) ==> Step(s, c).reply == NewId(s.assets)
    ensures MakesAccount(c) ==> Step(s, c).reply == NewId(s.accounts)
  {}

  lemma RunSplit(cmds: seq<Command>)
    requires cmds != [] && Run(cmds).Running?
    ensures var n := |cmds| - 1;
            && Run(cmds[..n]).Running? && Step(Run(cmds[..n]).state, cmds[n]).Done?
            && Run(cmds) == Running(Step(Run(cmds[..n]).state, cmds[n]).state,
                                    Run(cmds[..n]).replies + [Step(Run(cmds[..n]).state, cmds[n]).reply])
  {
    hide Step;
  }

  lemma {:induction false} AssetsCount(cmds: seq<Command>)
    requires Run(cmds).Running?
    ensures Run(cmds).state.assets == CountOf(cmds, MakesAsset)
    decreases |cmds|
  {
    if cmds != [] {
      var n := |cmds| - 1;
      RunSplit(cmds);
      AssetsCount(cmds[..n]);
      hide Run, Step, MakesAsset;
      StepCounts(Run(cmds[..n]).state, cmds[n]);
    }
  }

  lemma {:induction false} AccountsCount(cmds: seq<Command>)
    requires Run(cmds).Running?
    ensures Run(cmds).state.accounts == CountOf(cmds, MakesAccount)
    decreases |cmds|
  {
    if cmds != [] {
      var n := |cmds| - 1;
      RunSplit(cmds);
      AccountsCount(cmds[..n]);
      hide Run, Step, MakesAccount;
      StepCounts(Run(cmds[..n]).state, cmds[n]);
    }
  }

  /** Ids of assets are given out one after the other: each is the number of assets made before. */
  lemma AssetIds(cmds: seq<Command>)
    requires Run(cmds).Running?
    ensures Answered(cmds, AddAssetCmd, NewId(CountOf(cmds, MakesAsset)))
  {
    AssetsCount(cmds);
    var s := Run(cmds).state;
    MakersComplete(s, AddAssetCmd);
    hide Run, Step, CountOf, Answered;
    AnsweredIff(cmds, AddAssetCmd, NewId(s.assets));
  }

  /** And so are those of accounts, whether made with a name or without. */
  lemma AccountIds(cmds: seq<Command>, c: Command)
    requires Run(cmds).Running? && MakesAccount(c)
    ensures Answered(cmds, c, NewId(CountOf(cmds, MakesAccount)))
  {
    AccountsCount(cmds);
    var s := Run(cmds).state;
    MakersComplete(s, c);
    hide Run, Step, CountOf, Answered;
    AnsweredIff(cmds, c, NewId(s.accounts));
  }
}
