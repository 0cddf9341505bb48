/**
 What holds after every run of commands, failed insertions and modifications included:
 sorted and uncrossed books in time order, one market per pair, and a session table
 whose records agree with the accepted requests.
 */
module Soundness {
  import opened Types
  import opened BookSpec
  import opened BookFacts
  import opened Matching
  import opened BalancesSpec
  import opened Settlement
  import opened ExchangeSpec

  predicate UniqueMarkets(markets: seq<MarketState>) {
    forall i, j :: 0 <= i < j < |markets| ==> markets[i].pair != markets[j].pair
  }

  ghost predicate BooksOk(markets: seq<MarketState>, bound: nat) {
    forall m :: 0 <= m < |markets| ==> BookOk(markets[m].book, bound)
  }

  /** The part of a record that never changes. */
  predicate OrderOk(order: PlacedOrder, id: OrderId, req: InsertionRequest, accounts: nat, markets: seq<MarketState>) {
    && order.id == id && order.account < accounts
    && order.account == req.account && order.pair == req.pair && order.side == req.side && order.price == req.price
    && FindMarket(markets, order.pair).Some?
  }

  predicate SessionOk(s: State) {
    && |s.requests| == |s.ledger.session|
    && forall id :: 0 <= id < |s.ledger.session| ==>
         OrderOk(s.ledger.session[id], id, s.requests[id], s.accounts, s.markets)
  }

  predicate MarketsTraded(s: State) {
    forall m :: 0 <= m < |s.markets| ==>
      s.markets[m].pair.primary < s.assets && s.markets[m].pair.secondary < s.assets
  }

  ghost predicate Sound(s: State) {
    && UniqueMarkets(s.markets)
    && BooksOk(s.markets, |s.ledger.session|)
    && SessionOk(s)
    && MarketsTraded(s)
  }

  // ---- lookup of markets ----

  predicate SamePairs(a: seq<MarketState>, b: seq<MarketState>) {
    |a| == |b| && forall i :: 0 <= i < |a| ==> a[i].pair == b[i].pair
  }

  lemma {:induction false} FindMarketSame(a: seq<MarketState>, b: seq<MarketState>, pair: AssetIdPair)
    requires SamePairs(a, b)
    ensures FindMarket(a, pair) == FindMarket(b, pair)
  {
    if a != [] && a[0].pair != pair {
      FindMarketSame(a[1..], b[1..], pair);
    }
  }

  lemma FindMarketAppend(a: seq<MarketState>, m: MarketState, pair: AssetIdPair)
    requires FindMarket(a, pair).Some?
    ensures FindMarket(a + [m], pair).Some?
  {
    assert (a + [m])[FindMarket(a, pair).value].pair == pair;
  }

  lemma FindMarketAt(markets: seq<MarketState>, m: nat)
    requires UniqueMarkets(markets) && m < |markets|
    ensures FindMarket(markets, markets[m].pair) == Some(m)
  {}

  /** Replacing the book of one market disturbs neither pairs nor the other books. */
  lemma ReplaceMarket(markets: seq<MarketState>, m: nat, market: MarketState, bound: nat, larger: nat)
    requires m < |markets| && market.pair == markets[m].pair && bound <= larger
    requires UniqueMarkets(markets) && BooksOk(markets, bound) && BookOk(market.book, larger)
    ensures SamePairs(markets, markets[m := market])
    ensures UniqueMarkets(markets[m := market]) && BooksOk(markets[m := market], larger)
  {
    var after := markets[m := market];
    forall i | 0 <= i < |after| ensures BookOk(after[i].book, larger) {
      if i != m {
        BookOkMonotone(markets[i].book, bound, larger);
      }
    }
  }

  lemma SessionFrame(s: State, s': State)
    requires SessionOk(s) && |s'.requests| == |s'.ledger.session| == |s.ledger.session|
    requires s'.requests == s.requests && s.accounts <= s'.accounts
    requires forall id :: 0 <= id < |s.ledger.session| ==>
               var a, b := s.ledger.session[id], s'.ledger.session[id];
               a.id == b.id && a.account == b.account && a.pair == b.pair && a.side == b.side && a.price == b.price
    requires SamePairs(s.markets, s'.markets)
    ensures SessionOk(s')
  {
    forall id | 0 <= id < |s.ledger.session|
      ensures OrderOk(s'.ledger.session[id], id, s'.requests[id], s'.accounts, s'.markets)
    {
      FindMarketSame(s.markets, s'.markets, s.ledger.session[id].pair);
    }
  }

  // ---- the commands ----

  lemma AddMarketSound(s: State, pair: AssetIdPair)
    requires Sound(s)
    ensures Sound(AddMarket(s, pair).state)
  {
    var s' := AddMarket(s, pair).state;
    if s' != s {
      var market := MarketState(pair, 0, EMPTY_BOOK);
      forall id | 0 <= id < |s.ledger.session|
        ensures OrderOk(s'.ledger.session[id], id, s'.requests[id], s'.accounts, s'.markets)
      {
        assert OrderOk(s.ledger.session[id], id, s.requests[id], s.accounts, s.markets);
        FindMarketAppend(s.markets, market, s.ledger.session[id].pair);
      }
      assert BookOk(EMPTY_BOOK, |s.ledger.session|);
    }
  }

  /** A settled session differs from the one before in volumes and status only. */
  lemma DrainedSession(l: Ledger, txs: seq<ObTransaction>, pair: AssetIdPair)
    requires Drain(l, txs, pair).Some?
    ensures var r := Drain(l, txs, pair).value;
            && |r.session| == |l.session|
            && forall id :: 0 <= id < |l.session| ==>
                 r.session[id] == l.session[id].(remaining := r.session[id].remaining, status := r.session[id].status)
  {
    DrainFrame(l, txs, pair);
    forall id | 0 <= id < |l.session|
      ensures var r := Drain(l, txs, pair).value;
              r.session[id] == l.session[id].(remaining := r.session[id].remaining, status := r.session[id].status)
    {
      DrainOrder(l, txs, pair, id);
    }
  }

  lemma PlacedSessionOk(s: State, o: OrderInsertion, req: InsertionRequest)
    requires SessionOk(s) && o == req.IntoInsertion(|s.ledger.session|)
    requires req.account < s.accounts && FindMarket(s.markets, req.pair).Some?
    ensures SessionOk(s.(requests := s.requests + [req],
                         ledger := s.ledger.(session := s.ledger.session + [PlacedOrder.FromInsertion(o)])))
  {}

  lemma InsertSound(s: State, req: InsertionRequest)
    requires Sound(s) && InsertOrder(s, req).Done?
    ensures Sound(InsertOrder(s, req).state)
  {
    hide Insert, Drain, BookOk, OrderOk, UniqueMarkets;
    var m := FindMarket(s.markets, req.pair);
    if m.Some? && req.account < s.accounts {
      var n := |s.ledger.session|;
      var o := req.IntoInsertion(n);
      var r := Insert(s.markets[m.value].book, o);
      InsertKeepsBook(s.markets[m.value].book, o);
      var s' := InsertOrder(s, req).state;
      ReplaceMarket(s.markets, m.value, MarketAfter(s.markets[m.value], r), n, if r.result.Ok? then n + 1 else n);
      if r.result.Ok? {
        PlacedSessionOk(s, o, req);
        var placed := s.(requests := s.requests + [req],
                         ledger := s.ledger.(session := s.ledger.session + [PlacedOrder.FromInsertion(o)]));
        DrainedSession(placed.ledger, s.buf + r.trades, req.pair);
        SessionFrame(placed, s');
      } else {
        SessionFrame(s, s');
      }
    }
  }

  lemma WithOrderSound(s: State, m: nat, book: Book, id: OrderId, order: PlacedOrder)
    requires Sound(s) && m < |s.markets| && id < |s.ledger.session|
    requires BookOk(book, |s.ledger.session|)
    requires order == s.ledger.session[id].(volume := order.volume, status := order.status)
    ensures Sound(WithOrder(s, m, book, id, order))
  {
    var s' := WithOrder(s, m, book, id, order);
    ReplaceMarket(s.markets, m, s.markets[m].(book := book), |s.ledger.session|, |s.ledger.session|);
    SessionFrame(s, s');
  }

  lemma CancelSound(s: State, req: CancellationRequest)
    requires Sound(s)
    ensures Sound(CancelOrder(s, req).state)
  {
    var s' := CancelOrder(s, req).state;
    if CancelOrder(s, req).reply == CancelReply(Ok(())) {
      var order := s.ledger.session[req.orderId];
      var m := FindMarket(s.markets, order.pair).value;
      var c := req.IntoCancellation(order.pair, order.side, order.price);
      CancelKeepsBook(s.markets[m].book, c, |s.ledger.session|);
      WithOrderSound(s, m, Cancel(s.markets[m].book, c).value, req.orderId, order.(status := Cancelled));
    }
  }

  lemma ModifySound(s: State, req: ModificationRequest)
    requires Sound(s) && ModifyOrder(s, req).Done?
    ensures Sound(ModifyOrder(s, req).state)
  {
    if ModifyOrder(s, req).reply == ModifyReply(Ok(())) {
      var order := s.ledger.session[req.orderId];
      var m := FindMarket(s.markets, order.pair).value;
      var c := req.IntoModification(order.pair, order.side, order.price, order.volume);
      ModifyKeepsBook(s.markets[m].book, c, |s.ledger.session|);
      WithOrderSound(s, m, Modify(s.markets[m].book, c).value, req.orderId, Resized(order, req.newVolume));
    }
  }

  lemma StepSound(s: State, c: Command)
    requires Sound(s) && s.ledger.balances.Dense() && Step(s, c).Done?
    ensures Sound(Step(s, c).state)
  {
    match c
    case AddAssetCmd => SessionFrame(s, Step(s, c).state);
    case CreateAccountCmd => SessionFrame(s, Step(s, c).state);
    case CreateNamedAccountCmd => SessionFrame(s, Step(s, c).state);
    case AddMarketCmd(pair) => AddMarketSound(s, pair);
    case InsertCmd(req) => InsertSound(s, req);
    case CancelCmd(req) => CancelSound(s, req);
    case ModifyCmd(req) => ModifySound(s, req);
    case QueryCmd(q) =>
  }

  // ---- every run ----

  lemma {:induction false} RunSound(cmds: seq<Command>)
    requires Run(cmds).Running?
    ensures Sound(Run(cmds).state)
    decreases |cmds|
  {
    if cmds != [] {
      var n := |cmds| - 1;
      RunSound(cmds[..n]);
      StepSound(Run(cmds[..n]).state, cmds[n]);
    }
  }

  /** In no reachable state, not even after a self-trade, does a bid reach an ask. */
  lemma NeverCrossed(cmds: seq<Command>, m: nat, i: nat, j: nat)
    requires Run(cmds).Running? && m < |Run(cmds).state.markets|
    requires var book := Run(cmds).state.markets[m].book; i < |book.bids| && j < |book.asks|
    ensures var book := Run(cmds).state.markets[m].book;
            book.bids[i].price < book.asks[j].price
  {
    RunSound(cmds);
    var book := Run(cmds).state.markets[m].book;
    assert book.bids[i].price in Prices(book.bids) && book.asks[j].price in Prices(book.asks);
  }

  /** In every reachable state a side lists its orders in price-time priority: ids grow
      within a price, and belong to accepted orders. */
  lemma AlwaysInPriorityOrder(cmds: seq<Command>, m: nat, side: Side)
    requires Run(cmds).Running? && m < |Run(cmds).state.markets|
    ensures var s := Run(cmds).state; var offers := Offers(side, s.markets[m].book.Side(side));
            && PriorityOrder(side, offers)
            && forall k :: 0 <= k < |offers| ==> offers[k].entry.id < |s.ledger.session|
  {
    RunSound(cmds);
    var s := Run(cmds).state;
    OffersInPriorityOrder(side, s.markets[m].book.Side(side), |s.ledger.session|);
  }
}
