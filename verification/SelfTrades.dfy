/**
 A self-trade is refused only after the book was changed, and the trades found before it
 stay in the shared buffer. Exactly when that damages the exchange, and how.
 */
module SelfTrades {
  import opened Types
  import opened BookSpec
  import opened Matching
  import opened MatchingFacts
  import opened BookFacts
  import opened Settlement
  import opened ExchangeSpec
  import opened Soundness
  import opened Tracking
  import opened InsertTracking

  /** The taker's own offer that ends the fill was reduced already. */
  lemma {:induction false} SelfTradeShrinks(offers: seq<Offer>, o: OrderInsertion, vol: Volume)
    requires Greedy(offers, o, vol).selfTrade && vol > 0
    requires forall i :: 0 <= i < |offers| ==> offers[i].entry.volume > 0
    ensures var g := Greedy(offers, o, vol); var n := |g.trades|;
            && n < |offers| && g.rest != []
            && g.rest[0].entry.id == offers[n].entry.id
            && g.rest[0].entry.volume < offers[n].entry.volume
    decreases |offers|
  {
    if offers[0].entry.account != o.account {
      SelfTradeShrinks(offers[1..], o, vol - offers[0].entry.volume);
    }
  }

  /** An order of volume zero that meets its own account leaves no trace. */
  lemma ZeroVolumeSelfTrade(book: Book, o: OrderInsertion)
    requires o.volume == 0 && TidyBook(book) && Insert(book, o).result == Err(SelfTrade)
    ensures Insert(book, o).book == book && Insert(book, o).trades == []
  {
    hide EnoughVolume;
    var side := o.side.Opposite();
    var levels := book.Side(side);
    assert levels != [] && TidyQueue(Best(side, levels).orders);
    var best := Best(side, levels);
    var front := best.orders[0];
    assert front.(volume := front.volume - 0) == front;
    assert [front] + best.orders[1..] == best.orders;
    assert Level(best.price, best.orders) == best;
    assert PutBest(side, best, Worse(side, levels)) == levels;
  }

  /** The insertion passes all checks and runs into the account's own resting order. */
  ghost predicate SelfTradesFor(s: State, req: InsertionRequest) {
    && var m := FindMarket(s.markets, req.pair);
    && m.Some? && req.account < s.accounts
    && var o := req.IntoInsertion(|s.ledger.session|);
       var levels := s.markets[m.value].book.Side(req.side.Opposite());
    && (o.orderType.Limit? || EnoughVolume(levels, o))
    && Blocked(Offers(req.side.Opposite(), levels), o, req.volume)
  }

  lemma SelfTradeReply(s: State, req: InsertionRequest, exact: bool)
    requires Sound(s) && Tracked(s, exact) && Aligned(s) && DistinctAssets(s)
    ensures InsertOrder(s, req).Done?
    ensures InsertOrder(s, req).reply == InsertReply(Err(SelfTrade)) <==> SelfTradesFor(s, req)
  {
    hide Offers, Greedy, Sweep, Drain, Sound, Tracked, RestEntry, EnoughVolume, Blocked;
    InsertKeepsTracked(s, req, exact);
    var found := FindMarket(s.markets, req.pair);
    var o := req.IntoInsertion(|s.ledger.session|);
    if found.None? || req.account >= s.accounts || FailsCheck(Insert(s.markets[found.value].book, o)) {
      RejectedUnchanged(s, req);
    } else {
      InsertOutcome(s, req, found.value, o, exact);
      SelfTradeIff(SideOffers(s.markets[found.value], o.side.Opposite()), o, o.volume);
    }
  }

  lemma SelfTradeUntracks(s: State, req: InsertionRequest, m: nat, o: OrderInsertion)
    requires Matched(s, req, m, o, true) && Fills(s, m, o).selfTrade && o.volume > 0
    ensures !Tracked(SelfTraded(s, m, o), true)
  {
    hide Offers, Greedy, Insert, Sound;
    MatchedInsertable(s, req, m, o, true);
    InsertIsGreedy(s.markets[m].book, o);
    OppositeOffers(s, m, o, true);
    var side := o.side.Opposite();
    var offers := SideOffers(s.markets[m], side);
    var g := Fills(s, m, o);
    assert forall i :: 0 <= i < |offers| ==> Matches(s.ledger.session, o.pair, side, offers[i], true);
    SelfTradeShrinks(offers, o, o.volume);
    var s' := SelfTraded(s, m, o);
    assert SideOffers(s'.markets[m], side) == g.rest;
    assert !Matches(s'.ledger.session, o.pair, side, g.rest[0], true);
    assert !MarketMatches(s'.ledger.session, s'.markets[m], true);
  }

  /** An insertion keeps books and table mirror images exactly when it is not an order with
      volume that runs into the account's own resting order: a condition on the state before. */
  lemma InsertKeepsMirrorIff(s: State, req: InsertionRequest)
    requires Sound(s) && Mirror(s) && Aligned(s) && DistinctAssets(s)
    ensures InsertOrder(s, req).Done?
    ensures Mirror(InsertOrder(s, req).state) <==> req.volume == 0 || !SelfTradesFor(s, req)
  {
    hide Offers, Insert, InsertOrder, Fills, Drain, Sound, MarketMatches, Complete, Blocked, EnoughVolume;
    SelfTradeReply(s, req, true);
    if SelfTradesFor(s, req) {
      var m := FindMarket(s.markets, req.pair).value;
      var o := req.IntoInsertion(|s.ledger.session|);
      if FailsCheck(Insert(s.markets[m].book, o)) { RejectedUnchanged(s, req); }
      InsertOutcome(s, req, m, o, true);
      if req.volume > 0 {
        SelfTradeUntracks(s, req, m, o);
      } else {
        MatchedInsertable(s, req, m, o, true);
        ZeroVolumeSelfTrade(s.markets[m].book, o);
        assert s.markets[m := MarketAfter(s.markets[m], Insert(s.markets[m].book, o))] == s.markets;
        assert s.buf == [];
      }
    } else {
      InsertKeepsMirror(s, req);
    }
  }

  /** A refused bid that emptied one ask level, which stays behind, and shrank the account's own ask. */
  lemma SelfTradeChangesBook()
    ensures var book := Book([], [Level(10, [Entry(0, 0, 5)]), Level(11, [Entry(1, 1, 5)])]);
            var o := OrderInsertion(2, 1, Limit, AssetIdPair(0, 1), Bid, 8, 11);
            Insert(book, o) == Inserted(Err(SelfTrade), Book([], [Level(10, []), Level(11, [Entry(1, 1, 2)])]),
                                        [ObTransaction(10, 5, Bid, 0, 2)])
  {
    var asks := [Level(10, [Entry(0, 0, 5)]), Level(11, [Entry(1, 1, 5)])];
    var o := OrderInsertion(2, 1, Limit, AssetIdPair(0, 1), Bid, 8, 11);
    assert Worse(Ask, asks) == [Level(11, [Entry(1, 1, 5)])];
    assert FillQueue([Entry(1, 1, 5)], 11, o, 3) == QueueFill([Entry(1, 1, 2)], [], 0, true);
    assert FillQueue([Entry(0, 0, 5)], 10, o, 8) == QueueFill([], [ObTransaction(10, 5, Bid, 0, 2)], 3, false);
    var r := Sweep(Ask, [Level(11, [Entry(1, 1, 5)])], o, 3);
    assert r == Swept([Level(11, [Entry(1, 1, 2)])], [], 0, true);
    assert [ObTransaction(10, 5, Bid, 0, 2)] + r.trades == [ObTransaction(10, 5, Bid, 0, 2)];
  }

  // ---- a variant that checks first ----

  /** VARIANT, not the code: refuse a self-trade before touching the book. */
  ghost function PrecheckedInsert(s: State, req: InsertionRequest): Outcome {
    if SelfTradesFor(s, req) then Done(s, InsertReply(Err(SelfTrade))) else InsertOrder(s, req)
  }

  /** The variant gives every client the same reply and keeps books and table mirror images always. */
  lemma PrecheckedKeepsMirror(s: State, req: InsertionRequest)
    requires Sound(s) && Mirror(s) && Aligned(s) && DistinctAssets(s)
    ensures InsertOrder(s, req).Done? && PrecheckedInsert(s, req).Done?
    ensures PrecheckedInsert(s, req).reply == InsertOrder(s, req).reply
    ensures Mirror(PrecheckedInsert(s, req).state)
  {
    hide InsertOrder, SelfTradesFor, Sound, Tracked, Complete;
    SelfTradeReply(s, req, true);
    if !SelfTradesFor(s, req) {
      InsertKeepsMirror(s, req);
    }
  }

  // ---- trades left behind ----

  /** The trades found before a self-trade wait in the buffer, under the id the next order will get. */
  lemma SelfTradeLeavesTrades(s: State, req: InsertionRequest, exact: bool)
    requires Sound(s) && Tracked(s, exact) && Aligned(s) && DistinctAssets(s)
    requires SelfTradesFor(s, req)
    ensures InsertOrder(s, req).Done?
    ensures var s' := InsertOrder(s, req).state; var m := FindMarket(s.markets, req.pair).value;
            && s'.ledger == s.ledger
            && s'.buf == Fills(s, m, req.IntoInsertion(|s.ledger.session|)).trades
            && forall i :: 0 <= i < |s'.buf| ==>
                 s'.buf[i].taker == |s'.ledger.session| && s'.buf[i].maker < |s'.ledger.session|
  {
    hide Offers, Greedy, Insert, InsertOrder, Drain, Sound, Tracked, Blocked, EnoughVolume;
    SelfTradeReply(s, req, exact);
    var m := FindMarket(s.markets, req.pair).value;
    var o := req.IntoInsertion(|s.ledger.session|);
    if FailsCheck(Insert(s.markets[m].book, o)) { RejectedUnchanged(s, req); }
    InsertOutcome(s, req, m, o, exact);
    MatchedInsertable(s, req, m, o, exact);
    TradesOneTaker(s, m, o, exact);
    OppositeOffers(s, m, o, exact);
    var offers := SideOffers(s.markets[m], o.side.Opposite());
    GreedyTrades(offers, o, o.volume);
    forall i | 0 <= i < |Fills(s, m, o).trades| ensures Fills(s, m, o).trades[i].maker < o.id {
      assert TradesWith(Fills(s, m, o).trades[i], offers[i], o);
      assert Matches(s.ledger.session, o.pair, o.side.Opposite(), offers[i], exact);
    }
  }

  // ---- markets of one asset against itself ----

  /** A market whose two assets are the same is accepted; an order that is not refused stops the
      exchange there exactly when a trade waits or its first opposite offer is eligible. */
  lemma SameAssetMarketStopsIff(s: State, req: InsertionRequest, m: nat)
    requires Sound(s) && FindMarket(s.markets, req.pair) == Some(m) && req.account < s.accounts
    requires req.pair.primary == req.pair.secondary
    ensures var side := req.side.Opposite(); var offers := SideOffers(s.markets[m], side);
            var o := req.IntoInsertion(|s.ledger.session|);
            InsertOrder(s, req).Stopped?
            <==> && Insert(s.markets[m].book, o).result.Ok?
                 && (s.buf != [] || (&& !StopsAtEmptyLevel(side, s.markets[m].book.Side(side), req.volume)
                                     && offers != [] && Crosses(o, offers[0].price)))
  {
    hide Offers, FillOf, Insert, Drain;
    var o := req.IntoInsertion(|s.ledger.session|);
    var r := Insert(s.markets[m].book, o);
    if r.result.Ok? {
      assert BookOk(s.markets[m].book, |s.ledger.session|);
      InsertIsFill(s.markets[m].book, o);
      FirstOfferTrades(req.side.Opposite(), s.markets[m].book.Side(req.side.Opposite()), o, o.volume);
      SameAssetDrain(Placed(s, o), s.buf + r.trades, req.pair);
    }
  }

  lemma SameAssetDrain(l: Ledger, txs: seq<ObTransaction>, pair: AssetIdPair)
    requires pair.primary == pair.secondary
    ensures Drain(l, txs, pair).None? <==> txs != []
  {
    DrainIff(l, txs, pair);
    if txs == [] {
      assert forall id: nat :: Amount(txs, id) == 0;
    } else {
      assert !Addressable(l, pair, txs[0]);
    }
  }
}
