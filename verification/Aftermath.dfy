/**
 After a self-trade: exactly when the next order stops the exchange, and how much the orders
 it inherits trades with can still give. Nothing here assumes that books and table agree.
 */
module Aftermath {
  import opened Types
  import opened Sums
  import opened BookSpec
  import opened Matching
  import opened MatchingFacts
  import opened BookFacts
  import opened BalancesSpec
  import opened Settlement
  import opened ExchangeSpec
  import opened Soundness
  import opened Tracking
  import opened InsertTracking
  import opened Runs
  import opened Provenance

  /** The volume of the trades that wait for the next order. */
  function Waiting(s: State): int {
    SumBy(s.buf, VolumeOf())
  }

  /** What the order leaves untraded: its volume less the eligible volume it finds. */
  function Untraded(s: State, m: nat, o: OrderInsertion): int
    requires m < |s.markets|
  {
    var eligible := SumBy(SideOffers(s.markets[m], o.side.Opposite()), EligibleVolume(o));
    if eligible >= o.volume then 0 else o.volume - eligible
  }

  lemma LeftIsUntraded(s: State, req: InsertionRequest, m: nat, o: OrderInsertion)
    requires Filling(s, req, m, o) && !FillIn(s, m, o).selfTrade
    ensures FillIn(s, m, o).left == Untraded(s, m, o)
    ensures SumBy(FillIn(s, m, o).trades, VolumeOf()) == o.volume - FillIn(s, m, o).left
  {
    hide Offers, Greedy;
    var side := o.side.Opposite();
    var levels := s.markets[m].book.Side(side);
    var offers := Offers(side, levels);
    assert BookOk(s.markets[m].book, |s.ledger.session|);
    SumByNonNegative(offers, EligibleVolume(o));
    if !StopsAtEmptyLevel(side, levels, o.volume) {
      SortedCrossingFirst(side, levels, o);
      GreedyLeft(offers, o, o.volume);
      GreedyRest(offers, o, o.volume);
    }
  }

  lemma {:induction false} AllTouch(txs: seq<ObTransaction>, id: OrderId)
    requires forall i :: 0 <= i < |txs| ==> Touches(txs[i], id)
    ensures Amount(txs, id) == SumBy(txs, VolumeOf())
  {
    if txs != [] {
      AllTouch(txs[..|txs| - 1], id);
    }
  }

  /** Waiting trades and the order's own together take from the order what waits and what it trades. */
  lemma TakerTotal(s: State, req: InsertionRequest, m: nat, o: OrderInsertion)
    requires Filling(s, req, m, o) && !FillIn(s, m, o).selfTrade
    ensures Amount(s.buf + FillIn(s, m, o).trades, o.id) == Waiting(s) + o.volume - Untraded(s, m, o)
  {
    hide Offers, FillOf, Sound, Untraded;
    var trades := FillIn(s, m, o).trades;
    forall i | 0 <= i < |trades| ensures Waits(trades[i], s.ledger.session) {
      FillTrade(s, req, m, o, i);
    }
    AllTouch(s.buf + trades, o.id);
    SumByConcat(s.buf, trades, VolumeOf());
    LeftIsUntraded(s, req, m, o);
  }

  /** The four balances of a trade between the two accounts exist and differ. */
  predicate Bookable(s: State, pair: AssetIdPair, maker: AccountId, taker: AccountId) {
    s.ledger.balances.Disjoint(pair, maker, taker)
  }

  /** A waiting trade cannot be booked for the order. */
  predicate WaitingUnbookable(s: State, o: OrderInsertion) {
    exists i :: 0 <= i < |s.buf| && MakerUnbookable(s, o, s.buf[i].maker)
  }

  predicate MakerUnbookable(s: State, o: OrderInsertion, maker: OrderId) {
    maker < |s.ledger.session| && !Bookable(s, o.pair, s.ledger.session[maker].account, o.account)
  }

  /** One of the order's own trades cannot be booked. */
  predicate OwnUnbookable(s: State, m: nat, o: OrderInsertion)
    requires m < |s.markets|
  {
    var side := o.side.Opposite();
    var levels := s.markets[m].book.Side(side);
    var offers := SideOffers(s.markets[m], side);
    && !StopsAtEmptyLevel(side, levels, o.volume)
    && exists k :: 0 <= k < |offers| && TradesAt(offers, o, o.volume, k) && MakerUnbookable(s, o, offers[k].entry.id)
  }

  /** A trade with an order of the account waits. */
  predicate OwnTradeWaits(s: State, account: AccountId) {
    exists i ::
      0 <= i < |s.buf| && s.buf[i].maker < |s.ledger.session| && s.ledger.session[s.buf[i].maker].account == account
  }

  /** Some order's record has less than waiting trades take from it, or less than those and the incoming
      order take together. */
  predicate MakerOverdrawn(s: State, m: nat, o: OrderInsertion)
    requires m < |s.markets|
  {
    var offers := SideOffers(s.markets[m], o.side.Opposite());
    || (exists id :: 0 <= id < |s.ledger.session| && Amount(s.buf, id) > s.ledger.session[id].remaining)
    || (exists k :: 0 <= k < |offers| && Overdraws(s, offers, o, k))
  }

  predicate Overdraws(s: State, offers: seq<Offer>, o: OrderInsertion, k: nat)
    requires k < |offers|
  {
    var id := offers[k].entry.id;
    id < |s.ledger.session| && Amount(s.buf, id) + Taken(offers, o, o.volume, k) > s.ledger.session[id].remaining
  }

  /** Offers of a side have different ids. */
  lemma KnownAreDistinct(s: State, m: nat, side: Side)
    requires Sound(s) && Traceable(s) && m < |s.markets|
    ensures DistinctIds(SideOffers(s.markets[m], side))
  {
    hide Offers;
    var offers := SideOffers(s.markets[m], side);
    assert BookOk(s.markets[m].book, |s.ledger.session|);
    OffersInPriorityOrder(side, s.markets[m].book.Side(side), |s.ledger.session|);
    assert MarketKnown(s.ledger.session, s.markets[m]);
    forall i, j | 0 <= i < j < |offers| ensures offers[i].entry.id != offers[j].entry.id {
      assert Precedes(side, offers[i], offers[j]);
      assert Known(s.ledger.session, s.markets[m].pair, side, offers[i])
          && Known(s.ledger.session, s.markets[m].pair, side, offers[j]);
    }
  }

  /** What the order's own trades take from the owner of offer `k`. */
  lemma TakenFrom(s: State, req: InsertionRequest, m: nat, o: OrderInsertion, k: nat)
    requires Filling(s, req, m, o) && !FillIn(s, m, o).selfTrade && k < |SideOffers(s.markets[m], o.side.Opposite())|
    ensures var offers := SideOffers(s.markets[m], o.side.Opposite());
            Amount(FillIn(s, m, o).trades, offers[k].entry.id) == Taken(offers, o, o.volume, k)
  {
    hide Offers, Greedy, Insert;
    var side := o.side.Opposite();
    var levels := s.markets[m].book.Side(side);
    var offers := Offers(side, levels);
    var trades := FillIn(s, m, o).trades;
    KnownAreDistinct(s, m, side);
    AheadNonNegative(offers, k);
    assert BookOk(s.markets[m].book, |s.ledger.session|);
    if StopsAtEmptyLevel(side, levels, o.volume) {
      StrangerAmount(trades, offers[k].entry.id);
    } else {
      SortedCrossingFirst(side, levels, o);
      TradedVolumes(offers, o, o.volume, k);
      GreedyTrades(offers, o, o.volume);
      assert forall i :: 0 <= i < |trades| ==> TradesWith(trades[i], offers[i], o);
      assert MarketKnown(s.ledger.session, s.markets[m]);
      assert forall i :: 0 <= i < |offers| ==> Known(s.ledger.session, o.pair, side, offers[i]);
      AmountOfTrade(offers, trades, o, k);
    }
  }

  lemma AmountOfTrade(offers: seq<Offer>, trades: seq<ObTransaction>, o: OrderInsertion, k: nat)
    requires DistinctIds(offers) && |trades| <= |offers| && k < |offers|
    requires forall i :: 0 <= i < |trades| ==> TradesWith(trades[i], offers[i], o)
    requires forall i :: 0 <= i < |offers| ==> offers[i].entry.id < o.id
    ensures Amount(trades, offers[k].entry.id) == if k < |trades| then trades[k].volume else 0
  {
    assert forall i :: 0 <= i < |trades| ==> trades[i].maker == offers[i].entry.id && trades[i].taker == o.id;
    if k < |trades| {
      MakerAmount(trades, o.id, k);
    } else {
      StrangerAmount(trades, offers[k].entry.id);
    }
  }

  /** So what records have to give is known before matching. */
  lemma OverdrawnIff(s: State, req: InsertionRequest, m: nat, o: OrderInsertion)
    requires Filling(s, req, m, o) && !FillIn(s, m, o).selfTrade
    ensures var txs, session := s.buf + FillIn(s, m, o).trades, s.ledger.session;
            MakerOverdrawn(s, m, o) <==> exists id :: 0 <= id < |session| && Amount(txs, id) > session[id].remaining
  {
    hide Offers, FillOf, Sound, Traceable, Amount, Taken;
    var offers := SideOffers(s.markets[m], o.side.Opposite());
    var trades := FillIn(s, m, o).trades;
    if MakerOverdrawn(s, m, o) {
      if k: nat :| k < |offers| && Overdraws(s, offers, o, k) {
        TakenFrom(s, req, m, o, k);
        AmountConcat(s.buf, trades, offers[k].entry.id);
      } else {
        var id :| 0 <= id < |s.ledger.session| && Amount(s.buf, id) > s.ledger.session[id].remaining;
        AmountBounds(trades, id);
        AmountConcat(s.buf, trades, id);
      }
    }
    if id: nat :| id < |s.ledger.session| && Amount(s.buf + trades, id) > s.ledger.session[id].remaining {
      AmountConcat(s.buf, trades, id);
      if HasOffer(offers, id) {
        var k: nat :| k < |offers| && offers[k].entry.id == id;
        TakenFrom(s, req, m, o, k);
        assert Overdraws(s, offers, o, k);
      } else {
        NoOfferNoTrade(s, req, m, o, id);
      }
    }
  }

  lemma NoOfferNoTrade(s: State, req: InsertionRequest, m: nat, o: OrderInsertion, id: OrderId)
    requires Filling(s, req, m, o) && id < |s.ledger.session|
             && !HasOffer(SideOffers(s.markets[m], o.side.Opposite()), id)
    ensures Amount(FillIn(s, m, o).trades, id) == 0
  {
    hide Offers, FillOf, Insert, Sound, Traceable;
    var side := o.side.Opposite();
    var g := FillIn(s, m, o);
    IdVolumeBounds(SideOffers(s.markets[m], side), id);
    FillGives(side, s.markets[m].book.Side(side), o, o.volume, id);
    IdVolumeBounds(g.rest, id);
    AmountBounds(g.trades, id);
  }

  lemma AmountConcat(a: seq<ObTransaction>, b: seq<ObTransaction>, id: OrderId)
    ensures Amount(a + b, id) == Amount(a, id) + Amount(b, id)
  {
    SumByConcat(a, b, Share(id));
  }

  lemma WaitingAddressable(s: State, o: OrderInsertion, tx: ObTransaction)
    requires Waits(tx, s.ledger.session) && o.id == |s.ledger.session|
    ensures Addressable(Placed(s, o), o.pair, tx) <==> !MakerUnbookable(s, o, tx.maker)
  {
    hide BalancesSpec.Balances.Disjoint;
  }

  /** Offer `k` trades exactly when prefix sums say so, and then it is the maker of trade `k`. */
  predicate OfferTrades(s: State, m: nat, o: OrderInsertion, trades: seq<ObTransaction>, k: nat)
    requires m < |s.markets| && k < |SideOffers(s.markets[m], o.side.Opposite())|
  {
    var side := o.side.Opposite();
    var offers := SideOffers(s.markets[m], side);
    && (k < |trades|
        <==> !StopsAtEmptyLevel(side, s.markets[m].book.Side(side), o.volume) && TradesAt(offers, o, o.volume, k))
    && (k < |trades| ==> trades[k].maker == offers[k].entry.id)
  }

  /** The makers of the order's own trades. */
  lemma TradeMakers(s: State, req: InsertionRequest, m: nat, o: OrderInsertion, k: nat)
    requires Filling(s, req, m, o) && !FillIn(s, m, o).selfTrade
    requires k < |SideOffers(s.markets[m], o.side.Opposite())|
    ensures OfferTrades(s, m, o, FillIn(s, m, o).trades, k)
  {
    hide Offers, Greedy, Insert, TradesAt;
    var side := o.side.Opposite();
    var levels := s.markets[m].book.Side(side);
    var offers := Offers(side, levels);
    assert BookOk(s.markets[m].book, |s.ledger.session|);
    if !StopsAtEmptyLevel(side, levels, o.volume) {
      SortedCrossingFirst(side, levels, o);
      TradesAtIff(offers, o, o.volume, k);
      GreedyTrades(offers, o, o.volume);
      if k < |FillIn(s, m, o).trades| { assert TradesWith(FillIn(s, m, o).trades[k], offers[k], o); }
    }
  }

  lemma TradesFewer(s: State, m: nat, o: OrderInsertion)
    requires m < |s.markets|
    ensures |FillIn(s, m, o).trades| <= |SideOffers(s.markets[m], o.side.Opposite())|
  {
    hide Offers, Greedy;
    GreedyTrades(SideOffers(s.markets[m], o.side.Opposite()), o, o.volume);
  }

  lemma AllAddressableIff(s: State, req: InsertionRequest, m: nat, o: OrderInsertion)
    requires Filling(s, req, m, o) && !FillIn(s, m, o).selfTrade
    ensures var txs := s.buf + FillIn(s, m, o).trades;
            (forall i :: 0 <= i < |txs| ==> Addressable(Placed(s, o), o.pair, txs[i]))
            <==> !WaitingUnbookable(s, o) && !OwnUnbookable(s, m, o)
  {
    hide Offers, FillOf, Sound, Addressable, TradesAt, MakerUnbookable, StopsAtEmptyLevel;
    var trades := FillIn(s, m, o).trades;
    var txs := s.buf + trades;
    TradesFewer(s, m, o);
    forall i | 0 <= i < |txs|
      ensures Addressable(Placed(s, o), o.pair, txs[i]) <==> !MakerUnbookable(s, o, txs[i].maker)
    {
      if i >= |s.buf| { FillTrade(s, req, m, o, i - |s.buf|); }
      WaitingAddressable(s, o, txs[i]);
    }
    var offers := SideOffers(s.markets[m], o.side.Opposite());
    forall k | 0 <= k < |offers| ensures OfferTrades(s, m, o, trades, k) {
      TradeMakers(s, req, m, o, k);
    }
    AddressableSplit(s, m, o, trades);
  }

  lemma AddressableSplit(s: State, m: nat, o: OrderInsertion, trades: seq<ObTransaction>)
    requires m < |s.markets| && o.id == |s.ledger.session|
    requires var txs := s.buf + trades;
             forall i :: 0 <= i < |txs| ==>
               (Addressable(Placed(s, o), o.pair, txs[i]) <==> !MakerUnbookable(s, o, txs[i].maker))
    requires var offers := SideOffers(s.markets[m], o.side.Opposite());
             |trades| <= |offers| && forall k :: 0 <= k < |offers| ==> OfferTrades(s, m, o, trades, k)
    ensures var txs := s.buf + trades;
            (forall i :: 0 <= i < |txs| ==> Addressable(Placed(s, o), o.pair, txs[i]))
            <==> !WaitingUnbookable(s, o) && !OwnUnbookable(s, m, o)
  {
    hide Offers, Addressable, TradesAt, MakerUnbookable, StopsAtEmptyLevel;
    var txs := s.buf + trades;
    assert forall i :: 0 <= i < |s.buf| ==> txs[i] == s.buf[i];
    assert forall k :: 0 <= k < |trades| ==> txs[|s.buf| + k] == trades[k];
    var offers := SideOffers(s.markets[m], o.side.Opposite());
    if OwnUnbookable(s, m, o) {
      var k :| 0 <= k < |offers| && TradesAt(offers, o, o.volume, k) && MakerUnbookable(s, o, offers[k].entry.id);
      assert OfferTrades(s, m, o, trades, k);
      assert !Addressable(Placed(s, o), o.pair, txs[|s.buf| + k]);
    }
    if i :| 0 <= i < |txs| && !Addressable(Placed(s, o), o.pair, txs[i]) {
      if i >= |s.buf| {
        var k := i - |s.buf|;
        assert OfferTrades(s, m, o, trades, k) && txs[i] == trades[k];
      }
    }
  }

  /** Exactly when an insertion stops the exchange: the order is accepted, and one of the waiting trades or
      of its own has no four balances of its own, or more volume waits than the order leaves untraded, or
      some resting order has to give more than its record has. */
  lemma InsertStopsIff(s: State, req: InsertionRequest)
    requires Sound(s) && Traceable(s)
    ensures var m := FindMarket(s.markets, req.pair); var o := req.IntoInsertion(|s.ledger.session|);
            InsertOrder(s, req).Stopped?
            <==> && m.Some? && req.account < s.accounts && Insert(s.markets[m.value].book, o).result.Ok?
                 && (|| WaitingUnbookable(s, o) || OwnUnbookable(s, m.value, o)
                     || Waiting(s) > Untraded(s, m.value, o)
                     || MakerOverdrawn(s, m.value, o))
  {
    hide Offers, FillOf, Insert, Drain, Sound, Traceable, Untraded, Waiting, WaitingUnbookable, OwnUnbookable,
         MakerOverdrawn, Amount;
    var found := FindMarket(s.markets, req.pair);
    var o := req.IntoInsertion(|s.ledger.session|);
    if found.Some? && req.account < s.accounts && Insert(s.markets[found.value].book, o).result.Ok? {
      var m := found.value;
      FilledBook(s, req, m, o);
      DrainIff(Placed(s, o), s.buf + FillIn(s, m, o).trades, o.pair);
      AllAddressableIff(s, req, m, o);
      TakerTotal(s, req, m, o);
      AmountsIff(s, o, s.buf + FillIn(s, m, o).trades);
      OverdrawnIff(s, req, m, o);
    }
  }

  lemma RegularMaker(s: State, req: InsertionRequest, m: nat, o: OrderInsertion, maker: OrderId)
    requires Filling(s, req, m, o) && Aligned(s) && DistinctAssets(s) && maker < |s.ledger.session|
    ensures MakerUnbookable(s, o, maker) <==> s.ledger.session[maker].account == o.account
  {
    hide Offers, Insert, Traceable;
    var p := s.ledger.session[maker];
    assert OrderOk(p, maker, s.requests[maker], s.accounts, s.markets);
    assert s.markets[m].pair == o.pair;
    FourCellsDisjoint(s.ledger.balances, o.pair, p.account, o.account);
  }

  /** With known accounts and different assets a trade can be booked unless both accounts are the same. */
  lemma RegularBookable(s: State, req: InsertionRequest, m: nat, o: OrderInsertion)
    requires Filling(s, req, m, o) && !FillIn(s, m, o).selfTrade && Aligned(s) && DistinctAssets(s)
    ensures WaitingUnbookable(s, o) <==> OwnTradeWaits(s, o.account)
    ensures !OwnUnbookable(s, m, o)
  {
    hide Offers, FillOf, Sound, TradesAt, MakerUnbookable, StopsAtEmptyLevel;
    forall maker: OrderId | maker < |s.ledger.session|
      ensures MakerUnbookable(s, o, maker) <==> s.ledger.session[maker].account == o.account
    {
      RegularMaker(s, req, m, o, maker);
    }
    if OwnUnbookable(s, m, o) {
      var offers := SideOffers(s.markets[m], o.side.Opposite());
      var k :| 0 <= k < |offers| && TradesAt(offers, o, o.volume, k) && MakerUnbookable(s, o, offers[k].entry.id);
      TradeMakers(s, req, m, o, k);
      FillTrade(s, req, m, o, k);
      assert false;
    }
  }

  /** In an exchange with known accounts and different assets only: a waiting trade is with an order of the
      order's own account, or more volume waits than it leaves untraded, or a resting order is overdrawn. */
  lemma RegularStopsIff(s: State, req: InsertionRequest)
    requires Sound(s) && Traceable(s) && Aligned(s) && DistinctAssets(s)
    ensures var m := FindMarket(s.markets, req.pair); var o := req.IntoInsertion(|s.ledger.session|);
            InsertOrder(s, req).Stopped?
            <==> && m.Some? && req.account < s.accounts && Insert(s.markets[m.value].book, o).result.Ok?
                 && (|| OwnTradeWaits(s, req.account)
                     || Waiting(s) > Untraded(s, m.value, o)
                     || MakerOverdrawn(s, m.value, o))
  {
    hide Offers, FillOf, Insert, InsertOrder, Sound, Traceable, Untraded, Waiting, WaitingUnbookable, OwnUnbookable,
         MakerOverdrawn, OwnTradeWaits;
    InsertStopsIff(s, req);
    var m := FindMarket(s.markets, req.pair);
    var o := req.IntoInsertion(|s.ledger.session|);
    if m.Some? && req.account < s.accounts && Insert(s.markets[m.value].book, o).result.Ok? {
      FilledBook(s, req, m.value, o);
      RegularBookable(s, req, m.value, o);
    }
  }

  lemma AmountsIff(s: State, o: OrderInsertion, txs: seq<ObTransaction>)
    requires o.id == |s.ledger.session|
    ensures (forall id :: 0 <= id < |Placed(s, o).session| ==> Amount(txs, id) <= Placed(s, o).session[id].remaining)
       <==> && Amount(txs, o.id) <= o.volume
            && forall id :: 0 <= id < |s.ledger.session| ==> Amount(txs, id) <= s.ledger.session[id].remaining
  {
    var l := Placed(s, o);
    assert l.session[o.id].remaining == o.volume;
    assert forall id :: 0 <= id < |s.ledger.session| ==> l.session[id] == s.ledger.session[id];
  }

  // ---- the status told to the client ----

  /** The order finds an eligible offer in front. */
  predicate MeetsOffer(s: State, m: nat, o: OrderInsertion)
    requires m < |s.markets|
  {
    var side := o.side.Opposite();
    var offers := SideOffers(s.markets[m], side);
    && !StopsAtEmptyLevel(side, s.markets[m].book.Side(side), o.volume)
    && offers != [] && Crosses(o, offers[0].price)
  }

  lemma MeetsOfferIff(s: State, req: InsertionRequest, m: nat, o: OrderInsertion)
    requires Filling(s, req, m, o) && !FillIn(s, m, o).selfTrade
    ensures MeetsOffer(s, m, o) <==> FillIn(s, m, o).trades != []
  {
    var side := o.side.Opposite();
    FirstOfferTrades(side, s.markets[m].book.Side(side), o, o.volume);
  }

  lemma AnyTouches(txs: seq<ObTransaction>, id: OrderId)
    requires forall i :: 0 <= i < |txs| ==> Touches(txs[i], id)
    ensures Involved(txs, id) <==> txs != []
  {
    if txs != [] { assert txs[0] in txs; }
  }

  /** The record of an accepted order: its trades and all waiting ones were taken from it. */
  lemma HeirRecord(s: State, req: InsertionRequest, m: nat, o: OrderInsertion)
    requires Filling(s, req, m, o) && !FillIn(s, m, o).selfTrade
    requires Drain(Placed(s, o), s.buf + FillIn(s, m, o).trades, o.pair).Some?
    ensures Waiting(s) <= Untraded(s, m, o)
    ensures var s' := Inheriting(s, req, m, o);
            && |s'.ledger.session| == o.id + 1
            && s'.ledger.session[o.id].remaining == Untraded(s, m, o) - Waiting(s)
            && s'.ledger.session[o.id].status
               == if Untraded(s, m, o) == Waiting(s) && (s.buf != [] || MeetsOffer(s, m, o)) then Filled
                  else AwaitingFill
  {
    hide FillOf, Amount, Drain, Offers, Insert, Waiting, Untraded, Sound, MeetsOffer;
    var txs := s.buf + FillIn(s, m, o).trades;
    DrainOrder(Placed(s, o), txs, o.pair, o.id);
    TakerTotal(s, req, m, o);
    MeetsOfferIff(s, req, m, o);
    forall i | 0 <= i < |txs| ensures Touches(txs[i], o.id) {
      if i >= |s.buf| { FillTrade(s, req, m, o, i - |s.buf|); } else { assert Waits(txs[i], s.ledger.session); }
    }
    AnyTouches(txs, o.id);
  }

  /** Exactly when the client is told the status the table records: an order that rests must not have all
      it left untraded taken by waiting trades; one that leaves nothing must have had some trade. */
  lemma StatusAgreesIff(s: State, req: InsertionRequest)
    requires Sound(s) && Traceable(s) && AcceptsInsertion(s, req)
    ensures var r := InsertOrder(s, req); var o := req.IntoInsertion(|s.ledger.session|);
            && FindMarket(s.markets, req.pair).Some?
            && var m := FindMarket(s.markets, req.pair).value;
            && r.reply.inserted.value.0 == o.id < |r.state.ledger.session|
            && (r.reply.inserted.value.1 == r.state.ledger.session[o.id].status
                <==> if Untraded(s, m, o) > 0 then Waiting(s) != Untraded(s, m, o)
                     else s.buf != [] || MeetsOffer(s, m, o))
  {
    assert s.buf == [] ==> Waiting(s) == 0;
    hide FillOf, Drain, Offers, Insert, Waiting, Untraded, Sound, Traceable, MeetsOffer;
    var m, o := InheritingOutcome(s, req);
    HeirRecord(s, req, m, o);
    LeftIsUntraded(s, req, m, o);
    FilledBook(s, req, m, o);
    WaitingNonNegative(s);
  }

  lemma WaitingRecord(s: State, o: OrderInsertion, tx: ObTransaction)
    requires Waits(tx, s.ledger.session) && o.id == |s.ledger.session|
    ensures Record(Placed(s, o).session, o.pair, tx)
         == Settled(o.pair, tx, s.ledger.session[tx.maker].account, o.account)
  {}

  /** When the order is accepted and settled, every waiting trade is logged under the order's own market and
      account, whatever market its maker rested in. */
  lemma WaitingTradeBooked(s: State, req: InsertionRequest, i: nat)
    requires Sound(s) && Traceable(s) && AcceptsInsertion(s, req) && i < |s.buf|
    ensures s.buf[i].maker < |s.ledger.session|
    ensures Settled(req.pair, s.buf[i], s.ledger.session[s.buf[i].maker].account, req.account)
            in InsertOrder(s, req).state.ledger.log
  {
    assert Waits(s.buf[i], s.ledger.session);
    hide Offers, FillIn, Insert, InsertOrder, Drain, Recorded, Sound, Traceable, Record, Waits;
    var m, o := InheritingOutcome(s, req);
    var txs := s.buf + FillIn(s, m, o).trades;
    assert txs[i] == s.buf[i];
    WaitingRecord(s, o, s.buf[i]);
    LoggedInBuffer(s.ledger.log, Placed(s, o).session, o.pair, txs, i);
  }

  // ---- what inherited trades can still take ----

  /** The volume that rests under an order's id where its record says. */
  function OpenIn(session: seq<PlacedOrder>, markets: seq<MarketState>, id: OrderId): int
    requires id < |session|
  {
    var m := FindMarket(markets, session[id].pair);
    if m.None? then 0 else IdVolume(SideOffers(markets[m.value], session[id].side), id)
  }

  predicate BoundedAt(s: State, id: OrderId)
    requires id < |s.ledger.session|
  {
    OpenIn(s.ledger.session, s.markets, id) + Amount(s.buf, id) <= s.ledger.session[id].remaining
  }

  /** What rests of an order and what waiting trades take from it is no more than its recorded open volume. */
  predicate Bounded(s: State) {
    forall id :: 0 <= id < |s.ledger.session| ==> BoundedAt(s, id)
  }

  /** Trades take from orders on the opposite side of the order's market only. */
  lemma TradesElsewhere(s: State, req: InsertionRequest, m: nat, o: OrderInsertion, id: OrderId)
    requires Filling(s, req, m, o) && id < |s.ledger.session|
    requires var p := s.ledger.session[id]; p.pair != o.pair || p.side != o.side.Opposite()
    ensures Amount(FillIn(s, m, o).trades, id) == 0
  {
    hide Offers, FillOf, Insert, Sound;
    var side := o.side.Opposite();
    var g := FillIn(s, m, o);
    assert MarketKnown(s.ledger.session, s.markets[m]);
    NotHere(s.ledger.session, o.pair, side, SideOffers(s.markets[m], side), id);
    FillGives(side, s.markets[m].book.Side(side), o, o.volume, id);
    IdVolumeBounds(g.rest, id);
    AmountBounds(g.trades, id);
  }

  /** Matching gives out of the book at most what it has: for every older order, what is left and what
      was traded is no more than what rested. */
  lemma FillOpen(s: State, req: InsertionRequest, m: nat, o: OrderInsertion, id: OrderId)
    requires Filling(s, req, m, o) && id < |s.ledger.session|
    ensures OpenIn(s.ledger.session, MarketsAfter(s, m, o), id) + Amount(FillIn(s, m, o).trades, id)
         <= OpenIn(s.ledger.session, s.markets, id)
  {
    hide Offers, FillOf, Insert, IdVolume, Amount, Sound, Traceable;
    var p := s.ledger.session[id];
    FindMarketSame(s.markets, MarketsAfter(s, m, o), p.pair);
    FilledBook(s, req, m, o);
    var g := FillIn(s, m, o);
    if p.pair == o.pair && p.side == o.side.Opposite() {
      FillGives(p.side, s.markets[m].book.Side(p.side), o, o.volume, id);
    } else {
      TradesElsewhere(s, req, m, o, id);
      if p.pair == o.pair && !g.selfTrade && g.left > 0 {
        PlaceIdVolume(o.side, SideOffers(s.markets[m], o.side), Offer(o.price, EntryOf(o, g.left)), id);
      }
    }
  }

  lemma OpenNonNegative(session: seq<PlacedOrder>, markets: seq<MarketState>, id: OrderId)
    requires id < |session|
    ensures OpenIn(session, markets, id) >= 0
  {
    hide Offers;
    var m := FindMarket(markets, session[id].pair);
    if m.Some? { IdVolumeBounds(SideOffers(markets[m.value], session[id].side), id); }
  }

  /** In a bounded exchange no resting order is overdrawn. */
  lemma MakersGive(s: State, req: InsertionRequest, m: nat, o: OrderInsertion)
    requires Filling(s, req, m, o) && !FillIn(s, m, o).selfTrade && Bounded(s)
    ensures !MakerOverdrawn(s, m, o)
  {
    assert m < |s.markets|;
    hide FillIn, OpenIn, Amount, Filling, MakerOverdrawn;
    OverdrawnIff(s, req, m, o);
    forall id | 0 <= id < |s.ledger.session|
      ensures Amount(s.buf + FillIn(s, m, o).trades, id) <= s.ledger.session[id].remaining
    {
      assert BoundedAt(s, id);
      FillOpen(s, req, m, o, id);
      OpenNonNegative(s.ledger.session, MarketsAfter(s, m, o), id);
      AmountConcat(s.buf, FillIn(s, m, o).trades, id);
    }
  }

  /** In a bounded exchange only the incoming order's side can stop it: its account, or its volume. */
  lemma BoundedStopsIff(s: State, req: InsertionRequest)
    requires Sound(s) && Traceable(s) && Aligned(s) && DistinctAssets(s) && Bounded(s)
    ensures var m := FindMarket(s.markets, req.pair); var o := req.IntoInsertion(|s.ledger.session|);
            InsertOrder(s, req).Stopped?
            <==> && m.Some? && req.account < s.accounts && Insert(s.markets[m.value].book, o).result.Ok?
                 && (OwnTradeWaits(s, req.account) || Waiting(s) > Untraded(s, m.value, o))
  {
    hide Offers, FillOf, Insert, InsertOrder, Sound, Traceable, Bounded, Untraded, Waiting, OwnTradeWaits,
         MakerOverdrawn;
    RegularStopsIff(s, req);
    var m := FindMarket(s.markets, req.pair);
    var o := req.IntoInsertion(|s.ledger.session|);
    if m.Some? && req.account < s.accounts && Insert(s.markets[m.value].book, o).result.Ok? {
      FilledBook(s, req, m.value, o);
      MakersGive(s, req, m.value, o);
    }
  }

  // ---- what keeps an exchange bounded ----

  lemma SelfTradeKeepsBounded(s: State, req: InsertionRequest, m: nat, o: OrderInsertion)
    requires Filling(s, req, m, o) && Bounded(s)
    ensures Bounded(s.(markets := MarketsAfter(s, m, o), buf := s.buf + FillIn(s, m, o).trades))
  {
    assert m < |s.markets|;
    hide FillIn, OpenIn, Amount, Filling, MarketsAfter;
    var s' := s.(markets := MarketsAfter(s, m, o), buf := s.buf + FillIn(s, m, o).trades);
    forall id | 0 <= id < |s.ledger.session| ensures BoundedAt(s', id) {
      assert BoundedAt(s, id);
      FillOpen(s, req, m, o, id);
      AmountConcat(s.buf, FillIn(s, m, o).trades, id);
    }
  }

  lemma OldOrderBounded(s: State, req: InsertionRequest, m: nat, o: OrderInsertion, id: OrderId)
    requires Filling(s, req, m, o) && id < |s.ledger.session| && BoundedAt(s, id)
    requires Drain(Placed(s, o), s.buf + FillIn(s, m, o).trades, o.pair).Some?
    ensures var s' := Inheriting(s, req, m, o);
            |s'.ledger.session| == |s.ledger.session| + 1 && BoundedAt(s', id)
  {
    assert m < |s.markets|;
    hide FillIn, Amount, Filling, MarketsAfter, Drain, IdVolume, Offers;
    var txs := s.buf + FillIn(s, m, o).trades;
    DrainOrder(Placed(s, o), txs, o.pair, id);
    FillOpen(s, req, m, o, id);
    AmountConcat(s.buf, FillIn(s, m, o).trades, id);
    assert Amount([], id) == 0 by { UninvolvedAmount([], id); }
  }

  /** The new order rests with what it left untraded, but its record also paid for what waited. */
  lemma NewOrderBoundedIff(s: State, req: InsertionRequest, m: nat, o: OrderInsertion)
    requires Filling(s, req, m, o) && !FillIn(s, m, o).selfTrade
    requires Drain(Placed(s, o), s.buf + FillIn(s, m, o).trades, o.pair).Some?
    ensures var s' := Inheriting(s, req, m, o);
            |s'.ledger.session| == o.id + 1 && (BoundedAt(s', o.id) <==> Waiting(s) == 0)
  {
    hide FillOf, Amount, Drain, IdVolume, Offers, Insert, Waiting, Untraded, Traceable;
    var g := FillIn(s, m, o);
    DrainOrder(Placed(s, o), s.buf + g.trades, o.pair, o.id);
    TakerTotal(s, req, m, o);
    LeftIsUntraded(s, req, m, o);
    FilledBook(s, req, m, o);
    WaitingNonNegative(s);
    FindMarketSame(s.markets, MarketsAfter(s, m, o), o.pair);
    assert Amount([], o.id) == 0 by { UninvolvedAmount([], o.id); }
    NotRestingYet(s, req, m, o);
    if g.left > 0 {
      PlaceIdVolume(o.side, SideOffers(s.markets[m], o.side), Offer(o.price, EntryOf(o, g.left)), o.id);
    }
  }

  lemma WaitingNonNegative(s: State)
    ensures Waiting(s) >= 0
  {
    SumByNonNegative(s.buf, VolumeOf());
  }

  lemma NotRestingYet(s: State, req: InsertionRequest, m: nat, o: OrderInsertion)
    requires Filling(s, req, m, o)
    ensures IdVolume(SideOffers(s.markets[m], o.side), o.id) == 0
  {
    hide Offers, Insert, Sound;
    assert MarketKnown(s.ledger.session, s.markets[m]);
    NotHere(s.ledger.session, o.pair, o.side, SideOffers(s.markets[m], o.side), o.id);
  }

  /** An accepted order leaves a bounded exchange bounded exactly when no volume waited for it:
      otherwise it rests with more than its record has. */
  lemma AcceptedKeepsBoundedIff(s: State, req: InsertionRequest)
    requires Sound(s) && Traceable(s) && Bounded(s) && AcceptsInsertion(s, req)
    ensures Bounded(InsertOrder(s, req).state) <==> Waiting(s) == 0
  {
    hide Offers, FillOf, Insert, InsertOrder, Drain, Sound, Traceable, BoundedAt, Waiting;
    var m, o := InheritingOutcome(s, req);
    var s' := InsertOrder(s, req).state;
    NewOrderBoundedIff(s, req, m, o);
    forall id | 0 <= id < o.id ensures BoundedAt(s', id) {
      OldOrderBounded(s, req, m, o, id);
    }
  }

  /** One side of a market's book with no more volume under any id, and one record with other volume or status. */
  ghost predicate Eased(s: State, m: nat, side: Side, book: Book, id: OrderId, order: PlacedOrder) {
    && m < |s.markets| && id < |s.ledger.session|
    && order == s.ledger.session[id].(volume := order.volume, status := order.status)
    && book.Side(side.Opposite()) == s.markets[m].book.Side(side.Opposite())
    && forall other: OrderId ::
         IdVolume(Offers(side, book.Side(side)), other) <= IdVolume(SideOffers(s.markets[m], side), other)
  }

  lemma EasedBounded(s: State, m: nat, side: Side, book: Book, id: OrderId, order: PlacedOrder)
    requires Bounded(s) && Eased(s, m, side, book, id, order)
    ensures Bounded(WithOrder(s, m, book, id, order))
  {
    hide Offers, IdVolume, Amount;
    var s' := WithOrder(s, m, book, id, order);
    forall other | 0 <= other < |s'.ledger.session| ensures BoundedAt(s', other) {
      assert BoundedAt(s, other);
      FindMarketSame(s.markets, s'.markets, s.ledger.session[other].pair);
    }
  }

  lemma CancelKeepsBounded(s: State, req: CancellationRequest)
    requires Sound(s) && Bounded(s)
    ensures Bounded(CancelOrder(s, req).state)
  {
    hide Offers, CancelIn, Bounded, IdVolume;
    if CancelOrder(s, req).reply == CancelReply(Ok(())) {
      var p := s.ledger.session[req.orderId];
      var m := FindMarket(s.markets, p.pair).value;
      assert BookOk(s.markets[m].book, |s.ledger.session|);
      var k := CancelOffers(p.side, s.markets[m].book.Side(p.side), p.price, req.orderId);
      var book := Cancel(s.markets[m].book, req.IntoCancellation(p.pair, p.side, p.price)).value;
      forall other: OrderId
        ensures IdVolume(Offers(p.side, book.Side(p.side)), other) <= IdVolume(SideOffers(s.markets[m], p.side), other)
      {
        ShrunkVolume(SideOffers(s.markets[m], p.side), k, 0, other);
      }
      EasedBounded(s, m, p.side, book, req.orderId, p.(status := Cancelled));
    }
  }

  lemma ModifyKeepsBounded(s: State, req: ModificationRequest)
    requires Sound(s) && Bounded(s) && ModifyOrder(s, req).Done?
    ensures Bounded(ModifyOrder(s, req).state)
  {
    hide Offers, ModifyIn, Bounded, IdVolume;
    if ModifyOrder(s, req).reply == ModifyReply(Ok(())) {
      var p := s.ledger.session[req.orderId];
      var m := FindMarket(s.markets, p.pair).value;
      assert BookOk(s.markets[m].book, |s.ledger.session|);
      var reduction := p.volume - req.newVolume;
      var k := ModifyOffers(p.side, s.markets[m].book.Side(p.side), p.price, req.orderId, reduction);
      var book := Modify(s.markets[m].book, req.IntoModification(p.pair, p.side, p.price, p.volume)).value;
      forall other: OrderId
        ensures IdVolume(Offers(p.side, book.Side(p.side)), other) <= IdVolume(SideOffers(s.markets[m], p.side), other)
      {
        ShrunkVolume(SideOffers(s.markets[m], p.side), k, reduction, other);
      }
      EasedBounded(s, m, p.side, book, req.orderId, Resized(p, req.newVolume));
    }
  }

  lemma AddMarketKeepsBounded(s: State, pair: AssetIdPair)
    requires Sound(s) && Bounded(s)
    ensures Bounded(AddMarket(s, pair).state)
  {
    hide Offers, IdVolume, Amount;
    var s' := AddMarket(s, pair).state;
    if s' != s {
      forall id | 0 <= id < |s'.ledger.session| ensures BoundedAt(s', id) {
        assert BoundedAt(s, id);
        assert OrderOk(s.ledger.session[id], id, s.requests[id], s.accounts, s.markets);
        FindMarketKept(s.markets, MarketState(pair, 0, EMPTY_BOOK), s.ledger.session[id].pair);
      }
    }
  }

  /** The command places no order while volume waits. */
  ghost predicate InheritsNothing(s: State, c: Command) {
    c.InsertCmd? && AcceptsInsertion(s, c.insertion) ==> Waiting(s) == 0
  }

  lemma InsertKeepsBounded(s: State, req: InsertionRequest)
    requires Sound(s) && Traceable(s) && Bounded(s) && InsertOrder(s, req).Done? && InheritsNothing(s, InsertCmd(req))
    ensures Bounded(InsertOrder(s, req).state)
  {
    hide Offers, FillOf, Insert, Drain, Sound, Traceable, Bounded, Waiting;
    var found := FindMarket(s.markets, req.pair);
    var o := req.IntoInsertion(|s.ledger.session|);
    if AcceptsInsertion(s, req) {
      AcceptedKeepsBoundedIff(s, req);
    } else if found.None? || req.account >= s.accounts || FailsCheck(Insert(s.markets[found.value].book, o)) {
      RejectedUnchanged(s, req);
    } else {
      FilledBook(s, req, found.value, o);
      SelfTradeKeepsBounded(s, req, found.value, o);
    }
  }

  lemma StepKeepsBounded(s: State, c: Command)
    requires Sound(s) && Traceable(s) && Bounded(s) && s.ledger.balances.Dense() && Step(s, c).Done?
             && InheritsNothing(s, c)
    ensures Bounded(Step(s, c).state)
  {
    hide InsertOrder, CancelOrder, ModifyOrder, AddMarket, Sound, Traceable, BoundedAt;
    match c
    case AddMarketCmd(pair) => AddMarketKeepsBounded(s, pair);
    case InsertCmd(req) => InsertKeepsBounded(s, req);
    case CancelCmd(req) => CancelKeepsBounded(s, req);
    case ModifyCmd(req) => ModifyKeepsBounded(s, req);
    case _ => SameBounded(s, Step(s, c).state);
  }

  lemma SameBounded(s: State, s': State)
    requires Bounded(s) && s'.markets == s.markets && s'.buf == s.buf && s'.ledger.session == s.ledger.session
    ensures Bounded(s')
  {
    forall id | 0 <= id < |s'.ledger.session| ensures BoundedAt(s', id) {
      assert BoundedAt(s, id);
    }
  }

  lemma StepKeepsRegular(s: State, c: Command)
    requires Aligned(s) && DistinctAssets(s) && Regular(c) && Step(s, c).Done?
    ensures Aligned(Step(s, c).state) && DistinctAssets(Step(s, c).state)
  {
    hide Insert, Drain, Cancel, Modify;
    match c
    case AddAssetCmd => AddAssetDense(s.ledger.balances);
    case InsertCmd(req) =>
      var m := FindMarket(s.markets, req.pair);
      if m.Some? && req.account < s.accounts {
        var o := req.IntoInsertion(|s.ledger.session|);
        var r := Insert(s.markets[m.value].book, o);
        if r.result.Ok? {
          DrainFrame(Placed(s, o), s.buf + r.trades, req.pair);
        }
      }
    case _ =>
  }

  // ---- over runs ----

  lemma {:induction false} RegularOverRuns(cmds: seq<Command>)
    requires (forall i :: 0 <= i < |cmds| ==> Regular(cmds[i])) && Run(cmds).Running?
    ensures var s := Run(cmds).state; Aligned(s) && DistinctAssets(s)
    decreases |cmds|
  {
    hide Step, Aligned, DistinctAssets;
    if cmds == [] {
      EmptyExchangeOk();
    } else {
      var n := |cmds| - 1;
      RegularOverRuns(cmds[..n]);
      StepKeepsRegular(Run(cmds[..n]).state, cmds[n]);
    }
  }

  /** After every run, whatever it did: exactly when the next insertion stops the exchange. */
  lemma InsertStopsOverRuns(cmds: seq<Command>, req: InsertionRequest)
    requires Run(cmds).Running?
    ensures var s := Run(cmds).state;
            var m := FindMarket(s.markets, req.pair); var o := req.IntoInsertion(|s.ledger.session|);
            InsertOrder(s, req).Stopped?
            <==> && m.Some? && req.account < s.accounts && Insert(s.markets[m.value].book, o).result.Ok?
                 && (|| WaitingUnbookable(s, o) || OwnUnbookable(s, m.value, o)
                     || Waiting(s) > Untraded(s, m.value, o)
                     || MakerOverdrawn(s, m.value, o))
  {
    RunSound(cmds);
    TraceableOverRuns(cmds);
    InsertStopsIff(Run(cmds).state, req);
  }

  /** After every run: exactly when the status told to the client is the recorded one. */
  lemma StatusOverRuns(cmds: seq<Command>, req: InsertionRequest)
    requires Run(cmds).Running? && AcceptsInsertion(Run(cmds).state, req)
    ensures var s := Run(cmds).state; var r := InsertOrder(s, req);
            var o := req.IntoInsertion(|s.ledger.session|);
            && FindMarket(s.markets, req.pair).Some?
            && var m := FindMarket(s.markets, req.pair).value;
            && r.reply.inserted.value.0 == o.id < |r.state.ledger.session|
            && (r.reply.inserted.value.1 == r.state.ledger.session[o.id].status
                <==> if Untraded(s, m, o) > 0 then Waiting(s) != Untraded(s, m, o)
                     else s.buf != [] || MeetsOffer(s, m, o))
  {
    RunSound(cmds);
    TraceableOverRuns(cmds);
    StatusAgreesIff(Run(cmds).state, req);
  }

  /** After every run of regular commands, self-trades and modifications included. */
  lemma RegularStopsOverRuns(cmds: seq<Command>, req: InsertionRequest)
    requires (forall i :: 0 <= i < |cmds| ==> Regular(cmds[i])) && Run(cmds).Running?
    ensures var s := Run(cmds).state;
            var m := FindMarket(s.markets, req.pair); var o := req.IntoInsertion(|s.ledger.session|);
            InsertOrder(s, req).Stopped?
            <==> && m.Some? && req.account < s.accounts && Insert(s.markets[m.value].book, o).result.Ok?
                 && (|| OwnTradeWaits(s, req.account)
                     || Waiting(s) > Untraded(s, m.value, o)
                     || MakerOverdrawn(s, m.value, o))
  {
    RunSound(cmds);
    RegularOverRuns(cmds);
    TraceableOverRuns(cmds);
    RegularStopsIff(Run(cmds).state, req);
  }

  /** A run in which no order is accepted while volume waits; self-trades and modifications are allowed. */
  ghost predicate NothingInherited(cmds: seq<Command>)
    decreases |cmds|
  {
    cmds == [] ||
    var n := |cmds| - 1;
    && NothingInherited(cmds[..n])
    && (Run(cmds[..n]).Running? ==> InheritsNothing(Run(cmds[..n]).state, cmds[n]))
  }

  /** In such runs every order's resting volume and what waiting trades take from it is covered by its record. */
  lemma {:induction false} BoundedOverRuns(cmds: seq<Command>)
    requires NothingInherited(cmds) && Run(cmds).Running?
    ensures Bounded(Run(cmds).state)
    decreases |cmds|
  {
    hide Step, Bounded;
    if cmds == [] {
      assert Bounded(EMPTY_EXCHANGE) by { EmptyBounded(); }
    } else {
      var n := |cmds| - 1;
      BoundedOverRuns(cmds[..n]);
      RunSound(cmds[..n]);
      TraceableOverRuns(cmds[..n]);
      StepKeepsBounded(Run(cmds[..n]).state, cmds[n]);
    }
  }

  lemma EmptyBounded()
    ensures Bounded(EMPTY_EXCHANGE)
  {}

  /** So the first order accepted after a self-trade stops the exchange exactly when a waiting trade is with
      its own account or more volume waits than it leaves untraded: conditions on the taker's side alone. */
  lemma FirstHeirStopsIff(cmds: seq<Command>, req: InsertionRequest)
    requires (forall i :: 0 <= i < |cmds| ==> Regular(cmds[i])) && NothingInherited(cmds) && Run(cmds).Running?
    ensures var s := Run(cmds).state;
            var m := FindMarket(s.markets, req.pair); var o := req.IntoInsertion(|s.ledger.session|);
            InsertOrder(s, req).Stopped?
            <==> && m.Some? && req.account < s.accounts && Insert(s.markets[m.value].book, o).result.Ok?
                 && (OwnTradeWaits(s, req.account) || Waiting(s) > Untraded(s, m.value, o))
  {
    RunSound(cmds);
    RegularOverRuns(cmds);
    TraceableOverRuns(cmds);
    BoundedOverRuns(cmds);
    BoundedStopsIff(Run(cmds).state, req);
  }
}
