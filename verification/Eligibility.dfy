/**
 Matching and the volume checks in plain comparisons of prices and sums of volumes: which
 offers an order may trade with, and what its price means for each type of order.
 */
module Eligibility {
  import opened Types
  import opened Sums
  import opened BookSpec
  import opened Matching
  import opened MatchingFacts
  import opened BookFacts

  /** A bid pays at most its limit, an ask takes at least its limit. */
  predicate Within(side: Side, limit: Price, price: Price) {
    match side
    case Bid => price <= limit
    case Ask => limit <= price
  }

  /** The volume offered within a limit. */
  function VolumeWithin(side: Side, limit: Price): Offer -> int {
    (offer: Offer) => if Within(side, limit, offer.price) then offer.entry.volume else 0
  }

  /** What an order leaves untraded: its volume less all that is offered to it, but at least nothing. A market
      order is offered everything, any other order what is within its limit. */
  function LeftUntraded(offers: seq<Offer>, orderType: OrderType, side: Side, volume: Volume, price: Price): int {
    var offered := if orderType.Market? then SumBy(offers, OpenVolume()) else SumBy(offers, VolumeWithin(side, price));
    if offered < volume then volume - offered else 0
  }

  lemma EligibleSum(offers: seq<Offer>, o: OrderInsertion)
    ensures SumBy(offers, EligibleVolume(o))
         == if o.orderType.Market? then SumBy(offers, OpenVolume()) else SumBy(offers, VolumeWithin(o.side, o.price))
  {
    if o.orderType.Market? {
      SumByEqual(offers, EligibleVolume(o), OpenVolume());
    } else {
      SumByEqual(offers, EligibleVolume(o), VolumeWithin(o.side, o.price));
    }
  }

  // ---- the volume checks ----

  /** A market order is refused for lack of volume exactly when nothing is offered or less than it asks for,
      whatever the prices; it is never killed. */
  lemma MarketRefusedIff(book: Book, o: OrderInsertion)
    requires SortedSide(book.bids) && SortedSide(book.asks) && o.orderType.Market?
    ensures var offers := Offers(o.side.Opposite(), book.Side(o.side.Opposite()));
            Insert(book, o).result == Err(InadequateVolume) <==> offers == [] || SumBy(offers, OpenVolume()) < o.volume
    ensures Insert(book, o).result != Err(OrderKilled)
  {
    hide Offers, Sweep;
    var levels := book.Side(o.side.Opposite());
    EnoughVolumeIff(levels, o);
    EligibleSum(Offers(o.side.Opposite(), levels), o);
    SidesNotEmpty(o.side.Opposite(), levels);
    assert HasEligible(Offers(o.side.Opposite(), levels), o) <==> Offers(o.side.Opposite(), levels) != [] by {
      if Offers(o.side.Opposite(), levels) != [] { assert Crosses(o, Offers(o.side.Opposite(), levels)[0].price); }
    }
    hide EnoughVolume;
  }

  lemma SidesNotEmpty(side: Side, levels: seq<Level>)
    ensures levels == [] ==> Offers(side, levels) == []
  {}

  /** A fill-or-kill order is killed exactly when nothing is offered within its limit or less than it asks for,
      or it is an ask and the lowest bid is below its limit; it is never refused as inadequate. */
  lemma FillOrKillKilledIff(book: Book, o: OrderInsertion)
    requires SortedSide(book.bids) && SortedSide(book.asks) && o.orderType.FillOrKill?
    ensures var levels := book.Side(o.side.Opposite()); var offers := Offers(o.side.Opposite(), levels);
            Insert(book, o).result == Err(OrderKilled)
            <==> || (forall k :: 0 <= k < |offers| ==> !Within(o.side, o.price, offers[k].price))
                 || SumBy(offers, VolumeWithin(o.side, o.price)) < o.volume
                 || (o.side.Ask? && levels != [] && levels[0].price < o.price)
    ensures Insert(book, o).result != Err(InadequateVolume)
  {
    hide Offers, Sweep;
    var levels := book.Side(o.side.Opposite());
    EnoughVolumeIff(levels, o);
    EligibleSum(Offers(o.side.Opposite(), levels), o);
    SidesNotEmpty(o.side.Opposite(), levels);
    hide EnoughVolume;
  }

  /** A limit order is never refused for its volume. */
  lemma LimitNeverRefused(book: Book, o: OrderInsertion)
    requires o.orderType.Limit?
    ensures Insert(book, o).result.Ok? || Insert(book, o).result == Err(SelfTrade)
  {
    hide Sweep;
  }

  // ---- the trades ----

  /** What an accepted order trades: the offers in order, while the volume ahead of them leaves it some, at their
      prices, each as much as is left, up to what is offered. The price decides for all but market orders. */
  lemma InsertTrade(book: Book, o: OrderInsertion, k: nat)
    requires SortedSide(book.bids) && SortedSide(book.asks) && Insert(book, o).result.Ok?
    requires k < |Offers(o.side.Opposite(), book.Side(o.side.Opposite()))|
    ensures var levels := book.Side(o.side.Opposite()); var offers := Offers(o.side.Opposite(), levels);
            var trades := Insert(book, o).trades; var ahead := SumBy(offers[..k], OpenVolume());
            && |trades| <= |offers|
            && (k < |trades|
                <==> && !StopsAtEmptyLevel(o.side.Opposite(), levels, o.volume)
                     && (o.orderType.Market? || Within(o.side, o.price, offers[k].price))
                     && (k == 0 || ahead < o.volume))
            && (k < |trades| ==>
                  && trades[k].price == offers[k].price && trades[k].takerSide == o.side
                  && trades[k].maker == offers[k].entry.id && trades[k].taker == o.id
                  && trades[k].volume == if o.volume - ahead < offers[k].entry.volume then o.volume - ahead
                                         else offers[k].entry.volume)
  {
    hide Offers, Greedy, Insert;
    var side := o.side.Opposite();
    var levels := book.Side(side);
    var offers := Offers(side, levels);
    InsertIsFill(book, o);
    if !StopsAtEmptyLevel(side, levels, o.volume) {
      SortedCrossingFirst(side, levels, o);
      TradesAtIff(offers, o, o.volume, k);
      TradedVolumes(offers, o, o.volume, k);
      GreedyTrades(offers, o, o.volume);
      if k < |Insert(book, o).trades| {
        assert TradesWith(Insert(book, o).trades[k], offers[k], o);
        assert k == 0 ==> Ahead(offers, k) == 0;
      }
    }
  }

  /** The price an accepted order leaves as the last traded one: that of its last trade, if it was filled by trades. */
  lemma LastTradedPrice(book: Book, o: OrderInsertion)
    requires SortedSide(book.bids) && SortedSide(book.asks) && Insert(book, o).result.Ok?
    ensures var opposite := Offers(o.side.Opposite(), book.Side(o.side.Opposite()));
            var left := LeftUntraded(opposite, o.orderType, o.side, o.volume, o.price);
            var trades := Insert(book, o).trades;
            Insert(book, o).result.value.1
            == if left == 0 && trades != [] then Some(trades[|trades| - 1].price) else None
  {
    hide Offers, Greedy, Sweep, EnoughVolume, RestEntry, LeftUntraded;
    SweepIsFill(o.side.Opposite(), book.Side(o.side.Opposite()), o, o.volume);
    FillLeaves(o.side.Opposite(), book.Side(o.side.Opposite()), o, o.volume);
  }

  // ---- a self-trade ----

  /** What a fill that meets the taker's own offer leaves: the offers ahead of it are traded whole and gone, the own
      offer gave what was left of the order's volume without a trade, and the offers behind it are untouched. */
  predicate StoppedAt(g: GreedyFill, offers: seq<Offer>, o: OrderInsertion, vol: Volume, n: nat) {
    && n < |offers| && offers[n].entry.account == o.account && |g.trades| == n
    && (forall i :: 0 <= i < n ==>
          g.trades[i].maker == offers[i].entry.id && g.trades[i].volume == offers[i].entry.volume)
    && var left := vol - SumBy(offers[..n], OpenVolume());
    && 0 <= left
    && var given := if left < offers[n].entry.volume then left else offers[n].entry.volume;
    && g.rest == [offers[n].(entry := offers[n].entry.(volume := offers[n].entry.volume - given))] + offers[n + 1..]
  }

  lemma {:induction false} GreedySelfTrade(offers: seq<Offer>, o: OrderInsertion, vol: Volume)
    requires Greedy(offers, o, vol).selfTrade
    ensures StoppedAt(Greedy(offers, o, vol), offers, o, vol, |Greedy(offers, o, vol).trades|)
    decreases |offers|
  {
    assert offers != [] && Crosses(o, offers[0].price);
    hide Greedy, StoppedAt, Crosses, Min;
    var head, tail := offers[0], offers[1..];
    assert offers == [head] + tail;
    GreedyStep(head, tail, o, vol);
    if head.entry.account == o.account {
      StoppedAtOnce(head, tail, o, vol, Greedy(offers, o, vol));
    } else {
      var left := vol - head.entry.volume;
      GreedySelfTrade(tail, o, left);
      StoppedOneLater(head, tail, o, vol, Greedy(tail, o, left));
    }
  }

  lemma StoppedAtOnce(head: Offer, tail: seq<Offer>, o: OrderInsertion, vol: Volume, g: GreedyFill)
    requires head.entry.account == o.account
    requires g.trades == [] && g.rest == [Reduced(head, TradeWith(o, head, vol).volume)] + tail
    ensures StoppedAt(g, [head] + tail, o, vol, 0)
  {
    var offers := [head] + tail;
    assert offers[..0] == [] && offers[1..] == tail;
  }

  lemma StoppedOneLater(head: Offer, tail: seq<Offer>, o: OrderInsertion, vol: Volume, g: GreedyFill)
    requires head.entry.volume <= vol && TradeWith(o, head, vol).volume == head.entry.volume
    requires StoppedAt(g, tail, o, vol - head.entry.volume, |g.trades|)
    ensures StoppedAt(g.(trades := [TradeWith(o, head, vol)] + g.trades), [head] + tail, o, vol, |g.trades| + 1)
  {
    hide OpenVolume;
    var n := |g.trades|;
    var offers, trades := [head] + tail, [TradeWith(o, head, vol)] + g.trades;
    AheadOfNext(offers, n) by { assert offers[1..] == tail; }
    assert offers[1..] == tail && offers[n + 1] == tail[n];
    assert offers[n + 2..] == tail[n + 1..];
    OneLaterTraded(head, tail, TradeWith(o, head, vol), g.trades);
    hide SumBy;
  }

  lemma OneLaterTraded(head: Offer, tail: seq<Offer>, trade: ObTransaction, trades: seq<ObTransaction>)
    requires trade.maker == head.entry.id && trade.volume == head.entry.volume && |trades| <= |tail|
    requires forall i :: 0 <= i < |trades| ==>
               trades[i].maker == tail[i].entry.id && trades[i].volume == tail[i].entry.volume
    ensures forall i :: 0 <= i < |trades| + 1 ==>
              && ([trade] + trades)[i].maker == ([head] + tail)[i].entry.id
              && ([trade] + trades)[i].volume == ([head] + tail)[i].entry.volume
  {}

  /** The book after a refused self-trade, and the trades found before it. */
  lemma SelfTradeLeaves(book: Book, o: OrderInsertion)
    requires SortedSide(book.bids) && SortedSide(book.asks) && Insert(book, o).result == Err(SelfTrade)
    ensures var side := o.side.Opposite(); var r := Insert(book, o); var offers := Offers(side, book.Side(side));
            && StoppedAt(GreedyFill(Offers(side, r.book.Side(side)), r.trades, 0, true), offers, o, o.volume,
                         |r.trades|)
            && r.book.Side(o.side) == book.Side(o.side)
  {
    hide Offers, Greedy, Insert;
    var side := o.side.Opposite();
    InsertIsFill(book, o);
    GreedySelfTrade(Offers(side, book.Side(side)), o, o.volume);
  }

  // ---- what is left ----

  /** An accepted order rests with what it leaves untraded, at its own price behind all offers at least as good,
      under its own id and account; otherwise its side stays as it is. */
  lemma InsertRests(book: Book, o: OrderInsertion) returns (k: nat)
    requires SortedSide(book.bids) && SortedSide(book.asks) && Insert(book, o).result.Ok?
    ensures var before, after := Offers(o.side, book.Side(o.side)), Offers(o.side, Insert(book, o).book.Side(o.side));
            var opposite := Offers(o.side.Opposite(), book.Side(o.side.Opposite()));
            var left := LeftUntraded(opposite, o.orderType, o.side, o.volume, o.price);
            && 0 <= left <= o.volume
            && Insert(book, o).result.value.0 == (if left > 0 then AwaitingFill else Status.Filled)
            && (left == 0 ==> after == before)
            && (left > 0 ==>
                  && k <= |before|
                  && after == before[..k] + [Offer(o.price, Entry(o.id, o.account, left))] + before[k..]
                  && (forall i :: 0 <= i < k ==>
                        if o.side.Bid? then before[i].price >= o.price else before[i].price <= o.price)
                  && (k < |before| ==> if o.side.Bid? then before[k].price < o.price else before[k].price > o.price))
  {
    hide Offers, Greedy, Insert, Place;
    var side := o.side.Opposite();
    var levels := book.Side(side);
    InsertIsFill(book, o);
    FillLeaves(side, levels, o, o.volume);
    k := 0;
    var left := FillOf(side, levels, o, o.volume).left;
    FillWithin(side, levels, o, o.volume);
    if left > 0 {
      k := PlaceAt(o.side, Offers(o.side, book.Side(o.side)), Offer(o.price, EntryOf(o, left)));
    }
  }

  lemma FillWithin(side: Side, levels: seq<Level>, o: OrderInsertion, vol: Volume)
    requires !FillOf(side, levels, o, vol).selfTrade
    ensures FillOf(side, levels, o, vol).left <= vol
  {
    hide Offers, Greedy;
    if !StopsAtEmptyLevel(side, levels, vol) {
      var offers := Offers(side, levels);
      GreedyRest(offers, o, vol);
      SumByNonNegative(Greedy(offers, o, vol).trades, VolumeOf());
    }
  }

  lemma FillLeaves(side: Side, levels: seq<Level>, o: OrderInsertion, vol: Volume)
    requires SortedSide(levels) && side == o.side.Opposite() && !FillOf(side, levels, o, vol).selfTrade
    ensures FillOf(side, levels, o, vol).left == LeftUntraded(Offers(side, levels), o.orderType, o.side, vol, o.price)
  {
    hide Offers, Greedy;
    var offers := Offers(side, levels);
    EligibleSum(offers, o);
    if StopsAtEmptyLevel(side, levels, vol) {
      SumByNonNegative(offers, EligibleVolume(o));
    } else {
      SortedCrossingFirst(side, levels, o);
      GreedyLeft(offers, o, vol);
    }
  }

  // ---- the price of a market order ----

  lemma {:induction false} QueueIgnoresPrice(q: seq<Entry>, at: Price, o: OrderInsertion, vol: Volume, price: Price)
    ensures FillQueue(q, at, o.(price := price), vol) == FillQueue(q, at, o, vol)
    decreases |q|
  {
    if q != [] && q[0].account != o.account && Min(vol, q[0].volume) != vol {
      QueueIgnoresPrice(q[1..], at, o, vol - Min(vol, q[0].volume), price);
    }
  }

  lemma {:induction false} SweepIgnoresPrice(side: Side, levels: seq<Level>, o: OrderInsertion, vol: Volume,
                                             price: Price)
    requires o.orderType.Market?
    ensures Sweep(side, levels, o.(price := price), vol) == Sweep(side, levels, o, vol)
    decreases |levels|
  {
    if levels != [] {
      var best := Best(side, levels);
      QueueIgnoresPrice(best.orders, best.price, o, vol, price);
      var f := FillQueue(best.orders, best.price, o, vol);
      if !f.selfTrade && f.left != 0 {
        SweepIgnoresPrice(side, Worse(side, levels), o, f.left, price);
      }
    }
  }

  /** Changing only the price of a market order changes nothing: neither result nor trades nor book. */
  lemma MarketIgnoresPrice(book: Book, o: OrderInsertion, price: Price)
    requires SortedSide(book.bids) && SortedSide(book.asks) && o.orderType.Market?
    ensures Insert(book, o.(price := price)) == Insert(book, o)
  {
    hide Sweep, RestEntry;
    var o' := o.(price := price);
    var side := o.side.Opposite();
    var levels := book.Side(side);
    SweepIgnoresPrice(side, levels, o, o.volume, price);
    MarketChecksAlike(book, o, price);
    if EnoughVolume(levels, o) && !Sweep(side, levels, o, o.volume).selfTrade {
      CheckedOrderNeverRests(levels, o);
    }
    hide EnoughVolume;
  }

  lemma MarketChecksAlike(book: Book, o: OrderInsertion, price: Price)
    requires SortedSide(book.bids) && SortedSide(book.asks) && o.orderType.Market?
    ensures var levels := book.Side(o.side.Opposite());
            EnoughVolume(levels, o.(price := price)) <==> EnoughVolume(levels, o)
  {
    hide Sweep, EnoughVolume;
    MarketRefusedIff(book, o);
    MarketRefusedIff(book, o.(price := price));
  }

  // ---- the order of offers ----

  /** Bids are offered highest price first, asks lowest price first, and older orders first at the same price. */
  lemma OffersByPriceAndTime(side: Side, levels: seq<Level>, bound: nat, i: nat, j: nat)
    requires SideOk(levels, bound) && i < j < |Offers(side, levels)|
    ensures var a, b := Offers(side, levels)[i], Offers(side, levels)[j];
            match side
            case Bid => a.price > b.price || (a.price == b.price && a.entry.id < b.entry.id)
            case Ask => a.price < b.price || (a.price == b.price && a.entry.id < b.entry.id)
  {
    hide Offers;
    OffersInPriorityOrder(side, levels, bound);
    assert Precedes(side, Offers(side, levels)[i], Offers(side, levels)[j]);
  }
}
