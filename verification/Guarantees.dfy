/**
 What single insertions, cancellations and modifications of a book promise: which orders
 are refused, which never rest, and what happens to the volume resting in the book.
 */
module Guarantees {
  import opened Types
  import opened Sums
  import opened BookSpec
  import opened Matching
  import opened MatchingFacts
  import opened BookFacts

  // ---- self-trades ----

  /** An order is refused as a self-trade exactly when its volume check passes, one of the account's
      own offers is eligible and the volume ahead of it does not satisfy the order; only an order of
      volume zero that stops at an empty level is not. */
  lemma InsertSelfTradeIff(book: Book, o: OrderInsertion)
    requires SortedSide(book.bids) && SortedSide(book.asks)
    ensures var side := o.side.Opposite(); var levels := book.Side(side);
            Insert(book, o).result == Err(SelfTrade)
            <==> && (o.orderType.Limit? || EnoughVolume(levels, o))
                 && Blocked(Offers(side, levels), o, o.volume) && !StopsAtEmptyLevel(side, levels, o.volume)
  {
    hide Offers, Greedy, Sweep, EnoughVolume, Blocked, RestEntry, StopsAtEmptyLevel;
    var side := o.side.Opposite();
    SweepIsFill(side, book.Side(side), o, o.volume);
    SelfTradeIff(Offers(side, book.Side(side)), o, o.volume);
  }

  /** An order is accepted exactly when its volume check passes and it is no such self-trade. */
  lemma AcceptedIff(book: Book, o: OrderInsertion)
    requires SortedSide(book.bids) && SortedSide(book.asks)
    ensures var side := o.side.Opposite(); var levels := book.Side(side);
            Insert(book, o).result.Ok?
            <==> && (o.orderType.Limit? || EnoughVolume(levels, o))
                 && (Blocked(Offers(side, levels), o, o.volume) ==> StopsAtEmptyLevel(side, levels, o.volume))
  {
    hide Offers, Sweep, EnoughVolume, Blocked, RestEntry, StopsAtEmptyLevel;
    InsertSelfTradeIff(book, o);
  }

  // ---- orders that never rest ----

  /** An accepted market or fill-or-kill order is filled at once; its own side of the book is untouched. */
  lemma CheckedOrdersFillAtOnce(book: Book, o: OrderInsertion)
    requires SortedSide(book.bids) && SortedSide(book.asks)
    requires !o.orderType.Limit? && Insert(book, o).result.Ok?
    ensures Insert(book, o).result.value.0 == Status.Filled
    ensures Insert(book, o).book.Side(o.side) == book.Side(o.side)
  {
    hide Sweep, EnoughVolume, RestEntry;
    CheckedOrderNeverRests(book.Side(o.side.Opposite()), o);
  }

  // ---- resting volume ----

  /** Trades take from the offers exactly what they trade. */
  lemma {:induction false} GreedyConserves(offers: seq<Offer>, o: OrderInsertion, vol: Volume)
    requires !Greedy(offers, o, vol).selfTrade
    ensures var g := Greedy(offers, o, vol);
            SumBy(offers, OpenVolume()) == SumBy(g.rest, OpenVolume()) + SumBy(g.trades, VolumeOf())
    decreases |offers|
  {
    if offers != [] && Crosses(o, offers[0].price) {
      var trade := TradeWith(o, offers[0], vol);
      var after := Reduced(offers[0], trade.volume);
      SumByHead(offers, OpenVolume());
      assert [] + [trade] == [trade];
      SumByAppend([], trade, VolumeOf());
      if vol == trade.volume {
        SumByConcat([after], offers[1..], OpenVolume());
        assert [] + [after] == [after];
        SumByAppend([], after, OpenVolume());
      } else {
        var r := Greedy(offers[1..], o, vol - trade.volume);
        GreedyConserves(offers[1..], o, vol - trade.volume);
        SumByConcat([trade], r.trades, VolumeOf());
      }
    }
  }

  lemma PlaceVolume(side: Side, offers: seq<Offer>, mine: Offer)
    ensures SumBy(Place(side, offers, mine), OpenVolume()) == SumBy(offers, OpenVolume()) + mine.entry.volume
  {
    var k := PlaceAt(side, offers, mine);
    SumByConcat(offers[..k] + [mine], offers[k..], OpenVolume());
    SumByAppend(offers[..k], mine, OpenVolume());
    SumByConcat(offers[..k], offers[k..], OpenVolume());
    assert offers[..k] + offers[k..] == offers;
  }

  lemma BookVolumes(book: Book, side: Side)
    ensures RestingVolume(book)
         == SumBy(Offers(side, book.Side(side)), OpenVolume())
            + SumBy(Offers(side.Opposite(), book.Side(side.Opposite())), OpenVolume())
  {
    OffersVolume(side, book.Side(side));
    OffersVolume(side.Opposite(), book.Side(side.Opposite()));
  }

  /** The same for the fill of any side, and the volumes of the trades. */
  lemma FillConserves(side: Side, levels: seq<Level>, o: OrderInsertion, vol: Volume)
    requires !FillOf(side, levels, o, vol).selfTrade
    ensures var g := FillOf(side, levels, o, vol);
            && SumBy(Offers(side, levels), OpenVolume()) == SumBy(g.rest, OpenVolume()) + SumBy(g.trades, VolumeOf())
            && SumBy(g.trades, VolumeOf()) == vol - g.left
  {
    hide Offers, Greedy;
    if !StopsAtEmptyLevel(side, levels, vol) {
      GreedyConserves(Offers(side, levels), o, vol);
      GreedyRest(Offers(side, levels), o, vol);
    }
  }

  /** An accepted order adds to the resting volume what it does not trade, and its trades take away what they trade. */
  lemma InsertVolume(book: Book, o: OrderInsertion)
    requires SortedSide(book.bids) && SortedSide(book.asks) && Insert(book, o).result.Ok?
    ensures var r := Insert(book, o); var traded := SumBy(r.trades, VolumeOf());
            && 0 <= traded <= o.volume
            && RestingVolume(r.book) == RestingVolume(book) - traded + (o.volume - traded)
  {
    hide Offers, FillOf, Insert, RestingVolume;
    var r := Insert(book, o);
    var resting := o.side.Opposite();
    InsertIsFill(book, o);
    FillConserves(resting, book.Side(resting), o, o.volume);
    var g := FillOf(resting, book.Side(resting), o, o.volume);
    BookVolumes(book, o.side);
    BookVolumes(r.book, o.side);
    SumByNonNegative(g.trades, VolumeOf());
    if g.left > 0 {
      PlaceVolume(o.side, Offers(o.side, book.Side(o.side)), Offer(o.price, EntryOf(o, g.left)));
    }
  }

  /** A cancellation takes away the open volume of one order with the given id and price. */
  lemma CancelVolume(book: Book, c: OrderCancellation) returns (k: nat)
    requires SortedSide(book.bids) && SortedSide(book.asks) && Cancel(book, c).Ok?
    ensures var offers := Offers(c.side, book.Side(c.side));
            && k < |offers| && offers[k].price == c.price && offers[k].entry.id == c.orderId
            && RestingVolume(Cancel(book, c).value) == RestingVolume(book) - offers[k].entry.volume
  {
    hide Offers, CancelIn, RestingVolume;
    var offers := Offers(c.side, book.Side(c.side));
    k := CancelOffers(c.side, book.Side(c.side), c.price, c.orderId);
    SumByWithout(offers, k, OpenVolume());
    BookVolumes(book, c.side);
    BookVolumes(Cancel(book, c).value, c.side);
  }

  /** A modification takes away the reduction, or all open volume when that is less. */
  lemma ModifyVolume(book: Book, c: OrderModification) returns (k: nat)
    requires SortedSide(book.bids) && SortedSide(book.asks) && Modify(book, c).Ok?
    ensures var offers := Offers(c.side, book.Side(c.side));
            && k < |offers| && offers[k].price == c.price && offers[k].entry.id == c.orderId
            && RestingVolume(Modify(book, c).value) == RestingVolume(book) - Min(c.reduction, offers[k].entry.volume)
  {
    hide Offers, ModifyIn, RestingVolume;
    var offers := Offers(c.side, book.Side(c.side));
    k := ModifyOffers(c.side, book.Side(c.side), c.price, c.orderId, c.reduction);
    ShrinkVolume(offers, k, c.reduction);
    BookVolumes(book, c.side);
    BookVolumes(Modify(book, c).value, c.side);
  }

  lemma ShrinkVolume(offers: seq<Offer>, k: nat, reduction: Volume)
    requires k < |offers|
    ensures SumBy(ShrinkOffer(offers, k, reduction), OpenVolume())
         == SumBy(offers, OpenVolume()) - Min(reduction, offers[k].entry.volume)
  {
    SumByWithout(offers, k, OpenVolume());
    if reduction < offers[k].entry.volume {
      var after := offers[k := Reduced(offers[k], reduction)];
      SumByWithout(after, k, OpenVolume());
      assert after[..k] + after[k + 1..] == offers[..k] + offers[k + 1..];
    }
  }
}
