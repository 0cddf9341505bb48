/** The lines of the aggregate views in terms of levels, prices and resting orders. */
module ViewLines {
  import opened Types
  import opened Sums
  import opened BookSpec
  import opened Matching
  import opened MatchingFacts
  import opened BookFacts
  import opened SweepFacts
  import opened Views

  function RestingAt(price: Price): Offer -> int {
    (offer: Offer) => if offer.price == price then offer.entry.volume else 0
  }

  /** The volume of all resting orders of a side at a price. */
  function VolumeResting(side: Side, levels: seq<Level>, price: Price): int {
    SumBy(Offers(side, levels), RestingAt(price))
  }

  lemma {:induction false} TagResting(at: Price, q: seq<Entry>, price: Price)
    ensures SumBy(Tag(at, q), RestingAt(price)) == if at == price then QueueVolume(q) else 0
  {
    if q != [] {
      var n := |q| - 1;
      TagResting(at, q[..n], price);
      assert Tag(at, q) == Tag(at, q[..n]) + [Offer(at, q[n])];
      SumByAppend(Tag(at, q[..n]), Offer(at, q[n]), RestingAt(price));
    }
  }

  lemma {:induction false} RestingIsVolumeAt(side: Side, levels: seq<Level>, price: Price)
    ensures VolumeResting(side, levels, price) == VolumeAt(levels, price)
  {
    if levels == [] {
      NoOffers(side, RestingAt(price));
    } else {
      var n := |levels| - 1;
      RestingIsVolumeAt(side, levels[..n], price);
      OffersFold(side, levels, RestingAt(price));
      TagResting(levels[n].price, levels[n].orders, price);
    }
  }

  /** The line says the price of level `i` and the volume of all orders that rest at it. */
  lemma LineOfLevel(side: Side, levels: seq<Level>, i: nat)
    requires SortedSide(levels) && i < |levels|
    ensures VolumeResting(side, levels, levels[i].price) == QueueVolume(levels[i].orders)
  {
    RestingIsVolumeAt(side, levels, levels[i].price);
    VolumeOfLevel(levels, i);
  }

  predicate HasLine(d: seq<Aggregate>, price: Price, volume: int) {
    exists i :: 0 <= i < |d| && d[i].price == price && d[i].volume == volume
  }

  predicate HasPrice(levels: seq<Level>, price: Price) {
    exists i :: 0 <= i < |levels| && levels[i].price == price
  }

  predicate IsOffered(side: Side, levels: seq<Level>, price: Price) {
    exists k :: 0 <= k < |Offers(side, levels)| && Offers(side, levels)[k].price == price
  }

  /** A side of L2 has a line for exactly the prices at which the book has a level, saying the volume of all orders
      resting at that price; on a tidy side those are the prices at which an order rests. Lowest prices come first. */
  lemma L2Lines(book: Book, side: Side, price: Price, volume: int)
    requires SortedSide(book.Side(side))
    ensures var d := if side.Bid? then L2Of(book).bids else L2Of(book).asks; var levels := book.Side(side);
            && |d| == |levels|
            && (HasLine(d, price, volume) <==> HasPrice(levels, price) && volume == VolumeResting(side, levels, price))
            && (TidySide(levels) ==>
                  (HasPrice(levels, price) <==> IsOffered(side, levels, price)))
            && forall i, j :: 0 <= i < j < |d| ==> d[i].price < d[j].price
  {
    hide Offers, VolumeResting;
    var levels := book.Side(side);
    var d := if side.Bid? then L2Of(book).bids else L2Of(book).asks;
    forall i | 0 <= i < |levels|
      ensures d[i].price == levels[i].price && d[i].volume == VolumeResting(side, levels, levels[i].price)
    {
      LineOfLevel(side, levels, i);
    }
    PricesOffered(side, levels, price);
  }

  lemma PricesOffered(side: Side, levels: seq<Level>, price: Price)
    ensures TidySide(levels) && HasPrice(levels, price) ==> IsOffered(side, levels, price)
    ensures IsOffered(side, levels, price) ==> HasPrice(levels, price)
  {
    hide Offers;
    if TidySide(levels) && HasPrice(levels, price) {
      var i :| 0 <= i < |levels| && levels[i].price == price;
      var k := LevelOffer(side, levels, i);
    }
    if k: nat :| k < |Offers(side, levels)| && Offers(side, levels)[k].price == price {
      var i, j := OfferLevel(side, levels, k);
    }
  }

  /** The line of L1 says the highest price of the bids and the lowest of the asks, with the volume of all orders
      resting there, and is missing exactly when the side has no level; on a tidy side it is the first offer's price. */
  predicate SaysBest(side: Side, levels: seq<Level>, line: Option<Aggregate>) {
    match line
    case None => levels == []
    case Some(a) =>
      && HasPrice(levels, a.price)
      && (forall i :: 0 <= i < |levels| ==>
            if side.Bid? then levels[i].price <= a.price else a.price <= levels[i].price)
      && a.volume == VolumeResting(side, levels, a.price)
      && (TidySide(levels) ==> Offers(side, levels) != [] && a.price == Offers(side, levels)[0].price)
  }

  lemma L1Lines(book: Book)
    requires SortedSide(book.bids) && SortedSide(book.asks)
    ensures SaysBest(Bid, book.bids, L1Of(book).bestBid) && SaysBest(Ask, book.asks, L1Of(book).bestAsk)
  {
    BestSaid(Bid, book.bids);
    BestSaid(Ask, book.asks);
  }

  lemma BestSaid(side: Side, levels: seq<Level>)
    requires SortedSide(levels)
    ensures SaysBest(side, levels, Top(side, levels))
  {
    hide VolumeResting;
    if levels != [] {
      var i := BestIndex(side, |levels|);
      LineOfLevel(side, levels, i);
      assert levels[i] == Best(side, levels);
      if TidySide(levels) {
        assert TidyQueue(levels[i].orders);
        FirstOfferOf(side, levels);
      }
    }
  }

  lemma FirstOfferOf(side: Side, levels: seq<Level>)
    requires levels != [] && Best(side, levels).orders != []
    ensures Offers(side, levels) != [] && Offers(side, levels)[0].price == Best(side, levels).price
  {}
}
