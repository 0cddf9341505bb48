/** The aggregate views of a book: L2 lists every price with its volume, L1 the best of each side. */
module Views {
  import opened Types
  import opened Sums
  import opened BookSpec
  import opened BookFacts

  datatype Aggregate = Aggregate(price: Price, volume: nat)

  datatype L1 = L1(bestBid: Option<Aggregate>, bestAsk: Option<Aggregate>)

  datatype L2 = L2(asks: seq<Aggregate>, bids: seq<Aggregate>)

  function AggregateOf(level: Level): Aggregate {
    Aggregate(level.price, QueueVolume(level.orders))
  }

  /** One line per level, lowest price first. */
  function Depth(levels: seq<Level>): (d: seq<Aggregate>)
    ensures |d| == |levels| && forall i :: 0 <= i < |levels| ==> d[i] == AggregateOf(levels[i])
  {
    seq(|levels|, i requires 0 <= i < |levels| => AggregateOf(levels[i]))
  }

  /** The line of the best level. */
  function Top(side: Side, levels: seq<Level>): Option<Aggregate> {
    if levels == [] then None else Some(AggregateOf(Best(side, levels)))
  }

  function L1Of(book: Book): L1 {
    L1(Top(Bid, book.bids), Top(Ask, book.asks))
  }

  function L2Of(book: Book): L2 {
    L2(Depth(book.asks), Depth(book.bids))
  }

  function VolumeOfAggregate(): Aggregate -> int {
    (a: Aggregate) => a.volume
  }

  lemma {:induction false} DepthVolume(levels: seq<Level>)
    ensures SumBy(Depth(levels), VolumeOfAggregate()) == TotalVolume(levels)
  {
    if levels != [] {
      var n := |levels| - 1;
      DepthVolume(levels[..n]);
      assert Depth(levels)[..n] == Depth(levels[..n]);
    }
  }

  predicate RisingPrices(d: seq<Aggregate>) {
    forall i, j :: 0 <= i < j < |d| ==> d[i].price < d[j].price
  }

  predicate PositiveVolumes(d: seq<Aggregate>) {
    forall i :: 0 <= i < |d| ==> d[i].volume > 0
  }

  /** `a` is a line of `d`, and no other line has a price as good. */
  predicate BestLine(side: Side, d: seq<Aggregate>, a: Aggregate) {
    a in d && forall i :: 0 <= i < |d| ==> d[i] == a || BetterPrice(side, a.price, d[i].price)
  }

  lemma SideViews(side: Side, levels: seq<Level>, bound: nat)
    requires SideOk(levels, bound) && TidySide(levels)
    ensures RisingPrices(Depth(levels)) && PositiveVolumes(Depth(levels))
    ensures levels == [] <==> Top(side, levels).None?
    ensures levels != [] ==> BestLine(side, Depth(levels), Top(side, levels).value)
  {
    forall i | 0 <= i < |levels| ensures Depth(levels)[i].volume > 0 {
      QueueVolumePositive(levels[i].orders);
    }
    if levels != [] {
      assert Depth(levels)[BestIndex(side, |levels|)] == Top(side, levels).value;
    }
  }

  /** In a book without leftovers of a self-trade, L2 lists rising prices with positive volumes
      that add up to all resting volume; L1 shows the best line of each side of L2, and the
      best bid is below the best ask. */
  lemma ViewsAgree(book: Book, bound: nat)
    requires BookOk(book, bound) && TidyBook(book)
    ensures var l1, l2 := L1Of(book), L2Of(book);
            && RisingPrices(l2.bids) && RisingPrices(l2.asks) && PositiveVolumes(l2.bids) && PositiveVolumes(l2.asks)
            && SumBy(l2.bids, VolumeOfAggregate()) + SumBy(l2.asks, VolumeOfAggregate()) == RestingVolume(book)
            && (if l2.bids == [] then l1.bestBid.None?
                else l1.bestBid.Some? && BestLine(Bid, l2.bids, l1.bestBid.value))
            && (if l2.asks == [] then l1.bestAsk.None?
                else l1.bestAsk.Some? && BestLine(Ask, l2.asks, l1.bestAsk.value))
            && (l1.bestBid.Some? && l1.bestAsk.Some? ==> l1.bestBid.value.price < l1.bestAsk.value.price)
  {
    hide BestLine, RisingPrices, PositiveVolumes;
    DepthVolume(book.bids);
    DepthVolume(book.asks);
    SideViews(Bid, book.bids, bound);
    SideViews(Ask, book.asks, bound);
    if book.bids != [] && book.asks != [] {
      assert Best(Bid, book.bids).price in Prices(book.bids) && Best(Ask, book.asks).price in Prices(book.asks);
    }
  }
}
