/**
 The reference for matching: a greedy fill over the flat list of resting offers in
 price-time priority. The level-by-level sweep is shown to compute exactly this, and
 the properties of matching are proved about the flat list.
 */
module Matching {
  import opened Types
  import opened Seqs
  import opened BookSpec

  /** A resting order together with its price. */
  datatype Offer = Offer(price: Price, entry: Entry)

  function Tag(price: Price, q: seq<Entry>): (r: seq<Offer>)
    ensures |r| == |q|
    ensures forall i :: 0 <= i < |q| ==> r[i] == Offer(price, q[i])
  {
    seq(|q|, i requires 0 <= i < |q| => Offer(price, q[i]))
  }

  lemma TagAppend(price: Price, q: seq<Entry>, e: Entry)
    ensures Tag(price, q + [e]) == Tag(price, q) + [Offer(price, e)]
  {}

  lemma TagRemove(price: Price, q: seq<Entry>, n: nat)
    requires n < |q|
    ensures Tag(price, RemoveAt(q, n)) == RemoveAt(Tag(price, q), n)
  {}

  /** All offers of a side: best price first, first come first within a price. */
  function Offers(side: Side, levels: seq<Level>): seq<Offer> {
    if levels == [] then []
    else Tag(Best(side, levels).price, Best(side, levels).orders) + Offers(side, Worse(side, levels))
  }

  lemma {:induction false} OffersJoin(side: Side, better: seq<Level>, worse: seq<Level>)
    ensures Offers(side, Join(side, better, worse)) == Offers(side, better) + Offers(side, worse)
    decreases |better|
  {
    var all := Join(side, better, worse);
    if better == [] {
      assert all == worse;
    } else {
      var b := Best(side, better);
      var rest := Worse(side, better);
      assert Best(side, all) == b;
      assert Worse(side, all) == Join(side, rest, worse);
      OffersJoin(side, rest, worse);
      calc {
        Offers(side, all);
        Tag(b.price, b.orders) + Offers(side, Join(side, rest, worse));
        Tag(b.price, b.orders) + (Offers(side, rest) + Offers(side, worse));
        (Tag(b.price, b.orders) + Offers(side, rest)) + Offers(side, worse);
        Offers(side, better) + Offers(side, worse);
      }
    }
  }

  /** The levels of a side that come before (better) and after (worse) position `i`. */
  function BetterThan(side: Side, levels: seq<Level>, i: nat): seq<Level>
    requires i < |levels|
  {
    if side.Ask? then levels[..i] else levels[i + 1..]
  }

  function WorseThan(side: Side, levels: seq<Level>, i: nat): seq<Level>
    requires i < |levels|
  {
    if side.Ask? then levels[i + 1..] else levels[..i]
  }

  lemma {:induction false} OffersSplit(side: Side, levels: seq<Level>, i: nat)
    requires i < |levels|
    ensures Offers(side, levels)
         == Offers(side, BetterThan(side, levels, i)) + Tag(levels[i].price, levels[i].orders)
            + Offers(side, WorseThan(side, levels, i))
  {
    var better, worse := BetterThan(side, levels, i), WorseThan(side, levels, i);
    var tail := PutBest(side, levels[i], worse);
    assert levels == Join(side, better, tail);
    OffersJoin(side, better, tail);
    var a, b, c := Offers(side, better), Tag(levels[i].price, levels[i].orders), Offers(side, worse);
    assert Offers(side, tail) == b + c;
    assert a + (b + c) == a + b + c;
  }

  // ---- the greedy fill ----

  datatype GreedyFill = GreedyFill(rest: seq<Offer>, trades: seq<ObTransaction>, left: Volume, selfTrade: bool)

  function TradeWith(o: OrderInsertion, offer: Offer, vol: Volume): ObTransaction {
    ObTransaction(offer.price, Min(vol, offer.entry.volume), o.side, offer.entry.id, o.id)
  }

  function Reduced(offer: Offer, amount: Volume): Offer
    requires amount <= offer.entry.volume
  {
    offer.(entry := offer.entry.(volume := offer.entry.volume - amount))
  }

  function Greedy(offers: seq<Offer>, o: OrderInsertion, vol: Volume): GreedyFill
    decreases |offers|
  {
    if offers == [] || !Crosses(o, offers[0].price) then GreedyFill(offers, [], vol, false)
    else
      var trade := TradeWith(o, offers[0], vol);
      var after := Reduced(offers[0], trade.volume);
      var kept := if after.entry.volume == 0 then offers[1..] else [after] + offers[1..];
      if offers[0].entry.account == o.account then GreedyFill([after] + offers[1..], [], vol - trade.volume, true)
      else if vol == trade.volume then GreedyFill(kept, [trade], 0, false)
      else
        var r := Greedy(offers[1..], o, vol - trade.volume);
        r.(trades := [trade] + r.trades)
  }

  /** The fill of an eligible first offer, and of the rest. */
  lemma GreedyStep(head: Offer, tail: seq<Offer>, o: OrderInsertion, vol: Volume)
    requires Crosses(o, head.price)
    ensures var trade := TradeWith(o, head, vol); var after := Reduced(head, trade.volume);
            Greedy([head] + tail, o, vol)
            == if head.entry.account == o.account then GreedyFill([after] + tail, [], vol - trade.volume, true)
               else if vol == trade.volume then
                 GreedyFill(if after.entry.volume == 0 then tail else [after] + tail, [trade], 0, false)
               else
                 var r := Greedy(tail, o, vol - trade.volume);
                 r.(trades := [trade] + r.trades)
  {
    assert ([head] + tail)[1..] == tail;
  }

  lemma FillQueueStep(head: Entry, tail: seq<Entry>, price: Price, o: OrderInsertion, vol: Volume)
    ensures var t := Min(vol, head.volume); var front := head.(volume := head.volume - t);
            var trade := ObTransaction(price, t, o.side, head.id, o.id);
            FillQueue([head] + tail, price, o, vol)
            == if head.account == o.account then QueueFill([front] + tail, [], vol - t, true)
               else if vol == t then QueueFill(if front.volume == 0 then tail else [front] + tail, [trade], 0, false)
               else
                 var r := FillQueue(tail, price, o, vol - t);
                 r.(trades := [trade] + r.trades)
  {
    assert ([head] + tail)[1..] == tail;
  }

  lemma TagHead(price: Price, head: Entry, tail: seq<Entry>, more: seq<Offer>)
    ensures Tag(price, [head] + tail) + more == [Offer(price, head)] + (Tag(price, tail) + more)
  {}

  /** The fill stops in the queue: the greedy fill stops there too. */
  predicate StopsInQueue(g: GreedyFill, f: QueueFill, price: Price, more: seq<Offer>) {
    g == GreedyFill(Tag(price, f.queue) + more, f.trades, f.left, f.selfTrade)
  }

  /** The fill exhausts the queue: the greedy fill goes on behind it. */
  predicate PassesQueue(g: GreedyFill, f: QueueFill, r: GreedyFill) {
    f.queue == [] && g == r.(trades := f.trades + r.trades)
  }

  lemma StopsWithOneMore(g: GreedyFill, f: QueueFill, price: Price, more: seq<Offer>, trade: ObTransaction)
    requires StopsInQueue(g, f, price, more)
    ensures StopsInQueue(g.(trades := [trade] + g.trades), f.(trades := [trade] + f.trades), price, more)
  {}

  lemma PassesWithOneMore(g: GreedyFill, f: QueueFill, r: GreedyFill, trade: ObTransaction)
    requires PassesQueue(g, f, r)
    ensures PassesQueue(g.(trades := [trade] + g.trades), f.(trades := [trade] + f.trades), r)
  {
    ConcatAssociative([trade], f.trades, r.trades);
  }

  /** The first entry is the taker's own, or satisfies the order. */
  lemma StopsAtHead(head: Entry, tail: seq<Entry>, price: Price, o: OrderInsertion, vol: Volume, more: seq<Offer>)
    requires Crosses(o, price) && (head.account == o.account || vol == Min(vol, head.volume))
    ensures var f := FillQueue([head] + tail, price, o, vol);
            && (f.selfTrade || f.left == 0)
            && StopsInQueue(Greedy(Tag(price, [head] + tail) + more, o, vol), f, price, more)
  {
    hide Greedy, FillQueue, Crosses, Tag;
    TagHead(price, head, tail, more);
    GreedyStep(Offer(price, head), Tag(price, tail) + more, o, vol);
    FillQueueStep(head, tail, price, o, vol);
    TagHead(price, head.(volume := head.volume - Min(vol, head.volume)), tail, more);
  }

  /** Filling one queue is the start of the greedy fill over that queue and whatever follows. */
  lemma {:induction false} FillQueueIsGreedy(q: seq<Entry>, price: Price, o: OrderInsertion, vol: Volume,
                                             more: seq<Offer>)
    requires Crosses(o, price)
    requires vol > 0 || q != []
    ensures var f := FillQueue(q, price, o, vol);
            var g := Greedy(Tag(price, q) + more, o, vol);
            if f.selfTrade || f.left == 0 then StopsInQueue(g, f, price, more)
            else PassesQueue(g, f, Greedy(more, o, f.left))
    decreases |q|
  {
    if q == [] {
      assert Tag(price, q) + more == more;
      var r := Greedy(more, o, vol);
      assert [] + r.trades == r.trades;
    } else {
      hide Greedy, FillQueue, Crosses, Min, Tag, StopsInQueue, PassesQueue;
      var head, tail := q[0], q[1..];
      assert q == [head] + tail;
      if head.account == o.account || vol == Min(vol, head.volume) {
        StopsAtHead(head, tail, price, o, vol, more);
      } else {
        var trade := TradeWith(o, Offer(price, head), vol);
        TagHead(price, head, tail, more);
        GreedyStep(Offer(price, head), Tag(price, tail) + more, o, vol);
        FillQueueStep(head, tail, price, o, vol);
        FillQueueIsGreedy(tail, price, o, vol - trade.volume, more);
        var f := FillQueue(tail, price, o, vol - trade.volume);
        var g := Greedy(Tag(price, tail) + more, o, vol - trade.volume);
        if f.selfTrade || f.left == 0 {
          StopsWithOneMore(g, f, price, more, trade);
        } else {
          PassesWithOneMore(g, f, Greedy(more, o, f.left), trade);
        }
      }
    }
  }

  predicate SortedSide(levels: seq<Level>) {
    forall i, j :: 0 <= i < j < |levels| ==> levels[i].price < levels[j].price
  }

  /** Every offer stems from a level. */
  lemma {:induction false} OfferLevel(side: Side, levels: seq<Level>, k: nat) returns (i: nat, j: nat)
    requires k < |Offers(side, levels)|
    ensures i < |levels| && j < |levels[i].orders|
    ensures Offers(side, levels)[k] == Offer(levels[i].price, levels[i].orders[j])
    decreases |levels|
  {
    var best, rest := Best(side, levels), Worse(side, levels);
    if k < |best.orders| {
      i, j := BestIndex(side, |levels|), k;
    } else {
      i, j := OfferLevel(side, rest, k - |best.orders|);
      i := if side.Ask? then i + 1 else i;
    }
  }

  /** When the order cannot trade at the best price, it can trade with no offer. */
  lemma {:induction false} NoneCross(side: Side, levels: seq<Level>, o: OrderInsertion)
    requires SortedSide(levels) && side == o.side.Opposite()
    requires levels != [] && !Crosses(o, Best(side, levels).price)
    ensures forall i :: 0 <= i < |levels| ==> !Crosses(o, levels[i].price)
    ensures forall k :: 0 <= k < |Offers(side, levels)| ==> !Crosses(o, Offers(side, levels)[k].price)
  {
    forall k | 0 <= k < |Offers(side, levels)|
      ensures !Crosses(o, Offers(side, levels)[k].price)
    {
      var i, j := OfferLevel(side, levels, k);
    }
  }

  /** Sweeping levels in place is the greedy fill of the flattened side. Only an order
      of volume zero could tell an empty best level (left by a self-trade) from no level. */
  lemma {:induction false} SweepIsGreedy(side: Side, levels: seq<Level>, o: OrderInsertion, vol: Volume)
    requires SortedSide(levels) && side == o.side.Opposite()
    requires vol > 0 || (levels != [] ==> Best(side, levels).orders != [])
    ensures var s := Sweep(side, levels, o, vol);
            Greedy(Offers(side, levels), o, vol)
            == GreedyFill(Offers(side, s.levels), s.trades, s.left, s.selfTrade)
    decreases |levels|
  {
    if levels != [] {
      var best, rest := Best(side, levels), Worse(side, levels);
      var s := Sweep(side, levels, o, vol);
      if !Crosses(o, best.price) {
        NoneCross(side, levels, o);
      } else {
        FillQueueIsGreedy(best.orders, best.price, o, vol, Offers(side, rest));
        var f := FillQueue(best.orders, best.price, o, vol);
        if f.selfTrade || f.left == 0 {
          if f.queue != [] {
            assert Offers(side, PutBest(side, Level(best.price, f.queue), rest))
                == Tag(best.price, f.queue) + Offers(side, rest);
          } else {
            assert Tag(best.price, f.queue) + Offers(side, rest) == Offers(side, rest);
          }
        } else {
          SweepIsGreedy(side, rest, o, f.left);
          var r := Sweep(side, rest, o, f.left);
          assert Tag(best.price, []) + Offers(side, r.levels) == Offers(side, r.levels);
        }
      }
    }
  }

  /** An order of volume zero whose best opposite level is empty, as a self-trade may leave it. */
  predicate StopsAtEmptyLevel(side: Side, levels: seq<Level>, vol: Volume) {
    vol == 0 && levels != [] && Best(side, levels).orders == []
  }

  /** The fill of any sorted side, self-traded ones included. */
  function FillOf(side: Side, levels: seq<Level>, o: OrderInsertion, vol: Volume): GreedyFill {
    var offers := Offers(side, levels);
    if StopsAtEmptyLevel(side, levels, vol) then GreedyFill(offers, [], 0, false) else Greedy(offers, o, vol)
  }

  lemma SweepIsFill(side: Side, levels: seq<Level>, o: OrderInsertion, vol: Volume)
    requires SortedSide(levels) && side == o.side.Opposite()
    ensures var s := Sweep(side, levels, o, vol);
            FillOf(side, levels, o, vol) == GreedyFill(Offers(side, s.levels), s.trades, s.left, s.selfTrade)
  {
    if !StopsAtEmptyLevel(side, levels, vol) {
      SweepIsGreedy(side, levels, o, vol);
    }
  }

  /** The sweep is the greedy fill of the flattened side, except for an order of volume zero that
      stops at an empty best level (left by a self-trade) although an offer behind it is eligible. */
  lemma SweepIsGreedyIff(side: Side, levels: seq<Level>, o: OrderInsertion, vol: Volume)
    requires SortedSide(levels) && side == o.side.Opposite()
    ensures var s := Sweep(side, levels, o, vol); var offers := Offers(side, levels);
            Greedy(offers, o, vol) == GreedyFill(Offers(side, s.levels), s.trades, s.left, s.selfTrade)
            <==> !StopsAtEmptyLevel(side, levels, vol) || offers == [] || !Crosses(o, offers[0].price)
  {
    if !StopsAtEmptyLevel(side, levels, vol) {
      SweepIsGreedy(side, levels, o, vol);
    } else if !Crosses(o, Best(side, levels).price) {
      NoneCross(side, levels, o);
    }
  }
}
