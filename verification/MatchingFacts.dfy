/**
 What the greedy fill does: which offers trade and by how much, when it meets the
 taker's own order, when it fills the order completely, and whether the volume
 checks made beforehand agree with it.
 */
module MatchingFacts {
  import opened Types
  import opened Sums
  import opened BookSpec
  import opened Matching

  function VolumeOf(): ObTransaction -> int {
    (tx: ObTransaction) => tx.volume
  }

  function OpenVolume(): Offer -> int {
    (offer: Offer) => offer.entry.volume
  }

  /** The volume the order may trade with: open volume at prices it crosses. */
  function EligibleVolume(o: OrderInsertion): Offer -> int {
    (offer: Offer) => if Crosses(o, offer.price) then offer.entry.volume else 0
  }

  /** Volume standing ahead of position `k` in the list of offers. */
  function Ahead(offers: seq<Offer>, k: nat): int
    requires k <= |offers|
  {
    SumBy(offers[..k], OpenVolume())
  }

  lemma {:induction false} AheadOfNext(offers: seq<Offer>, k: nat)
    requires k < |offers|
    ensures Ahead(offers, k + 1) == offers[0].entry.volume + Ahead(offers[1..], k)
  {
    SumByHead(offers[..k + 1], OpenVolume());
    assert offers[..k + 1][1..] == offers[1..][..k];
  }

  lemma {:induction false} AheadNonNegative(offers: seq<Offer>, k: nat)
    requires k <= |offers|
    ensures Ahead(offers, k) >= 0
  {
    SumByNonNegative(offers[..k], OpenVolume());
  }

  // ---- which offers trade ----

  /** Trade `i` is with offer `i`, at that offer's price, for no more than its volume. */
  predicate TradesWith(tx: ObTransaction, offer: Offer, o: OrderInsertion) {
    && Crosses(o, offer.price)
    && offer.entry.account != o.account
    && tx == ObTransaction(offer.price, tx.volume, o.side, offer.entry.id, o.id)
    && tx.volume <= offer.entry.volume
  }

  /** The first offers trade in order, all but the last of them completely; a
      self-trade stops the fill right behind completely filled offers. */
  lemma {:induction false} GreedyTrades(offers: seq<Offer>, o: OrderInsertion, vol: Volume)
    ensures var g := Greedy(offers, o, vol); var n := |g.trades|;
            && n <= |offers|
            && (forall i :: 0 <= i < n ==> TradesWith(g.trades[i], offers[i], o))
            && (forall i :: 0 <= i < n - 1 ==> g.trades[i].volume == offers[i].entry.volume)
            && (g.selfTrade ==> n < |offers| && offers[n].entry.account == o.account && Crosses(o, offers[n].price)
                                && (n > 0 ==> g.trades[n - 1].volume == offers[n - 1].entry.volume))
    decreases |offers|
  {
    var g := Greedy(offers, o, vol);
    if offers != [] && Crosses(o, offers[0].price) && offers[0].entry.account != o.account {
      var trade := TradeWith(o, offers[0], vol);
      if vol != trade.volume {
        var tail := offers[1..];
        GreedyTrades(tail, o, vol - trade.volume);
        var r := Greedy(tail, o, vol - trade.volume);
        assert forall i :: 0 < i < |g.trades| ==> g.trades[i] == r.trades[i - 1] && offers[i] == tail[i - 1];
      }
    }
  }

  /** What a fill leaves of the list when `n` offers traded, the last one with volume `last`. */
  predicate LeavesTail(rest: seq<Offer>, offers: seq<Offer>, n: nat, last: Volume)
    requires n <= |offers|
  {
    if n == 0 || last == offers[n - 1].entry.volume then rest == offers[n..]
    else last < offers[n - 1].entry.volume && rest == [Reduced(offers[n - 1], last)] + offers[n..]
  }

  function LastVolume(trades: seq<ObTransaction>): Volume {
    if trades == [] then 0 else trades[|trades| - 1].volume
  }

  /** The remaining offers are the tail of the list, led by the last traded offer if
      that was filled only in part; the traded volumes add up to what was filled. */
  lemma {:induction false} GreedyRest(offers: seq<Offer>, o: OrderInsertion, vol: Volume)
    requires !Greedy(offers, o, vol).selfTrade
    ensures var g := Greedy(offers, o, vol);
            && |g.trades| <= |offers|
            && LeavesTail(g.rest, offers, |g.trades|, LastVolume(g.trades))
            && SumBy(g.trades, VolumeOf()) == vol - g.left
            && (g.left > 0 ==> g.rest == offers[|g.trades|..] && (g.rest == [] || !Crosses(o, g.rest[0].price)))
    decreases |offers|
  {
    var g := Greedy(offers, o, vol);
    if offers != [] && Crosses(o, offers[0].price) {
      var trade := TradeWith(o, offers[0], vol);
      SumByAppend([], trade, VolumeOf());
      assert [] + [trade] == [trade];
      if vol != trade.volume {
        var tail := offers[1..];
        GreedyRest(tail, o, vol - trade.volume);
        var r := Greedy(tail, o, vol - trade.volume);
        SumByConcat([trade], r.trades, VolumeOf());
        assert tail[|r.trades|..] == offers[|g.trades|..];
        if r.trades != [] {
          assert tail[|r.trades| - 1] == offers[|g.trades| - 1];
        }
      }
    }
  }

  // ---- self-trades ----

  /** Offer `k` belongs to the taker, everything up to it is eligible, and the volume
      ahead of it does not satisfy the order. */
  predicate BlockedAt(offers: seq<Offer>, o: OrderInsertion, vol: Volume, k: nat) {
    && k < |offers|
    && offers[k].entry.account == o.account
    && (forall i :: 0 <= i <= k ==> Crosses(o, offers[i].price))
    && (k == 0 || Ahead(offers, k) < vol)
  }

  ghost predicate Blocked(offers: seq<Offer>, o: OrderInsertion, vol: Volume) {
    exists k: nat :: BlockedAt(offers, o, vol, k)
  }

  lemma {:induction false} BlockedShift(offers: seq<Offer>, o: OrderInsertion, vol: Volume, k: nat)
    requires offers != [] && Crosses(o, offers[0].price) && offers[0].entry.volume < vol
    requires k < |offers| - 1
    ensures BlockedAt(offers, o, vol, k + 1) <==> BlockedAt(offers[1..], o, vol - offers[0].entry.volume, k)
  {
    AheadOfNext(offers, k);
    var rest := offers[1..];
    assert k == 0 ==> Ahead(rest, k) == 0;
    if BlockedAt(rest, o, vol - offers[0].entry.volume, k) {
      forall i | 0 <= i <= k + 1 ensures Crosses(o, offers[i].price) {
        if i > 0 { assert offers[i] == rest[i - 1]; }
      }
    }
    if BlockedAt(offers, o, vol, k + 1) {
      forall i | 0 <= i <= k ensures Crosses(o, rest[i].price) {
        assert rest[i] == offers[i + 1];
      }
    }
  }

  /** A self-trade is decided by prefix sums over the list of offers. */
  lemma {:induction false} SelfTradeIff(offers: seq<Offer>, o: OrderInsertion, vol: Volume)
    ensures Greedy(offers, o, vol).selfTrade <==> Blocked(offers, o, vol)
    decreases |offers|
  {
    if offers != [] && Crosses(o, offers[0].price) {
      var v := offers[0].entry.volume;
      if offers[0].entry.account == o.account {
        assert BlockedAt(offers, o, vol, 0);
      } else if vol <= v {
        forall k: nat ensures !BlockedAt(offers, o, vol, k) {
          if 0 < k < |offers| {
            AheadOfNext(offers, k - 1);
            AheadNonNegative(offers[1..], k - 1);
          }
        }
      } else {
        var rest := offers[1..];
        SelfTradeIff(rest, o, vol - v);
        if Blocked(rest, o, vol - v) {
          var k: nat :| BlockedAt(rest, o, vol - v, k);
          BlockedShift(offers, o, vol, k);
        }
        if Blocked(offers, o, vol) {
          var k: nat :| BlockedAt(offers, o, vol, k);
          BlockedShift(offers, o, vol, k - 1);
        }
      }
    }
  }

  // ---- how much is filled ----

  /** Unless it runs into an own order, an order trades exactly when the first offer is eligible. */
  lemma FirstOfferTrades(side: Side, levels: seq<Level>, o: OrderInsertion, vol: Volume)
    requires !FillOf(side, levels, o, vol).selfTrade
    ensures var offers := Offers(side, levels);
            FillOf(side, levels, o, vol).trades != []
            <==> !StopsAtEmptyLevel(side, levels, vol) && offers != [] && Crosses(o, offers[0].price)
  {
    hide Offers;
  }

  /** Offers the order cannot trade with come after those it can. */
  predicate CrossingFirst(offers: seq<Offer>, o: OrderInsertion) {
    forall i, j :: 0 <= i < j < |offers| && Crosses(o, offers[j].price) ==> Crosses(o, offers[i].price)
  }

  /** Without a self-trade exactly the eligible volume is traded, up to the order's volume. */
  lemma {:induction false} GreedyLeft(offers: seq<Offer>, o: OrderInsertion, vol: Volume)
    requires CrossingFirst(offers, o) && !Greedy(offers, o, vol).selfTrade
    ensures var eligible := SumBy(offers, EligibleVolume(o));
            0 <= eligible && Greedy(offers, o, vol).left == if eligible >= vol then 0 else vol - eligible
    decreases |offers|
  {
    if offers == [] {
    } else if !Crosses(o, offers[0].price) {
      SumByZero(offers, EligibleVolume(o));
    } else {
      SumByHead(offers, EligibleVolume(o));
      var v := offers[0].entry.volume;
      SumByNonNegative(offers[1..], EligibleVolume(o));
      if vol > v {
        assert CrossingFirst(offers[1..], o);
        GreedyLeft(offers[1..], o, vol - v);
      }
    }
  }

  /** What the order takes from offer `k`: what is left of it behind the offers ahead, up to the offer's volume. */
  function Taken(offers: seq<Offer>, o: OrderInsertion, vol: Volume, k: nat): int
    requires k < |offers|
  {
    var left := vol - Ahead(offers, k);
    if !Crosses(o, offers[k].price) || left <= 0 then 0
    else if left < offers[k].entry.volume then left else offers[k].entry.volume
  }

  lemma TakenShift(offers: seq<Offer>, o: OrderInsertion, vol: Volume, k: nat)
    requires 0 < k < |offers| && offers[0].entry.volume <= vol
    ensures Taken(offers, o, vol, k) == Taken(offers[1..], o, vol - offers[0].entry.volume, k - 1)
  {
    AheadOfNext(offers, k - 1);
  }

  /** The order trades with offer `k`: the first offer, or one that the offers ahead leave some volume for. */
  predicate TradesAt(offers: seq<Offer>, o: OrderInsertion, vol: Volume, k: nat)
    requires k < |offers|
  {
    Crosses(o, offers[k].price) && (k == 0 || Ahead(offers, k) < vol)
  }

  /** Without a self-trade prefix sums tell which offers trade. */
  lemma {:induction false} TradesAtIff(offers: seq<Offer>, o: OrderInsertion, vol: Volume, k: nat)
    requires CrossingFirst(offers, o) && !Greedy(offers, o, vol).selfTrade && k < |offers|
    ensures TradesAt(offers, o, vol, k) <==> k < |Greedy(offers, o, vol).trades|
    decreases |offers|
  {
    if Crosses(o, offers[0].price) && k > 0 {
      var v := offers[0].entry.volume;
      AheadOfNext(offers, k - 1);
      AheadNonNegative(offers[1..], k - 1);
      if vol > v {
        assert CrossingFirst(offers[1..], o);
        TradesAtIff(offers[1..], o, vol - v, k - 1);
        assert k == 1 ==> Ahead(offers[1..], 0) == 0;
      }
    }
  }

  /** Without a self-trade the volumes of the trades are known in advance from prefix sums. */
  lemma {:induction false} TradedVolumes(offers: seq<Offer>, o: OrderInsertion, vol: Volume, k: nat)
    requires CrossingFirst(offers, o) && !Greedy(offers, o, vol).selfTrade && k < |offers|
    ensures var trades := Greedy(offers, o, vol).trades;
            Taken(offers, o, vol, k) == if k < |trades| then trades[k].volume else 0
    decreases |offers|
  {
    if Crosses(o, offers[0].price) {
      var head, tail := offers[0], offers[1..];
      assert offers == [head] + tail;
      GreedyStep(head, tail, o, vol);
      hide Greedy, Crosses;
      if k == 0 {
        assert Ahead(offers, 0) == 0;
      } else if vol <= head.entry.volume {
        AheadOfNext(offers, k - 1);
        AheadNonNegative(tail, k - 1);
      } else {
        RestCrossingFirst(offers, o);
        TradedVolumes(tail, o, vol - head.entry.volume, k - 1);
        TakenShift(offers, o, vol, k);
      }
    }
  }

  lemma RestCrossingFirst(offers: seq<Offer>, o: OrderInsertion)
    requires offers != [] && CrossingFirst(offers, o)
    ensures CrossingFirst(offers[1..], o)
  {
    hide Crosses;
    var tail := offers[1..];
    forall i, j | 0 <= i < j < |tail| && Crosses(o, tail[j].price) ensures Crosses(o, tail[i].price) {
      assert tail[i] == offers[i + 1] && tail[j] == offers[j + 1];
    }
  }

  lemma CrossingFirstConcat(a: seq<Offer>, b: seq<Offer>, o: OrderInsertion)
    requires forall i :: 0 <= i < |a| ==> Crosses(o, a[i].price)
    requires CrossingFirst(b, o)
    ensures CrossingFirst(a + b, o)
  {
    var all := a + b;
    assert forall i :: 0 <= i < |all| ==> all[i] == if i < |a| then a[i] else b[i - |a|];
  }

  lemma {:induction false} SortedCrossingFirst(side: Side, levels: seq<Level>, o: OrderInsertion)
    requires SortedSide(levels) && side == o.side.Opposite()
    ensures CrossingFirst(Offers(side, levels), o)
    decreases |levels|
  {
    if levels != [] {
      var best, rest := Best(side, levels), Worse(side, levels);
      if Crosses(o, best.price) {
        SortedCrossingFirst(side, rest, o);
        CrossingFirstConcat(Tag(best.price, best.orders), Offers(side, rest), o);
      } else {
        NoneCross(side, levels, o);
      }
    }
  }

  // ---- volumes of levels and of offers ----

  lemma {:induction false} TagVolume(price: Price, q: seq<Entry>)
    ensures SumBy(Tag(price, q), OpenVolume()) == QueueVolume(q)
  {
    if q != [] {
      var n := |q| - 1;
      TagVolume(price, q[..n]);
      assert Tag(price, q) == Tag(price, q[..n]) + [Offer(price, q[n])];
      SumByAppend(Tag(price, q[..n]), Offer(price, q[n]), OpenVolume());
    }
  }

  lemma {:induction false} OffersFold(side: Side, levels: seq<Level>, f: Offer -> int)
    requires levels != []
    ensures var n := |levels| - 1;
            SumBy(Offers(side, levels), f)
            == SumBy(Offers(side, levels[..n]), f) + SumBy(Tag(levels[n].price, levels[n].orders), f)
  {
    var n := |levels| - 1;
    var front, last := levels[..n], [levels[n]];
    assert levels == front + last;
    if side.Ask? { OffersJoin(side, front, last); } else { OffersJoin(side, last, front); }
    assert Worse(side, last) == [];
    assert Offers(side, last) == Tag(levels[n].price, levels[n].orders);
    SumByConcat(Offers(side, front), Offers(side, last), f);
    SumByConcat(Offers(side, last), Offers(side, front), f);
  }

  lemma {:induction false} OffersVolume(side: Side, levels: seq<Level>)
    ensures SumBy(Offers(side, levels), OpenVolume()) == TotalVolume(levels)
  {
    if levels != [] {
      var n := |levels| - 1;
      OffersVolume(side, levels[..n]);
      OffersFold(side, levels, OpenVolume());
      TagVolume(levels[n].price, levels[n].orders);
    }
  }

  lemma {:induction false} TagEligible(price: Price, q: seq<Entry>, o: OrderInsertion)
    ensures SumBy(Tag(price, q), EligibleVolume(o)) == if Crosses(o, price) then QueueVolume(q) else 0
  {
    if q != [] {
      var n := |q| - 1;
      TagEligible(price, q[..n], o);
      assert Tag(price, q) == Tag(price, q[..n]) + [Offer(price, q[n])];
      SumByAppend(Tag(price, q[..n]), Offer(price, q[n]), EligibleVolume(o));
    }
  }

  lemma NoOffers(side: Side, f: Offer -> int)
    ensures SumBy(Offers(side, []), f) == 0
  {}

  /** Levels below `k` are eligible, levels from `k` on are not: the eligible volume is that of the former. */
  lemma {:induction false} EligiblePrefix(side: Side, levels: seq<Level>, o: OrderInsertion, k: nat)
    requires k <= |levels|
    requires forall i :: 0 <= i < k ==> Crosses(o, levels[i].price)
    requires forall i :: k <= i < |levels| ==> !Crosses(o, levels[i].price)
    ensures SumBy(Offers(side, levels), EligibleVolume(o)) == TotalVolume(levels[..k])
  {
    hide Offers, Crosses;
    if levels == [] {
      NoOffers(side, EligibleVolume(o));
    } else {
      var n := |levels| - 1;
      OffersFold(side, levels, EligibleVolume(o));
      TagEligible(levels[n].price, levels[n].orders, o);
      if k == |levels| {
        EligiblePrefix(side, levels[..n], o, n);
        assert levels[..k] == levels && levels[..n][..n] == levels[..n];
      } else {
        EligiblePrefix(side, levels[..n], o, k);
        assert levels[..n][..k] == levels[..k];
      }
    }
  }

  lemma {:induction false} TotalVolumePositive(levels: seq<Level>)
    requires TotalVolume(levels) > 0
    ensures HasEntry(levels)
  {
    var n := |levels| - 1;
    if levels[n].orders == [] {
      TotalVolumePositive(levels[..n]);
      var i :| 0 <= i < n && levels[..n][i].orders != [];
      assert levels[i].orders != [];
    }
  }

  lemma {:induction false} ScannedAll(levels: seq<Level>, o: OrderInsertion)
    ensures forall i :: 0 <= i < |Scanned(levels, o)| ==> Crosses(o, Scanned(levels, o)[i].price)
    ensures var k := |Scanned(levels, o)|; k < |levels| ==> !Crosses(o, levels[k].price)
  {
    if levels != [] && Crosses(o, levels[0].price) {
      ScannedAll(levels[1..], o);
    }
  }

  /** The volume the check adds up is the eligible volume, except that a fill-or-kill
      ask, which looks at the worst bid first, sees nothing once that bid is too low. */
  lemma {:induction false} ScannedVolume(levels: seq<Level>, o: OrderInsertion)
    requires SortedSide(levels)
    ensures var eligible := SumBy(Offers(o.side.Opposite(), levels), EligibleVolume(o));
            TotalVolume(Scanned(levels, o))
            == if o.side.Bid? || levels == [] || Crosses(o, levels[0].price) then eligible else 0
  {
    var side := o.side.Opposite();
    var k := |Scanned(levels, o)|;
    ScannedAll(levels, o);
    assert Scanned(levels, o) == levels[..k];
    if o.side.Bid? || levels == [] || Crosses(o, levels[0].price) {
      EligiblePrefix(side, levels, o, k);
    }
  }

  /** Every entry of a level is an offer. */
  lemma LevelOffer(side: Side, levels: seq<Level>, i: nat) returns (k: nat)
    requires i < |levels| && levels[i].orders != []
    ensures k < |Offers(side, levels)| && Offers(side, levels)[k].price == levels[i].price
  {
    OffersSplit(side, levels, i);
    k := |Offers(side, BetterThan(side, levels, i))|;
  }

  predicate HasEligible(offers: seq<Offer>, o: OrderInsertion) {
    exists k :: 0 <= k < |offers| && Crosses(o, offers[k].price)
  }

  /** The scan sees an order when one is eligible, again but for a fill-or-kill ask above the lowest bid. */
  lemma ScannedEntry(levels: seq<Level>, o: OrderInsertion)
    requires SortedSide(levels)
    ensures HasEntry(Scanned(levels, o))
       <==> && HasEligible(Offers(o.side.Opposite(), levels), o)
            && (o.side.Bid? || (levels != [] && Crosses(o, levels[0].price)))
  {
    hide Offers;
    var side := o.side.Opposite();
    var scanned := Scanned(levels, o);
    ScannedAll(levels, o);
    assert scanned == levels[..|scanned|];
    if HasEntry(scanned) {
      var i :| 0 <= i < |scanned| && scanned[i].orders != [];
      var k := LevelOffer(side, levels, i);
    }
    if HasEligible(Offers(side, levels), o) {
      var k :| 0 <= k < |Offers(side, levels)| && Crosses(o, Offers(side, levels)[k].price);
      var i, j := OfferLevel(side, levels, k);
      if i < |scanned| { assert scanned[i].orders != []; }
    }
  }

  /** The check passes exactly when some offer is eligible and the eligible volume suffices, for
      market orders and fill-or-kill bids; for a fill-or-kill ask the lowest bid must be eligible as well. */
  lemma EnoughVolumeIff(levels: seq<Level>, o: OrderInsertion)
    requires SortedSide(levels)
    ensures var offers := Offers(o.side.Opposite(), levels);
            EnoughVolume(levels, o)
            <==> && HasEligible(offers, o) && SumBy(offers, EligibleVolume(o)) >= o.volume
                 && (o.side.Bid? || (levels != [] && Crosses(o, levels[0].price)))
  {
    hide Offers;
    ScannedVolume(levels, o);
    ScannedEntry(levels, o);
  }

  /** A fill-or-kill ask that the resting bids could fill, killed because of an unrelated low bid. */
  lemma FillOrKillAskKilledWrongly()
    ensures var levels := [Level(9, [Entry(0, 1, 5)]), Level(10, [Entry(1, 1, 5)])];
            var o := OrderInsertion(2, 0, FillOrKill, AssetIdPair(0, 1), Ask, 5, 10);
            && SumBy(Offers(Bid, levels), EligibleVolume(o)) >= o.volume
            && !EnoughVolume(levels, o)
            && !Sweep(Bid, levels, o, o.volume).selfTrade && Sweep(Bid, levels, o, o.volume).left == 0
  {
    var levels := [Level(9, [Entry(0, 1, 5)]), Level(10, [Entry(1, 1, 5)])];
    var o := OrderInsertion(2, 0, FillOrKill, AssetIdPair(0, 1), Ask, 5, 10);
    assert Offers(Bid, levels) == [Offer(10, Entry(1, 1, 5)), Offer(9, Entry(0, 1, 5))] by {
      assert Worse(Bid, levels) == [levels[0]];
      assert Worse(Bid, [levels[0]]) == [];
    }
    SumByHead(Offers(Bid, levels), EligibleVolume(o));
    assert Offers(Bid, levels)[1..] == [Offer(9, Entry(0, 1, 5))];
    SumByHead([Offer(9, Entry(0, 1, 5))], EligibleVolume(o));
    assert Scanned(levels, o) == [];
  }

  /** A market or fill-or-kill order whose volume check passed never has volume left to rest. */
  lemma CheckedOrderNeverRests(levels: seq<Level>, o: OrderInsertion)
    requires SortedSide(levels)
    requires EnoughVolume(levels, o)
    requires !Sweep(o.side.Opposite(), levels, o, o.volume).selfTrade
    ensures Sweep(o.side.Opposite(), levels, o, o.volume).left == 0
  {
    var side := o.side.Opposite();
    if o.volume > 0 {
      EnoughVolumeIff(levels, o);
      SweepIsGreedy(side, levels, o, o.volume);
      SortedCrossingFirst(side, levels, o);
      GreedyLeft(Offers(side, levels), o, o.volume);
    }
  }
}
