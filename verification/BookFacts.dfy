/**
 What every book operation keeps (sorted sides, time order inside a price, bids below
 asks, no empty level and no empty order) and how it changes the list of resting offers.
 */
module BookFacts {
  import opened Types
  import opened Seqs
  import opened BookSpec
  import opened Matching
  import opened MatchingFacts

  // ---- invariants of a book ----

  function Prices(levels: seq<Level>): set<Price> {
    set i | 0 <= i < |levels| :: levels[i].price
  }

  /** Ids grow towards the back of the queue and are all below `bound`. */
  predicate QueueOrdered(q: seq<Entry>, bound: nat) {
    && (forall i, j :: 0 <= i < j < |q| ==> q[i].id < q[j].id)
    && (forall i :: 0 <= i < |q| ==> q[i].id < bound)
  }

  predicate SideOk(levels: seq<Level>, bound: nat) {
    && SortedSide(levels)
    && (forall i :: 0 <= i < |levels| ==> QueueOrdered(levels[i].orders, bound))
  }

  ghost predicate Uncrossed(bids: seq<Level>, asks: seq<Level>) {
    forall p, q :: p in Prices(bids) && q in Prices(asks) ==> p < q
  }

  ghost predicate BookOk(book: Book, bound: nat) {
    SideOk(book.bids, bound) && SideOk(book.asks, bound) && Uncrossed(book.bids, book.asks)
  }

  predicate TidyQueue(q: seq<Entry>) {
    q != [] && forall i :: 0 <= i < |q| ==> q[i].volume > 0
  }

  predicate TidySide(levels: seq<Level>) {
    forall i :: 0 <= i < |levels| ==> TidyQueue(levels[i].orders)
  }

  predicate TidyBook(book: Book) {
    TidySide(book.bids) && TidySide(book.asks)
  }

  lemma {:induction false} QueueVolumePositive(q: seq<Entry>)
    requires TidyQueue(q)
    ensures QueueVolume(q) > 0
  {
    if |q| > 1 {
      QueueVolumePositive(q[..|q| - 1]);
    }
  }

  function RestingVolume(book: Book): nat {
    TotalVolume(book.bids) + TotalVolume(book.asks)
  }

  // ---- price-time priority of the list of offers ----

  predicate BetterPrice(side: Side, p: Price, q: Price) {
    if side.Ask? then p < q else p > q
  }

  predicate Precedes(side: Side, a: Offer, b: Offer) {
    BetterPrice(side, a.price, b.price) || (a.price == b.price && a.entry.id < b.entry.id)
  }

  predicate PriorityOrder(side: Side, offers: seq<Offer>) {
    forall i, j :: 0 <= i < j < |offers| ==> Precedes(side, offers[i], offers[j])
  }

  /** Two offers of a side, the tail of which is in order already. */
  lemma PairInOrder(side: Side, levels: seq<Level>, bound: nat, i: nat, j: nat)
    requires SideOk(levels, bound) && levels != [] && PriorityOrder(side, Offers(side, Worse(side, levels)))
    requires i < j < |Offers(side, levels)|
    ensures Precedes(side, Offers(side, levels)[i], Offers(side, levels)[j])
  {
    var best, rest := Best(side, levels), Worse(side, levels);
    var front, tail, n := Tag(best.price, best.orders), Offers(side, rest), |best.orders|;
    assert Offers(side, levels) == front + tail;
    hide Offers, Tag;
    if j < n {
      assert QueueOrdered(best.orders, bound);
    } else if i < n {
      var l, _ := OfferLevel(side, rest, j - n);
    }
  }

  lemma {:induction false} OffersInPriorityOrder(side: Side, levels: seq<Level>, bound: nat)
    requires SideOk(levels, bound)
    ensures PriorityOrder(side, Offers(side, levels))
    ensures forall k :: 0 <= k < |Offers(side, levels)| ==> Offers(side, levels)[k].entry.id < bound
    decreases |levels|
  {
    if levels != [] {
      OffersInPriorityOrder(side, Worse(side, levels), bound);
      var offers := Offers(side, levels);
      forall i, j | 0 <= i < j < |offers|
        ensures Precedes(side, offers[i], offers[j])
      {
        PairInOrder(side, levels, bound, i, j);
      }
    }
  }

  // ---- adding an order to its side ----

  /** The reference for resting: join the list before the first strictly worse price. */
  function Place(side: Side, offers: seq<Offer>, offer: Offer): seq<Offer> {
    if offers == [] || BetterPrice(side, offer.price, offers[0].price) then [offer] + offers
    else [offers[0]] + Place(side, offers[1..], offer)
  }

  lemma {:induction false} PlaceBetween(side: Side, a: seq<Offer>, b: seq<Offer>, offer: Offer)
    requires forall i :: 0 <= i < |a| ==> !BetterPrice(side, offer.price, a[i].price)
    requires b == [] || BetterPrice(side, offer.price, b[0].price)
    ensures Place(side, a + b, offer) == a + [offer] + b
  {
    if a == [] {
      assert a + b == b;
    } else {
      PlaceBetween(side, a[1..], b, offer);
      assert (a + b)[1..] == a[1..] + b;
      assert [a[0]] + (a[1..] + [offer] + b) == a + [offer] + b;
    }
  }

  lemma {:induction false} OffersPriced(side: Side, levels: seq<Level>)
    ensures forall k :: 0 <= k < |Offers(side, levels)| ==> Offers(side, levels)[k].price in Prices(levels)
  {
    forall k | 0 <= k < |Offers(side, levels)|
      ensures Offers(side, levels)[k].price in Prices(levels)
    {
      var i, _ := OfferLevel(side, levels, k);
    }
  }

  lemma PricesAround(side: Side, levels: seq<Level>, i: nat)
    requires SortedSide(levels) && i < |levels|
    ensures forall p :: p in Prices(BetterThan(side, levels, i)) ==> BetterPrice(side, p, levels[i].price)
    ensures forall p :: p in Prices(WorseThan(side, levels, i)) ==> BetterPrice(side, levels[i].price, p)
  {}

  /** The offers of the levels around position `i`, relative to that level's price. */
  lemma AroundLevel(side: Side, levels: seq<Level>, i: nat)
    requires SortedSide(levels) && i < |levels|
    ensures forall k :: 0 <= k < |Offers(side, BetterThan(side, levels, i))| ==>
              BetterPrice(side, Offers(side, BetterThan(side, levels, i))[k].price, levels[i].price)
    ensures forall k :: 0 <= k < |Offers(side, WorseThan(side, levels, i))| ==>
              BetterPrice(side, levels[i].price, Offers(side, WorseThan(side, levels, i))[k].price)
  {
    PricesAround(side, levels, i);
    OffersPriced(side, BetterThan(side, levels, i));
    OffersPriced(side, WorseThan(side, levels, i));
  }

  lemma RestAtOldPrice(side: Side, levels: seq<Level>, i: nat, e: Entry)
    requires SortedSide(levels) && i < |levels|
    ensures var level := levels[i];
            Offers(side, levels[i := Level(level.price, level.orders + [e])])
            == Place(side, Offers(side, levels), Offer(level.price, e))
  {
    hide Offers, Place;
    var price, q := levels[i].price, levels[i].orders;
    var after := levels[i := Level(price, q + [e])];
    var a, b := Offers(side, BetterThan(side, levels, i)), Offers(side, WorseThan(side, levels, i));
    OffersSplit(side, levels, i);
    OffersSplit(side, after, i);
    AroundLevel(side, levels, i);
    assert BetterThan(side, after, i) == BetterThan(side, levels, i);
    assert WorseThan(side, after, i) == WorseThan(side, levels, i);
    TagAppend(price, q, e);
    PlaceBetween(side, a + Tag(price, q), b, Offer(price, e));
    ConcatAssociative(a, Tag(price, q), [Offer(price, e)]);
  }

  lemma RestAtNewPrice(side: Side, levels: seq<Level>, i: nat, price: Price, e: Entry)
    requires i <= |levels|
    requires SortedSide(levels[..i] + [Level(price, [e])] + levels[i..])
    ensures Offers(side, levels[..i] + [Level(price, [e])] + levels[i..])
         == Place(side, Offers(side, levels), Offer(price, e))
  {
    hide Offers, Place;
    var after := levels[..i] + [Level(price, [e])] + levels[i..];
    var better, worse := BetterThan(side, after, i), WorseThan(side, after, i);
    SplitInserted(levels, i, Level(price, [e]));
    OffersSplit(side, after, i);
    AroundLevel(side, after, i);
    OffersJoin(side, better, worse);
    PlaceBetween(side, Offers(side, better), Offers(side, worse), Offer(price, e));
    assert Tag(price, [e]) == [Offer(price, e)];
  }

  /** Appending to the price's queue, created when missing, puts the order behind all
      offers at its price and ahead of all worse ones. */
  lemma RestEntryPlaces(side: Side, levels: seq<Level>, price: Price, e: Entry)
    requires SortedSide(levels)
    ensures Offers(side, RestEntry(levels, price, e)) == Place(side, Offers(side, levels), Offer(price, e))
  {
    var i := LevelIndex(levels, price);
    if HasLevel(levels, price) {
      RestAtOldPrice(side, levels, i, e);
    } else {
      RestAtNewPrice(side, levels, i, price, e);
    }
  }

  /** Where `Place` puts the offer. */
  lemma {:induction false} PlaceAt(side: Side, offers: seq<Offer>, offer: Offer) returns (k: nat)
    ensures k <= |offers|
    ensures Place(side, offers, offer) == offers[..k] + [offer] + offers[k..]
    ensures forall i :: 0 <= i < k ==> !BetterPrice(side, offer.price, offers[i].price)
    ensures k < |offers| ==> BetterPrice(side, offer.price, offers[k].price)
  {
    if offers == [] || BetterPrice(side, offer.price, offers[0].price) {
      k := 0;
    } else {
      var k' := PlaceAt(side, offers[1..], offer);
      k := k' + 1;
      InsertBehindHead(offers, offer, k');
      assert forall i :: 0 < i < |offers| ==> offers[i] == offers[1..][i - 1];
    }
  }

  lemma RestAtOldPriceKeeps(levels: seq<Level>, i: nat, e: Entry, bound: nat)
    requires SideOk(levels, bound) && bound <= e.id && i < |levels|
    ensures var after := levels[i := Level(levels[i].price, levels[i].orders + [e])];
            SideOk(after, e.id + 1) && Prices(after) == Prices(levels)
            && (TidySide(levels) && e.volume > 0 ==> TidySide(after))
  {
    var after := levels[i := Level(levels[i].price, levels[i].orders + [e])];
    assert |after| == |levels|;
    assert forall j :: 0 <= j < |after| ==> after[j].price == levels[j].price;
    assert QueueOrdered(after[i].orders, e.id + 1);
    assert forall j :: 0 <= j < |after| && j != i ==> after[j] == levels[j];
  }

  lemma RestAtNewPriceKeeps(levels: seq<Level>, i: nat, price: Price, e: Entry, bound: nat)
    requires SideOk(levels, bound) && bound <= e.id && i <= |levels|
    requires forall j :: 0 <= j < i ==> levels[j].price < price
    requires forall j :: i <= j < |levels| ==> price < levels[j].price
    ensures var after := levels[..i] + [Level(price, [e])] + levels[i..];
            SideOk(after, e.id + 1) && Prices(after) <= Prices(levels) + {price}
            && (TidySide(levels) && e.volume > 0 ==> TidySide(after))
  {
    InsertedAt(levels, i, Level(price, [e]));
  }

  lemma RestEntryKeeps(levels: seq<Level>, price: Price, e: Entry, bound: nat)
    requires SideOk(levels, bound) && bound <= e.id
    ensures SideOk(RestEntry(levels, price, e), e.id + 1)
    ensures Prices(RestEntry(levels, price, e)) <= Prices(levels) + {price}
    ensures TidySide(levels) && e.volume > 0 ==> TidySide(RestEntry(levels, price, e))
  {
    var i := LevelIndex(levels, price);
    if HasLevel(levels, price) {
      RestAtOldPriceKeeps(levels, i, e, bound);
    } else {
      RestAtNewPriceKeeps(levels, i, price, e, bound);
    }
  }

  // ---- taking an order out of its side, or shrinking it ----

  /** Replacing one queue changes the list of offers only where that queue's offers are. */
  lemma SetQueueOffers(side: Side, levels: seq<Level>, i: nat, q: seq<Entry>) returns (a: seq<Offer>, b: seq<Offer>)
    requires i < |levels|
    ensures Offers(side, levels) == a + Tag(levels[i].price, levels[i].orders) + b
    ensures Offers(side, SetQueue(levels, i, q)) == a + Tag(levels[i].price, q) + b
  {
    var better, worse := BetterThan(side, levels, i), WorseThan(side, levels, i);
    var after := SetQueue(levels, i, q);
    a, b := Offers(side, better), Offers(side, worse);
    OffersSplit(side, levels, i);
    if q == [] {
      assert after == Join(side, better, worse);
      OffersJoin(side, better, worse);
      assert a + Tag(levels[i].price, q) == a;
    } else {
      assert BetterThan(side, after, i) == better && WorseThan(side, after, i) == worse;
      OffersSplit(side, after, i);
    }
  }

  lemma SetQueueKeeps(levels: seq<Level>, i: nat, q: seq<Entry>, bound: nat)
    requires SideOk(levels, bound) && i < |levels| && QueueOrdered(q, bound)
    ensures SideOk(SetQueue(levels, i, q), bound)
    ensures Prices(SetQueue(levels, i, q)) <= Prices(levels)
    ensures TidySide(levels) && (forall k :: 0 <= k < |q| ==> q[k].volume > 0) ==> TidySide(SetQueue(levels, i, q))
  {
    var after := SetQueue(levels, i, q);
    if q == [] {
      assert forall j :: 0 <= j < |after| ==> after[j] == if j < i then levels[j] else levels[j + 1];
    }
  }

  /** An offer at this price lies in the queue found by the price. */
  lemma OfferInLevel(side: Side, levels: seq<Level>, k: nat) returns (j: nat)
    requires SortedSide(levels) && k < |Offers(side, levels)|
    ensures var offer := Offers(side, levels)[k]; var i := LevelIndex(levels, offer.price);
            && HasLevel(levels, offer.price) && j < |levels[i].orders| && levels[i].orders[j] == offer.entry
  {
    var i, j' := OfferLevel(side, levels, k);
    assert LevelIndex(levels, levels[i].price) == i;
    j := j';
  }

  lemma RemoveEntryOffers(side: Side, levels: seq<Level>, i: nat, n: nat) returns (k: nat)
    requires i < |levels| && n < |levels[i].orders|
    ensures var offers := Offers(side, levels);
            && k < |offers| && offers[k] == Offer(levels[i].price, levels[i].orders[n])
            && Offers(side, SetQueue(levels, i, RemoveAt(levels[i].orders, n))) == RemoveAt(offers, k)
  {
    hide Offers, SetQueue;
    var price, q := levels[i].price, levels[i].orders;
    var a, b := SetQueueOffers(side, levels, i, RemoveAt(q, n));
    k := |a| + n;
    TagRemove(price, q, n);
    RemoveInside(a, Tag(price, q), b, n);
  }

  /** The list with offer `k` shrunk; an offer shrunk to nothing is removed. */
  function ShrinkOffer(offers: seq<Offer>, k: nat, reduction: Volume): seq<Offer>
    requires k < |offers|
  {
    if reduction >= offers[k].entry.volume then RemoveAt(offers, k) else offers[k := Reduced(offers[k], reduction)]
  }

  lemma TagShrink(price: Price, q: seq<Entry>, n: nat, reduction: Volume)
    requires n < |q|
    ensures Tag(price, Shrink(q, n, reduction)) == ShrinkOffer(Tag(price, q), n, reduction)
  {}

  lemma ShrinkInside(a: seq<Offer>, m: seq<Offer>, b: seq<Offer>, n: nat, reduction: Volume)
    requires n < |m|
    ensures a + ShrinkOffer(m, n, reduction) + b == ShrinkOffer(a + m + b, |a| + n, reduction)
  {
    if reduction >= m[n].entry.volume {
      RemoveInside(a, m, b, n);
    } else {
      UpdateInside(a, m, b, n, Reduced(m[n], reduction));
    }
  }

  lemma ShrinkEntryOffers(side: Side, levels: seq<Level>, i: nat, n: nat, reduction: Volume) returns (k: nat)
    requires i < |levels| && n < |levels[i].orders|
    ensures var offers := Offers(side, levels);
            && k < |offers| && offers[k] == Offer(levels[i].price, levels[i].orders[n])
            && Offers(side, SetQueue(levels, i, Shrink(levels[i].orders, n, reduction)))
               == ShrinkOffer(offers, k, reduction)
  {
    hide Offers, SetQueue;
    var price, q := levels[i].price, levels[i].orders;
    var a, b := SetQueueOffers(side, levels, i, Shrink(q, n, reduction));
    k := |a| + n;
    TagShrink(price, q, n, reduction);
    ShrinkInside(a, Tag(price, q), b, n, reduction);
  }

  lemma NotInLevel(side: Side, levels: seq<Level>, price: Price, id: OrderId)
    requires SortedSide(levels)
    requires var i := LevelIndex(levels, price);
             HasLevel(levels, price) ==> forall j :: 0 <= j < |levels[i].orders| ==> levels[i].orders[j].id != id
    ensures var offers := Offers(side, levels);
            forall j :: 0 <= j < |offers| ==> !(offers[j].price == price && offers[j].entry.id == id)
  {
    var offers := Offers(side, levels);
    forall j | 0 <= j < |offers| && offers[j].price == price
      ensures offers[j].entry.id != id
    {
      var m := OfferInLevel(side, levels, j);
    }
  }

  /** Cancelling removes one offer with this price and id from the list; it fails only when there is none. */
  lemma CancelOffers(side: Side, levels: seq<Level>, price: Price, id: OrderId) returns (k: nat)
    requires SortedSide(levels)
    ensures var offers := Offers(side, levels);
            match CancelIn(levels, price, id)
            case None => forall j :: 0 <= j < |offers| ==> !(offers[j].price == price && offers[j].entry.id == id)
            case Some(after) =>
              && k < |offers| && offers[k].price == price && offers[k].entry.id == id
              && Offers(side, after) == RemoveAt(offers, k)
  {
    k := 0;
    if CancelIn(levels, price, id).None? {
      NotInLevel(side, levels, price, id);
    } else {
      var i := LevelIndex(levels, price);
      k := RemoveEntryOffers(side, levels, i, LastEntry(levels[i].orders, id).value);
    }
  }

  /** Modifying shrinks one offer with this price and id, or removes it when nothing would be left. */
  lemma ModifyOffers(side: Side, levels: seq<Level>, price: Price, id: OrderId, reduction: Volume) returns (k: nat)
    requires SortedSide(levels)
    ensures var offers := Offers(side, levels);
            match ModifyIn(levels, price, id, reduction)
            case None => forall j :: 0 <= j < |offers| ==> !(offers[j].price == price && offers[j].entry.id == id)
            case Some(after) =>
              && k < |offers| && offers[k].price == price && offers[k].entry.id == id
              && Offers(side, after) == ShrinkOffer(offers, k, reduction)
  {
    k := 0;
    if ModifyIn(levels, price, id, reduction).None? {
      NotInLevel(side, levels, price, id);
    } else {
      var i := LevelIndex(levels, price);
      k := ShrinkEntryOffers(side, levels, i, FirstEntry(levels[i].orders, id).value, reduction);
    }
  }

  /** Every offer of a side is found by its price and id, for cancelling and for modifying. */
  lemma OfferIsFound(side: Side, levels: seq<Level>, j: nat)
    requires SortedSide(levels) && j < |Offers(side, levels)|
    ensures var offer := Offers(side, levels)[j];
            && CancelIn(levels, offer.price, offer.entry.id).Some?
            && forall reduction :: ModifyIn(levels, offer.price, offer.entry.id, reduction).Some?
  {
    var i := OfferInLevel(side, levels, j);
  }

  lemma CancelKeeps(levels: seq<Level>, price: Price, id: OrderId, bound: nat)
    requires SideOk(levels, bound) && CancelIn(levels, price, id).Some?
    ensures var after := CancelIn(levels, price, id).value;
            SideOk(after, bound) && Prices(after) <= Prices(levels) && (TidySide(levels) ==> TidySide(after))
  {
    var i := LevelIndex(levels, price);
    SetQueueKeeps(levels, i, RemoveAt(levels[i].orders, LastEntry(levels[i].orders, id).value), bound);
  }

  lemma ModifyKeeps(levels: seq<Level>, price: Price, id: OrderId, reduction: Volume, bound: nat)
    requires SideOk(levels, bound) && ModifyIn(levels, price, id, reduction).Some?
    ensures var after := ModifyIn(levels, price, id, reduction).value;
            SideOk(after, bound) && Prices(after) <= Prices(levels) && (TidySide(levels) ==> TidySide(after))
  {
    var i := LevelIndex(levels, price);
    var q := levels[i].orders;
    var n := FirstEntry(q, id).value;
    SetQueueKeeps(levels, i, Shrink(q, n, reduction), bound);
  }

  // ---- sweeping a side ----

  /** What is left of a queue is its tail, the front of which may have shrunk. */
  lemma {:induction false} FillQueueTail(q: seq<Entry>, price: Price, o: OrderInsertion, vol: Volume)
    ensures var f := FillQueue(q, price, o, vol);
            && |f.queue| <= |q|
            && (forall i :: 0 <= i < |f.queue| ==> f.queue[i].id == q[|q| - |f.queue| + i].id)
    decreases |q|
  {
    if q != [] && q[0].account != o.account && Min(vol, q[0].volume) != vol {
      FillQueueTail(q[1..], price, o, vol - q[0].volume);
    }
  }

  lemma {:induction false} FillQueueTidy(q: seq<Entry>, price: Price, o: OrderInsertion, vol: Volume)
    requires forall i :: 0 <= i < |q| ==> q[i].volume > 0
    requires !FillQueue(q, price, o, vol).selfTrade
    ensures forall i :: 0 <= i < |FillQueue(q, price, o, vol).queue| ==> FillQueue(q, price, o, vol).queue[i].volume > 0
    decreases |q|
  {
    if q != [] && q[0].account != o.account && Min(vol, q[0].volume) != vol {
      FillQueueTidy(q[1..], price, o, vol - q[0].volume);
    }
  }

  lemma FillQueueKeeps(q: seq<Entry>, price: Price, o: OrderInsertion, vol: Volume, bound: nat)
    requires QueueOrdered(q, bound)
    ensures var f := FillQueue(q, price, o, vol);
            && QueueOrdered(f.queue, bound)
            && (TidyQueue(q) && !f.selfTrade ==> forall i :: 0 <= i < |f.queue| ==> f.queue[i].volume > 0)
  {
    FillQueueTail(q, price, o, vol);
    if TidyQueue(q) && !FillQueue(q, price, o, vol).selfTrade {
      FillQueueTidy(q, price, o, vol);
    }
  }

  lemma PutBestPrices(side: Side, level: Level, levels: seq<Level>)
    ensures Prices(PutBest(side, level, levels)) == Prices(levels) + {level.price}
  {
    var all := PutBest(side, level, levels);
    if side.Ask? {
      assert forall i :: 0 <= i < |levels| ==> levels[i] == all[i + 1];
    } else {
      assert forall i :: 0 <= i < |levels| ==> all[i] == levels[i];
    }
    assert all[BestIndex(side, |all|)] == level;
  }

  lemma PutBestKeeps(side: Side, level: Level, levels: seq<Level>, bound: nat)
    requires SideOk(levels, bound) && QueueOrdered(level.orders, bound)
    requires forall p :: p in Prices(levels) ==> BetterPrice(side, level.price, p)
    ensures SideOk(PutBest(side, level, levels), bound)
    ensures Prices(PutBest(side, level, levels)) == Prices(levels) + {level.price}
  {
    hide QueueOrdered;
    PutBestPrices(side, level, levels);
    var all := PutBest(side, level, levels);
    forall i | 0 <= i < |levels| ensures levels[i].price in Prices(levels) {}
    assert forall i :: 0 <= i < |all| ==>
             all[i] == if i == BestIndex(side, |all|) then level else levels[if side.Ask? then i - 1 else i];
  }

  lemma WorseFacts(side: Side, levels: seq<Level>, bound: nat)
    requires SideOk(levels, bound) && levels != []
    ensures SideOk(Worse(side, levels), bound)
    ensures Prices(levels) == Prices(Worse(side, levels)) + {Best(side, levels).price}
    ensures forall p :: p in Prices(Worse(side, levels)) ==> BetterPrice(side, Best(side, levels).price, p)
  {
    var rest := Worse(side, levels);
    if side.Ask? {
      assert forall i :: 0 < i < |levels| ==> levels[i] == rest[i - 1];
      assert forall i :: 0 <= i < |rest| ==> rest[i] == levels[i + 1];
    } else {
      assert forall i :: 0 <= i < |rest| ==> rest[i] == levels[i];
    }
  }

  lemma TidyEnds(side: Side, levels: seq<Level>)
    requires levels != []
    ensures TidySide(levels) <==> TidyQueue(Best(side, levels).orders) && TidySide(Worse(side, levels))
  {
    var rest := Worse(side, levels);
    assert forall i :: 0 <= i < |rest| ==> rest[i] == levels[if side.Ask? then i + 1 else i];
    assert forall i :: 0 <= i < |levels| && i != BestIndex(side, |levels|) ==>
             levels[i] == rest[if side.Ask? then i - 1 else i];
  }

  /** Sweeping keeps the side sorted and in time order, and without a self-trade leaves
      no exhausted level; what it cannot fill, no remaining price can. */
  lemma {:induction false} SweepKeeps(side: Side, levels: seq<Level>, o: OrderInsertion, vol: Volume, bound: nat)
    requires SideOk(levels, bound) && side == o.side.Opposite()
    ensures var s := Sweep(side, levels, o, vol);
            && SideOk(s.levels, bound)
            && Prices(s.levels) <= Prices(levels)
            && (!s.selfTrade && TidySide(levels) ==> TidySide(s.levels))
            && (!s.selfTrade && s.left > 0 ==> forall p :: p in Prices(s.levels) ==> !Crosses(o, p))
    decreases |levels|
  {
    hide FillQueue, TidySide;
    if levels != [] {
      var best, rest := Best(side, levels), Worse(side, levels);
      WorseFacts(side, levels, bound);
      TidyEnds(side, levels);
      if !Crosses(o, best.price) {
        NoneCross(side, levels, o);
      } else {
        var f := FillQueue(best.orders, best.price, o, vol);
        FillQueueKeeps(best.orders, best.price, o, vol, bound);
        if f.selfTrade || f.left == 0 {
          if f.queue != [] {
            PutBestKeeps(side, Level(best.price, f.queue), rest, bound);
            TidyEnds(side, PutBest(side, Level(best.price, f.queue), rest));
          }
        } else {
          SweepKeeps(side, rest, o, f.left, bound);
          var r := Sweep(side, rest, o, f.left);
          if r.selfTrade {
            PutBestKeeps(side, Level(best.price, []), r.levels, bound);
          }
        }
      }
    }
  }

  // ---- whole operations ----

  lemma WithSideKeeps(book: Book, side: Side, levels: seq<Level>, bound: nat)
    requires BookOk(book, bound) && SideOk(levels, bound)
    requires forall p :: p in Prices(levels) ==>
               || p in Prices(book.Side(side))
               || forall q :: q in Prices(book.Side(side.Opposite())) ==> BetterPrice(side, q, p) && p != q
    ensures BookOk(book.WithSide(side, levels), bound)
  {}

  lemma BookOkMonotone(book: Book, bound: nat, larger: nat)
    requires BookOk(book, bound) && bound <= larger
    ensures BookOk(book, larger)
  {}

  /** No insertion, successful or not, ever crosses the book or breaks its order. */
  lemma InsertKeepsBook(book: Book, o: OrderInsertion)
    requires BookOk(book, o.id)
    ensures var r := Insert(book, o);
            && BookOk(r.book, if r.result.Ok? then o.id + 1 else o.id)
            && (TidyBook(book) && r.result != Err(SelfTrade) ==> TidyBook(r.book))
  {
    hide Sweep, RestEntry, EnoughVolume, QueueOrdered, SortedSide;
    var resting := o.side.Opposite();
    var r := Insert(book, o);
    if !(r.result.Err? && r.result.error != SelfTrade) {
      var s := Sweep(resting, book.Side(resting), o, o.volume);
      SweepKeeps(resting, book.Side(resting), o, o.volume, o.id);
      WithSideKeeps(book, resting, s.levels, o.id);
      var swept := book.WithSide(resting, s.levels);
      BookOkMonotone(swept, o.id, o.id + 1);
      if !s.selfTrade && s.left > 0 {
        if !o.orderType.Limit? {
          CheckedOrderNeverRests(book.Side(resting), o);
        }
        RestEntryKeeps(swept.Side(o.side), o.price, EntryOf(o, s.left), o.id);
        WithSideKeeps(swept, o.side, RestEntry(swept.Side(o.side), o.price, EntryOf(o, s.left)), o.id + 1);
      }
    }
  }

  lemma CancelKeepsBook(book: Book, c: OrderCancellation, bound: nat)
    requires BookOk(book, bound) && Cancel(book, c).Ok?
    ensures BookOk(Cancel(book, c).value, bound)
    ensures TidyBook(book) ==> TidyBook(Cancel(book, c).value)
  {
    CancelKeeps(book.Side(c.side), c.price, c.orderId, bound);
  }

  lemma ModifyKeepsBook(book: Book, m: OrderModification, bound: nat)
    requires BookOk(book, bound) && Modify(book, m).Ok?
    ensures BookOk(Modify(book, m).value, bound)
    ensures TidyBook(book) ==> TidyBook(Modify(book, m).value)
  {
    ModifyKeeps(book.Side(m.side), m.price, m.orderId, m.reduction, bound);
  }

  /** Matching an order against a book is the greedy fill of the opposite side's offers. */
  lemma InsertIsGreedy(book: Book, o: OrderInsertion)
    requires SortedSide(book.bids) && SortedSide(book.asks)
    requires o.volume > 0 || TidyBook(book)
    requires !Insert(book, o).result.Err? || Insert(book, o).result.error == SelfTrade
    ensures var r := Insert(book, o);
            var resting := o.side.Opposite();
            var g := Greedy(Offers(resting, book.Side(resting)), o, o.volume);
            && r.trades == g.trades
            && Offers(resting, r.book.Side(resting)) == g.rest
            && (g.selfTrade ==> r.result == Err(SelfTrade) && r.book.Side(o.side) == book.Side(o.side))
            && (!g.selfTrade ==>
                  && r.result == Ok((if g.left > 0 then AwaitingFill else Status.Filled, LastPrice(g.trades, g.left)))
                  && Offers(o.side, r.book.Side(o.side))
                     == if g.left > 0 then
                          Place(o.side, Offers(o.side, book.Side(o.side)), Offer(o.price, EntryOf(o, g.left)))
                        else Offers(o.side, book.Side(o.side)))
  {
    var resting := o.side.Opposite();
    var levels := book.Side(resting);
    assert o.volume > 0 || (levels != [] ==> TidyQueue(Best(resting, levels).orders));
    SweepIsGreedy(resting, levels, o, o.volume);
    var s := Sweep(resting, levels, o, o.volume);
    var swept := book.WithSide(resting, s.levels);
    assert o.side.Opposite() == resting && resting.Opposite() == o.side;
    if !s.selfTrade && s.left > 0 {
      RestEntryPlaces(o.side, swept.Side(o.side), o.price, EntryOf(o, s.left));
    }
  }

  /** The same for every sorted book, tidy or not. */
  lemma InsertIsFill(book: Book, o: OrderInsertion)
    requires SortedSide(book.bids) && SortedSide(book.asks)
    requires !Insert(book, o).result.Err? || Insert(book, o).result.error == SelfTrade
    ensures var r := Insert(book, o);
            var resting := o.side.Opposite();
            var g := FillOf(resting, book.Side(resting), o, o.volume);
            && r.trades == g.trades
            && Offers(resting, r.book.Side(resting)) == g.rest
            && (g.selfTrade <==> r.result == Err(SelfTrade))
            && (g.selfTrade ==> r.book.Side(o.side) == book.Side(o.side))
            && (!g.selfTrade ==>
                  && r.result.Ok? && r.result.value.0 == (if g.left > 0 then AwaitingFill else Status.Filled)
                  && Offers(o.side, r.book.Side(o.side))
                     == if g.left > 0 then
                          Place(o.side, Offers(o.side, book.Side(o.side)), Offer(o.price, EntryOf(o, g.left)))
                        else Offers(o.side, book.Side(o.side)))
  {
    hide Offers, Greedy, Sweep, RestEntry;
    var resting := o.side.Opposite();
    SweepIsFill(resting, book.Side(resting), o, o.volume);
    var s := Sweep(resting, book.Side(resting), o, o.volume);
    var swept := book.WithSide(resting, s.levels);
    if !s.selfTrade && s.left > 0 {
      RestEntryPlaces(o.side, swept.Side(o.side), o.price, EntryOf(o, s.left));
    }
  }
}
