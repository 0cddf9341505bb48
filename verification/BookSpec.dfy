/**
 What each operation does to the two sides of an order book, as functions on values.

 A side is an ordered map from prices to first-in-first-out queues; here it is the
 sequence of its levels in ascending price order. Bids are consumed from the
 highest price, asks from the lowest: `Best`/`Worse` hide that difference.
 */
module BookSpec {
  import opened Types
  import opened Seqs

  /** An order resting in the book, with the volume still open. */
  datatype Entry = Entry(id: OrderId, account: AccountId, volume: Volume)

  datatype Level = Level(price: Price, orders: seq<Entry>)

  datatype Book = Book(bids: seq<Level>, asks: seq<Level>) {
    function Side(side: Side): seq<Level> {
      if side.Bid? then bids else asks
    }

    function WithSide(side: Side, levels: seq<Level>): (b: Book)
      ensures b.Side(side) == levels && b.Side(side.Opposite()) == Side(side.Opposite())
    {
      if side.Bid? then Book(levels, asks) else Book(bids, levels)
    }
  }

  const EMPTY_BOOK := Book([], [])

  // ---- the ends of a side ----

  function BestIndex(side: Side, n: nat): nat
    requires n > 0
  {
    if side.Ask? then 0 else n - 1
  }

  function Best(side: Side, levels: seq<Level>): Level
    requires levels != []
  {
    levels[BestIndex(side, |levels|)]
  }

  /** All levels but the best one. */
  function Worse(side: Side, levels: seq<Level>): seq<Level>
    requires levels != []
  {
    if side.Ask? then levels[1..] else levels[..|levels| - 1]
  }

  function Join<T>(side: Side, better: seq<T>, worse: seq<T>): seq<T> {
    if side.Ask? then better + worse else worse + better
  }

  function PutBest(side: Side, level: Level, levels: seq<Level>): (r: seq<Level>)
    ensures r != [] && Best(side, r) == level && Worse(side, r) == levels
  {
    Join(side, [level], levels)
  }

  // ---- finding a price level ----

  /** The number of levels priced strictly below `price`: where that price is, or would go. */
  function LevelIndex(levels: seq<Level>, price: Price): (i: nat)
    ensures i <= |levels|
    ensures forall j :: 0 <= j < i ==> levels[j].price < price
    ensures i < |levels| ==> price <= levels[i].price
  {
    if levels == [] || price <= levels[0].price then 0 else 1 + LevelIndex(levels[1..], price)
  }

  predicate HasLevel(levels: seq<Level>, price: Price) {
    var i := LevelIndex(levels, price);
    i < |levels| && levels[i].price == price
  }

  // ---- adding, cancelling and shrinking a resting order ----

  /** The entry joins the back of its price's queue, which is created when missing. */
  function RestEntry(levels: seq<Level>, price: Price, e: Entry): seq<Level> {
    var i := LevelIndex(levels, price);
    if HasLevel(levels, price) then levels[i := Level(price, levels[i].orders + [e])]
    else levels[..i] + [Level(price, [e])] + levels[i..]
  }

  /** Replace the queue of level `i`; a level whose queue became empty disappears. */
  function SetQueue(levels: seq<Level>, i: nat, q: seq<Entry>): seq<Level>
    requires i < |levels|
  {
    if q == [] then RemoveAt(levels, i) else levels[i := Level(levels[i].price, q)]
  }

  /** Position of the first entry with this id. */
  function FirstEntry(q: seq<Entry>, id: OrderId): (r: Option<nat>)
    ensures r.Some? ==> r.value < |q| && q[r.value].id == id
    ensures r.Some? ==> forall j :: 0 <= j < r.value ==> q[j].id != id
    ensures r.None? ==> forall j :: 0 <= j < |q| ==> q[j].id != id
  {
    if q == [] then None
    else if q[0].id == id then Some(0)
    else
      var r := FirstEntry(q[1..], id);
      if r.Some? then Some(r.value + 1) else None
  }

  /** Position of the last entry with this id. */
  function LastEntry(q: seq<Entry>, id: OrderId): (r: Option<nat>)
    ensures r.Some? ==> r.value < |q| && q[r.value].id == id
    ensures r.Some? ==> forall j :: r.value < j < |q| ==> q[j].id != id
    ensures r.None? ==> forall j :: 0 <= j < |q| ==> q[j].id != id
  {
    if q == [] then None
    else if q[|q| - 1].id == id then Some(|q| - 1)
    else LastEntry(q[..|q| - 1], id)
  }

  /** The side without the order, or None when no order with this id rests at this price. */
  function CancelIn(levels: seq<Level>, price: Price, id: OrderId): Option<seq<Level>> {
    if !HasLevel(levels, price) then None
    else
      var i := LevelIndex(levels, price);
      var k := LastEntry(levels[i].orders, id);
      if k.None? then None else Some(SetQueue(levels, i, RemoveAt(levels[i].orders, k.value)))
  }

  /** The queue with entry `k` shrunk; an entry shrunk to nothing is removed. */
  function Shrink(q: seq<Entry>, k: nat, reduction: Volume): seq<Entry>
    requires k < |q|
  {
    if reduction >= q[k].volume then RemoveAt(q, k) else q[k := q[k].(volume := q[k].volume - reduction)]
  }

  /** The side with the order shrunk, or None when no order with this id rests at this price. */
  function ModifyIn(levels: seq<Level>, price: Price, id: OrderId, reduction: Volume): Option<seq<Level>> {
    if !HasLevel(levels, price) then None
    else
      var i := LevelIndex(levels, price);
      var k := FirstEntry(levels[i].orders, id);
      if k.None? then None else Some(SetQueue(levels, i, Shrink(levels[i].orders, k.value, reduction)))
  }

  function Cancel(book: Book, c: OrderCancellation): Result<Book, CancellationError> {
    match CancelIn(book.Side(c.side), c.price, c.orderId)
    case None => Err(CancelAlreadyFilled)
    case Some(levels) => Ok(book.WithSide(c.side, levels))
  }

  function Modify(book: Book, m: OrderModification): Result<Book, ModificationError> {
    match ModifyIn(book.Side(m.side), m.price, m.orderId, m.reduction)
    case None => Err(OrderNotFound)
    case Some(levels) => Ok(book.WithSide(m.side, levels))
  }

  // ---- matching an incoming order ----

  /** May the incoming order trade at this resting price? */
  predicate Crosses(o: OrderInsertion, price: Price) {
    o.orderType.Market? || (if o.side.Bid? then price <= o.price else price >= o.price)
  }

  datatype QueueFill = QueueFill(queue: seq<Entry>, trades: seq<ObTransaction>, left: Volume, selfTrade: bool)

  /** Trade `vol` against one price's queue. A self-trade is noticed only after the
      front entry's volume has been reduced. */
  function FillQueue(q: seq<Entry>, price: Price, o: OrderInsertion, vol: Volume): QueueFill
    decreases |q|
  {
    if q == [] then QueueFill([], [], vol, false)
    else
      var t := Min(vol, q[0].volume);
      var front := q[0].(volume := q[0].volume - t);
      if q[0].account == o.account then QueueFill([front] + q[1..], [], vol - t, true)
      else
        var trade := ObTransaction(price, t, o.side, q[0].id, o.id);
        if vol == t then QueueFill(if front.volume == 0 then q[1..] else [front] + q[1..], [trade], 0, false)
        else
          var r := FillQueue(q[1..], price, o, vol - t);
          r.(trades := [trade] + r.trades)
  }

  datatype Swept = Swept(levels: seq<Level>, trades: seq<ObTransaction>, left: Volume, selfTrade: bool)

  /** Trade `vol` against one side, best level first. Exhausted levels go away, unless
      a self-trade ends the sweep: then they stay behind with an empty queue. */
  function Sweep(side: Side, levels: seq<Level>, o: OrderInsertion, vol: Volume): Swept
    decreases |levels|
  {
    if levels == [] || !Crosses(o, Best(side, levels).price) then Swept(levels, [], vol, false)
    else
      var best := Best(side, levels);
      var rest := Worse(side, levels);
      var f := FillQueue(best.orders, best.price, o, vol);
      if f.selfTrade || f.left == 0 then
        Swept(if f.queue == [] then rest else PutBest(side, Level(best.price, f.queue), rest),
              f.trades, f.left, f.selfTrade)
      else
        var r := Sweep(side, rest, o, f.left);
        Swept(if r.selfTrade then PutBest(side, Level(best.price, []), r.levels) else r.levels,
              f.trades + r.trades, r.left, r.selfTrade)
  }

  // ---- volume checks before a fill-or-kill or market order ----

  function QueueVolume(q: seq<Entry>): nat {
    if q == [] then 0 else QueueVolume(q[..|q| - 1]) + q[|q| - 1].volume
  }

  function TotalVolume(levels: seq<Level>): nat {
    if levels == [] then 0 else TotalVolume(levels[..|levels| - 1]) + QueueVolume(levels[|levels| - 1].orders)
  }

  predicate HasEntry(levels: seq<Level>) {
    exists i :: 0 <= i < |levels| && levels[i].orders != []
  }

  /** The levels a volume check looks at: it scans from the lowest price, on both
      sides, and stops at the first price the order cannot trade at. */
  function Scanned(levels: seq<Level>, o: OrderInsertion): (r: seq<Level>)
    ensures r <= levels
  {
    if levels == [] || !Crosses(o, levels[0].price) then [] else [levels[0]] + Scanned(levels[1..], o)
  }

  predicate EnoughVolume(levels: seq<Level>, o: OrderInsertion) {
    HasEntry(Scanned(levels, o)) && TotalVolume(Scanned(levels, o)) >= o.volume
  }

  // ---- inserting an order ----

  datatype Inserted = Inserted(
    result: Result<(Status, Option<Price>), InsertionError>, book: Book, trades: seq<ObTransaction>)

  /** Price of the trade that filled the order; none when the order was not filled by a trade. */
  function LastPrice(trades: seq<ObTransaction>, left: Volume): Option<Price> {
    if left == 0 && trades != [] then Some(trades[|trades| - 1].price) else None
  }

  function EntryOf(o: OrderInsertion, volume: Volume): Entry {
    Entry(o.id, o.account, volume)
  }

  /** Insert an order: check the volume if its type asks for it, trade, rest what is left. */
  function Insert(book: Book, o: OrderInsertion): Inserted {
    var resting := o.side.Opposite();
    if o.orderType.FillOrKill? && !EnoughVolume(book.Side(resting), o) then Inserted(Err(OrderKilled), book, [])
    else if o.orderType.Market? && !EnoughVolume(book.Side(resting), o) then Inserted(Err(InadequateVolume), book, [])
    else
      var s := Sweep(resting, book.Side(resting), o, o.volume);
      var swept := book.WithSide(resting, s.levels);
      if s.selfTrade then Inserted(Err(SelfTrade), swept, s.trades)
      else if s.left > 0 then
        var own := RestEntry(swept.Side(o.side), o.price, EntryOf(o, s.left));
        Inserted(Ok((AwaitingFill, LastPrice(s.trades, s.left))), swept.WithSide(o.side, own), s.trades)
      else Inserted(Ok((Filled, LastPrice(s.trades, s.left))), swept, s.trades)
  }
}
