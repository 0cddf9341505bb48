/**
 The order book as the exchange runs it: two ordered maps updated in place by nested
 loops. Every operation is proved equal to its function in `BookSpec`.
 */
module Orderbooks {
  import opened Types
  import opened Seqs
  import opened BookSpec
  import opened Views

  /** The buffer that collects the trades of an insertion. */
  class TransactionBuffer {
    var items: seq<ObTransaction>

    constructor ()
      ensures items == []
    {
      items := [];
    }

    method Push(tx: ObTransaction)
      modifies this
      ensures items == old(items) + [tx]
    {
      items := items + [tx];
    }

    method Pop() returns (r: Option<ObTransaction>)
      modifies this
      ensures old(items) == [] ==> r == None && items == []
      ensures old(items) != [] ==> r == Some(old(items)[|old(items)| - 1]) && items == old(items)[..|old(items)| - 1]
    {
      if items == [] {
        r := None;
      } else {
        r := Some(items[|items| - 1]);
        items := items[..|items| - 1];
      }
    }
  }

  // ---- the matching loops against the sweep ----

  /** A queue fill that started with `trades` and goes on as `rest`. */
  function ResumeFill(trades: seq<ObTransaction>, rest: QueueFill): QueueFill {
    rest.(trades := trades + rest.trades)
  }

  /** A sweep that exhausted the levels `gone`, found `trades`, and goes on as `rest`. */
  function ResumeSweep(side: Side, gone: seq<Level>, trades: seq<ObTransaction>, rest: Swept): Swept {
    Swept(if rest.selfTrade then Join(side, gone, rest.levels) else rest.levels,
          trades + rest.trades, rest.left, rest.selfTrade)
  }

  lemma JoinAssociative<T>(side: Side, a: seq<T>, b: seq<T>, c: seq<T>)
    ensures Join(side, a, Join(side, b, c)) == Join(side, Join(side, a, b), c)
  {}

  /** One exhausted level further, the sweep is still the same sweep. */
  lemma ResumeNext(side: Side, gone: seq<Level>, trades: seq<ObTransaction>, levels: seq<Level>, o: OrderInsertion,
                   vol: Volume)
    requires levels != [] && Crosses(o, Best(side, levels).price)
    requires var f := FillQueue(Best(side, levels).orders, Best(side, levels).price, o, vol);
             !f.selfTrade && f.left > 0
    ensures var best := Best(side, levels);
            var f := FillQueue(best.orders, best.price, o, vol);
            && f.queue == []
            && ResumeSweep(side, gone, trades, Sweep(side, levels, o, vol))
               == ResumeSweep(side, Join(side, gone, [Level(best.price, [])]), trades + f.trades,
                              Sweep(side, Worse(side, levels), o, f.left))
  {
    var best := Best(side, levels);
    var f := FillQueue(best.orders, best.price, o, vol);
    var r := Sweep(side, Worse(side, levels), o, f.left);
    ExhaustedQueue(best.orders, best.price, o, vol);
    JoinAssociative(side, gone, [Level(best.price, [])], r.levels);
    ConcatAssociative(trades, f.trades, r.trades);
  }

  lemma {:induction false} ExhaustedQueue(q: seq<Entry>, price: Price, o: OrderInsertion, vol: Volume)
    ensures var f := FillQueue(q, price, o, vol);
            && (!f.selfTrade && f.left > 0 ==> f.queue == [])
            && (f.left == 0 && vol > 0 && !f.selfTrade ==> f.trades != [])
            && (f.trades != [] ==> f.trades[|f.trades| - 1].price == price)
            && (f.selfTrade ==> f.queue != [])
    decreases |q|
  {
    if q != [] && q[0].account != o.account && Min(vol, q[0].volume) != vol {
      ExhaustedQueue(q[1..], price, o, vol - q[0].volume);
    }
  }

  /** Where the level in front of `todo` sits when `gone` precedes it. */
  function Position(side: Side, n: nat, visited: nat): nat
    requires visited < n
  {
    if side.Ask? then visited else n - 1 - visited
  }

  lemma PositionOfBest(side: Side, gone: seq<Level>, todo: seq<Level>, level: Level)
    requires todo != []
    ensures var all := Join(side, gone, todo);
            && |all| == |gone| + |todo|
            && var at := Position(side, |all|, |gone|);
            && all[at] == Best(side, todo)
            && all[at := level] == Join(side, gone, PutBest(side, level, Worse(side, todo)))
  {}

  /** What is left of a side after its `n` best levels are removed. */
  function DropBest(side: Side, levels: seq<Level>, n: nat): seq<Level>
    requires n <= |levels|
  {
    if side.Ask? then levels[n..] else levels[..|levels| - n]
  }

  lemma DropJoined(side: Side, gone: seq<Level>, todo: seq<Level>)
    ensures |Join(side, gone, todo)| == |gone| + |todo|
    ensures DropBest(side, Join(side, gone, todo), |gone|) == todo
  {}

  /** The levels exhausted, and those still to visit, after the best of `todo` was filled. */
  function GoneAfter(side: Side, gone: seq<Level>, todo: seq<Level>, f: QueueFill): seq<Level>
    requires todo != []
  {
    if f.queue == [] then Join(side, gone, [Level(Best(side, todo).price, [])]) else gone
  }

  function TodoAfter(side: Side, todo: seq<Level>, f: QueueFill): seq<Level>
    requires todo != []
  {
    if f.queue == [] then Worse(side, todo)
    else PutBest(side, Level(Best(side, todo).price, f.queue), Worse(side, todo))
  }

  lemma ResumeStop(side: Side, gone: seq<Level>, trades: seq<ObTransaction>, r: Swept)
    ensures ResumeSweep(side, gone, trades, r)
         == Swept(if r.selfTrade then Join(side, gone, r.levels) else r.levels, trades + r.trades, r.left, r.selfTrade)
  {}

  lemma ResumeFromStart(side: Side, levels: seq<Level>, s: Swept)
    ensures Join(side, [], levels) == levels
    ensures ResumeSweep(side, [], [], s) == s
  {
    assert Join(side, [], s.levels) == s.levels;
    assert [] + s.trades == s.trades;
  }

  /** One level filled, the rest of the sweep goes on from there, or ends there. */
  lemma ResumeFilled(side: Side, gone: seq<Level>, trades: seq<ObTransaction>, todo: seq<Level>, o: OrderInsertion,
                     vol: Volume)
    requires todo != [] && Crosses(o, Best(side, todo).price)
    requires !FillQueue(Best(side, todo).orders, Best(side, todo).price, o, vol).selfTrade
    ensures var best := Best(side, todo);
            var f := FillQueue(best.orders, best.price, o, vol);
            var gone', todo' := GoneAfter(side, gone, todo, f), TodoAfter(side, todo, f);
            && |gone'| == |gone| + (if f.queue == [] then 1 else 0)
            && |gone'| + |todo'| == |gone| + |todo|
            && Join(side, gone, PutBest(side, Level(best.price, f.queue), Worse(side, todo)))
               == Join(side, gone', todo')
            && (f.left > 0 ==>
                  && f.queue == []
                  && ResumeSweep(side, gone, trades, Sweep(side, todo, o, vol))
                     == ResumeSweep(side, gone', trades + f.trades, Sweep(side, todo', o, f.left)))
            && (f.left == 0 ==>
                  ResumeSweep(side, gone, trades, Sweep(side, todo, o, vol))
                  == Swept(todo', trades + f.trades, 0, false))
  {
    var best := Best(side, todo);
    var f := FillQueue(best.orders, best.price, o, vol);
    JoinAssociative(side, gone, [Level(best.price, [])], Worse(side, todo));
    if f.left > 0 {
      ResumeNext(side, gone, trades, todo, o, vol);
    }
  }

  class Orderbook {
    var bids: seq<Level>
    var asks: seq<Level>

    ghost function Model(): Book
      reads this
    {
      Book(bids, asks)
    }

    constructor ()
      ensures Model() == EMPTY_BOOK
    {
      bids, asks := [], [];
    }

    function Levels(side: Side): seq<Level>
      reads this
    {
      if side.Bid? then bids else asks
    }

    method SetLevels(side: Side, levels: seq<Level>)
      modifies this
      ensures Model() == old(Model()).WithSide(side, levels)
    {
      if side.Bid? {
        bids := levels;
      } else {
        asks := levels;
      }
    }

    /** Insert an order without matching. */
    method InsertLimitOrderNoMatching(o: OrderInsertion)
      modifies this
      ensures Model() == old(Model()).WithSide(o.side, RestEntry(old(Levels(o.side)), o.price, EntryOf(o, o.volume)))
    {
      var levels := Levels(o.side);
      var i := LevelIndex(levels, o.price);
      if i < |levels| && levels[i].price == o.price {
        SetLevels(o.side, levels[i := Level(o.price, levels[i].orders + [EntryOf(o, o.volume)])]);
      } else {
        SetLevels(o.side, levels[..i] + [Level(o.price, [EntryOf(o, o.volume)])] + levels[i..]);
      }
    }

    method CancelOrder(c: OrderCancellation) returns (r: Result<(), CancellationError>)
      modifies this
      ensures match Cancel(old(Model()), c)
              case Ok(book) => r == Ok(()) && Model() == book
              case Err(e) => r == Err(e) && Model() == old(Model())
    {
      hide LastEntry;
      var levels := Levels(c.side);
      var i := LevelIndex(levels, c.price);
      if i < |levels| && levels[i].price == c.price {
        var q := levels[i].orders;
        var index: Option<nat> := None;
        LastEntryNone(c.orderId);
        for j := 0 to |q|
          invariant index == LastEntry(q[..j], c.orderId)
          invariant Model() == old(Model())
        {
          LastEntryNext(q, j, c.orderId);
          if q[j].id == c.orderId {
            index := Some(j);
          }
        }
        assert q[..|q|] == q;
        if index.Some? {
          var left := RemoveAt(q, index.value);
          if left == [] {
            SetLevels(c.side, RemoveAt(levels, i));
          } else {
            SetLevels(c.side, levels[i := Level(levels[i].price, left)]);
          }
          return Ok(());
        }
      }
      return Err(CancelAlreadyFilled);
    }

    method ModifyOrder(c: OrderModification) returns (r: Result<(), ModificationError>)
      modifies this
      ensures match Modify(old(Model()), c)
              case Ok(book) => r == Ok(()) && Model() == book
              case Err(e) => r == Err(e) && Model() == old(Model())
    {
      var levels := Levels(c.side);
      var i := LevelIndex(levels, c.price);
      if i < |levels| && levels[i].price == c.price {
        var q := levels[i].orders;
        var removeIndex: Option<nat> := None;
        var j := 0;
        while j < |q|
          invariant 0 <= j <= |q| && removeIndex.None?
          invariant forall k :: 0 <= k < j ==> q[k].id != c.orderId
        {
          if q[j].id == c.orderId {
            FirstEntryIs(q, c.orderId, j);
            if c.reduction >= q[j].volume {
              removeIndex := Some(j);
            } else {
              var shrunk := q[j := q[j].(volume := q[j].volume - c.reduction)];
              SetLevels(c.side, levels[i := Level(levels[i].price, shrunk)]);
              return Ok(());
            }
            break;
          }
          j := j + 1;
        }
        if removeIndex.Some? {
          var left := RemoveAt(q, removeIndex.value);
          if left == [] {
            SetLevels(c.side, RemoveAt(levels, i));
          } else {
            SetLevels(c.side, levels[i := Level(levels[i].price, left)]);
          }
          return Ok(());
        }
      }
      return Err(OrderNotFound);
    }

    /** Replace the queue of the level at position `at`. */
    method SetOrders(side: Side, at: nat, q: seq<Entry>)
      requires at < |Levels(side)|
      modifies this
      ensures Levels(side) == old(Levels(side))[at := Level(old(Levels(side))[at].price, q)]
      ensures Levels(side.Opposite()) == old(Levels(side.Opposite()))
    {
      SetLevels(side, Levels(side)[at := Level(Levels(side)[at].price, q)]);
    }

    /** The inner matching loop: trade with the orders of one level, front first. */
    method FillLevel(side: Side, at: nat, o: OrderInsertion, volume: Volume, buf: TransactionBuffer)
      returns (left: Volume, selfTrade: bool, lastTradedPrice: Option<Price>)
      requires at < |Levels(side)|
      modifies this, buf
      ensures var level := old(Levels(side)[at]);
              var f := FillQueue(level.orders, level.price, o, volume);
              && Levels(side) == old(Levels(side))[at := Level(level.price, f.queue)]
              && Levels(side.Opposite()) == old(Levels(side.Opposite()))
              && buf.items == old(buf.items) + f.trades
              && left == f.left && selfTrade == f.selfTrade
              && (!selfTrade ==> lastTradedPrice == if left == 0 && f.trades != [] then Some(level.price) else None)
    {
      hide FillQueue, ResumeFill, Min, LastPrice;
      ghost var levels0, trades: seq<ObTransaction> := Levels(side), [];
      var price := Levels(side)[at].price;
      ghost var f := FillQueue(levels0[at].orders, price, o, volume);
      FillStart(f);
      left, selfTrade, lastTradedPrice := volume, false, None;
      while Levels(side)[at].orders != []
        invariant at < |Levels(side)|
        invariant Levels(side) == levels0[at := Level(price, Levels(side)[at].orders)]
        invariant Levels(side.Opposite()) == old(Levels(side.Opposite()))
        invariant buf.items == old(buf.items) + trades
        invariant f == ResumeFill(trades, FillQueue(Levels(side)[at].orders, price, o, left))
        invariant left == 0 ==> trades == []
        invariant !selfTrade && lastTradedPrice == None
        decreases |Levels(side)[at].orders|
      {
        var q := Levels(side)[at].orders;
        FillStep(q, price, o, left, trades);
        var open := q[0];
        var t := Min(left, open.volume);
        var reduced := open.(volume := open.volume - t);
        SetOrders(side, at, [reduced] + q[1..]);
        left := left - t;
        if o.account == open.account {
          selfTrade := true;
          return;
        }
        var tx := ObTransaction(price, t, o.side, open.id, o.id);
        buf.Push(tx);
        trades := trades + [tx];
        if reduced.volume == 0 {
          SetOrders(side, at, q[1..]);
        }
        if left <= 0 {
          lastTradedPrice := Some(price);
          return;
        }
      }
      FillNothing(price, o, left, trades);
    }

    /** The outer matching loop: visit the levels of the opposite side, best first, and count
        those that were exhausted; they are still in the map when the loop ends. */
    method MatchLevels(o: OrderInsertion, buf: TransactionBuffer)
      returns (remaining: Volume, selfTrade: bool, lastTradedPrice: Option<Price>, deletions: nat)
      modifies this, buf
      ensures var resting := o.side.Opposite();
              var s := Sweep(resting, old(Levels(resting)), o, o.volume);
              && Levels(o.side) == old(Levels(o.side))
              && buf.items == old(buf.items) + s.trades
              && remaining == s.left && selfTrade == s.selfTrade
              && (selfTrade ==> Levels(resting) == s.levels)
              && (!selfTrade ==>
                    && deletions <= |Levels(resting)|
                    && DropBest(resting, Levels(resting), deletions) == s.levels
                    && lastTradedPrice == LastPrice(s.trades, s.left))
    {
      hide Sweep, FillQueue, Join, PutBest, Worse, Best, DropBest, ResumeSweep;
      var resting := o.side.Opposite();
      ghost var swept := Sweep(resting, Levels(resting), o, o.volume);
      ghost var gone: seq<Level>, todo, trades: seq<ObTransaction> := [], Levels(resting), [];
      ResumeFromStart(resting, todo, swept);
      remaining, selfTrade, lastTradedPrice, deletions := o.volume, false, None, 0;
      var visited := 0;
      while visited < |Levels(resting)|
        invariant 0 <= visited <= |Levels(resting)| && visited == |gone| == deletions && !selfTrade
        invariant Levels(resting) == Join(resting, gone, todo) && |Levels(resting)| == |gone| + |todo|
        invariant Levels(o.side) == old(Levels(o.side))
        invariant buf.items == old(buf.items) + trades
        invariant swept == ResumeSweep(resting, gone, trades, Sweep(resting, todo, o, remaining))
        invariant visited > 0 ==> remaining > 0
        invariant visited == 0 ==> trades == []
        invariant lastTradedPrice == None
        decreases |Levels(resting)| - visited
      {
        var at := Position(resting, |Levels(resting)|, visited);
        var price := Levels(resting)[at].price;
        PositionOfBest(resting, gone, todo, Levels(resting)[at]);
        SweepStep(resting, todo, o, remaining);
        if !o.orderType.Market? {
          var bidPriceTooHigh := o.side.Bid? && price > o.price;
          var askPriceTooLow := o.side.Ask? && price < o.price;
          if bidPriceTooHigh || askPriceTooLow {
            break;
          }
        }
        ghost var f := FillQueue(Levels(resting)[at].orders, price, o, remaining);
        PositionOfBest(resting, gone, todo, Level(price, f.queue));
        ExhaustedQueue(Levels(resting)[at].orders, price, o, remaining);
        var left, self, last := FillLevel(resting, at, o, remaining, buf);
        ConcatAssociative(old(buf.items), trades, f.trades);
        if self {
          ResumeStop(resting, gone, trades, Sweep(resting, todo, o, remaining));
          remaining, selfTrade := left, true;
          return;
        }
        ResumeFilled(resting, gone, trades, todo, o, remaining);
        gone, todo := GoneAfter(resting, gone, todo, f), TodoAfter(resting, todo, f);
        trades := trades + f.trades;
        remaining, lastTradedPrice := left, last;
        if Levels(resting)[at].orders == [] {
          deletions := deletions + 1;
        }
        if remaining <= 0 {
          break;
        }
        visited := visited + 1;
      }
      SweepNothing(resting, o, remaining);
      ResumeStop(resting, gone, trades, Swept(todo, [], remaining, false));
      assert trades + [] == trades;
      DropJoined(resting, gone, todo);
    }

    /** Remove as many levels from the best end as were exhausted. */
    method PopBest(side: Side, n: nat)
      requires n <= |Levels(side)|
      modifies this
      ensures Levels(side) == DropBest(side, old(Levels(side)), n)
      ensures Levels(side.Opposite()) == old(Levels(side.Opposite()))
    {
      for d := 0 to n
        invariant Levels(side) == DropBest(side, old(Levels(side)), d)
        invariant Levels(side.Opposite()) == old(Levels(side.Opposite()))
      {
        SetLevels(side, Worse(side, Levels(side)));
      }
    }

    /** Match the order against the opposite side, best level first, and rest what is left. */
    method InsertOrder(o: OrderInsertion, buf: TransactionBuffer)
      returns (r: Result<(Status, Option<Price>), InsertionError>)
      modifies this, buf
      ensures var ins := Insert(old(Model()), o);
              Model() == ins.book && buf.items == old(buf.items) + ins.trades && r == ins.result
    {
      hide Sweep, Insert, RestEntry, EnoughVolume, DropBest;
      var resting := o.side.Opposite();
      InsertChecked(Model(), o);
      if o.orderType.FillOrKill? {
        var enough := EnoughVolumeFok(o);
        if !enough {
          return Err(OrderKilled);
        }
      } else if o.orderType.Market? {
        var enough := EnoughVolumeMarket(o);
        if !enough {
          return Err(InadequateVolume);
        }
      }
      InsertSwept(Model(), o);
      var remaining, selfTrade, lastTradedPrice, deletions := MatchLevels(o, buf);
      if selfTrade {
        return Err(SelfTrade);
      }
      PopBest(resting, deletions);
      if remaining > 0 {
        InsertLimitOrderNoMatching(o.(volume := remaining));
        return Ok((AwaitingFill, lastTradedPrice));
      } else {
        return Ok((Filled, lastTradedPrice));
      }
    }

    /** Is there enough volume for a fill-or-kill order? The scan goes up in price on both sides. */
    method EnoughVolumeFok(o: OrderInsertion) returns (enough: bool)
      requires o.orderType.FillOrKill?
      ensures enough <==> EnoughVolume(Levels(o.side.Opposite()), o)
    {
      hide EnoughVolume, TotalVolume, HasEntry;
      EmptyPrefix(Levels(o.side.Opposite()));
      var available: nat := 0;
      var levels := Levels(o.side.Opposite());
      var i := 0;
      while i < |levels|
        invariant 0 <= i <= |levels| && AllCross(levels[..i], o)
        invariant available == TotalVolume(levels[..i])
        invariant HasEntry(levels[..i]) ==> available < o.volume
      {
        var bidPriceTooHigh := o.side.Bid? && levels[i].price > o.price;
        var askPriceTooLow := o.side.Ask? && levels[i].price < o.price;
        if bidPriceTooHigh || askPriceTooLow {
          break;
        }
        NextLevel(levels, i);
        var q := levels[i].orders;
        for j := 0 to |q|
          invariant available == TotalVolume(levels[..i]) + QueueVolume(q[..j])
          invariant j > 0 || HasEntry(levels[..i]) ==> available < o.volume
        {
          assert q[..j + 1][..j] == q[..j];
          available := available + q[j].volume;
          if available >= o.volume {
            EnoughFound(levels, o, i, j);
            return true;
          }
        }
        assert q[..|q|] == q;
        i := i + 1;
      }
      ScannedIs(levels, o, i);
      NotEnough(levels, o, i);
      return false;
    }

    /** Is there enough volume for a market order? */
    method EnoughVolumeMarket(o: OrderInsertion) returns (enough: bool)
      requires o.orderType.Market?
      ensures enough <==> EnoughVolume(Levels(o.side.Opposite()), o)
    {
      hide EnoughVolume, TotalVolume, HasEntry;
      EmptyPrefix(Levels(o.side.Opposite()));
      var available: nat := 0;
      var levels := Levels(o.side.Opposite());
      for i := 0 to |levels|
        invariant available == TotalVolume(levels[..i])
        invariant HasEntry(levels[..i]) ==> available < o.volume
      {
        NextLevel(levels, i);
        var q := levels[i].orders;
        for j := 0 to |q|
          invariant available == TotalVolume(levels[..i]) + QueueVolume(q[..j])
          invariant j > 0 || HasEntry(levels[..i]) ==> available < o.volume
        {
          assert q[..j + 1][..j] == q[..j];
          available := available + q[j].volume;
          if available >= o.volume {
            EnoughFound(levels, o, i, j);
            return true;
          }
        }
        assert q[..|q|] == q;
      }
      ScannedIs(levels, o, |levels|);
      NotEnough(levels, o, |levels|);
      return false;
    }

    /** The best price of each side with its volume. */
    method GetL1() returns (l1: L1)
      ensures l1 == L1Of(Model())
    {
      var bestBid: Option<Aggregate> := None;
      if bids != [] {
        var volume := SumVolumes(bids[|bids| - 1].orders);
        bestBid := Some(Aggregate(bids[|bids| - 1].price, volume));
      }
      var bestAsk: Option<Aggregate> := None;
      if asks != [] {
        var volume := SumVolumes(asks[0].orders);
        bestAsk := Some(Aggregate(asks[0].price, volume));
      }
      l1 := L1(bestBid, bestAsk);
    }

    /** Every price of each side with its volume. */
    method GetL2() returns (l2: L2)
      ensures l2 == L2Of(Model())
    {
      var bidLines := Aggregates(bids);
      var askLines := Aggregates(asks);
      l2 := L2(askLines, bidLines);
    }
  }

  method SumVolumes(q: seq<Entry>) returns (volume: nat)
    ensures volume == QueueVolume(q)
  {
    volume := 0;
    for i := 0 to |q|
      invariant volume == QueueVolume(q[..i])
    {
      assert q[..i + 1][..i] == q[..i];
      volume := volume + q[i].volume;
    }
    assert q[..|q|] == q;
  }

  method Aggregates(levels: seq<Level>) returns (lines: seq<Aggregate>)
    ensures lines == Depth(levels)
  {
    lines := [];
    for i := 0 to |levels|
      invariant lines == Depth(levels)[..i]
    {
      var volume := SumVolumes(levels[i].orders);
      lines := lines + [Aggregate(levels[i].price, volume)];
    }
  }

  // ---- the volume checks ----

  predicate AllCross(levels: seq<Level>, o: OrderInsertion) {
    forall i :: 0 <= i < |levels| ==> Crosses(o, levels[i].price)
  }

  lemma {:induction false} ScannedIs(levels: seq<Level>, o: OrderInsertion, k: nat)
    requires k <= |levels| && AllCross(levels[..k], o)
    requires k < |levels| ==> !Crosses(o, levels[k].price)
    ensures Scanned(levels, o) == levels[..k]
  {
    if k > 0 {
      assert levels[..k][0] == levels[0];
      assert levels[1..][..k - 1] == levels[..k][1..];
      ScannedIs(levels[1..], o, k - 1);
      assert levels[..k] == [levels[0]] + levels[1..][..k - 1];
    }
  }

  lemma EmptyPrefix(levels: seq<Level>)
    ensures levels[..0] == [] && TotalVolume(levels[..0]) == 0 && !HasEntry(levels[..0])
  {}

  lemma NotEnough(levels: seq<Level>, o: OrderInsertion, k: nat)
    requires k <= |levels| && Scanned(levels, o) == levels[..k]
    requires HasEntry(levels[..k]) ==> TotalVolume(levels[..k]) < o.volume
    ensures !EnoughVolume(levels, o)
  {}

  lemma NextLevel(levels: seq<Level>, i: nat)
    requires i < |levels|
    ensures levels[..i + 1] == levels[..i] + [levels[i]]
    ensures TotalVolume(levels[..i + 1]) == TotalVolume(levels[..i]) + QueueVolume(levels[i].orders)
    ensures HasEntry(levels[..i + 1]) <==> HasEntry(levels[..i]) || levels[i].orders != []
  {
    var a, b := levels[..i], levels[..i + 1];
    assert b[..i] == a;
    if HasEntry(a) {
      var k :| 0 <= k < |a| && a[k].orders != [];
      assert b[k].orders != [];
    }
    if levels[i].orders != [] { assert b[i].orders != []; }
  }

  lemma {:induction false} TotalVolumeGrows(levels: seq<Level>, i: nat)
    requires i <= |levels|
    ensures TotalVolume(levels[..i]) <= TotalVolume(levels)
  {
    if i < |levels| {
      var n := |levels| - 1;
      TotalVolumeGrows(levels[..n], i);
      assert levels[..n][..i] == levels[..i];
    } else {
      assert levels[..i] == levels;
    }
  }

  lemma {:induction false} QueueVolumeGrows(q: seq<Entry>, j: nat)
    requires j <= |q|
    ensures QueueVolume(q[..j]) <= QueueVolume(q)
  {
    if j < |q| {
      var n := |q| - 1;
      QueueVolumeGrows(q[..n], j);
      assert q[..n][..j] == q[..j];
    } else {
      assert q[..j] == q;
    }
  }

  lemma {:induction false} ScannedReaches(levels: seq<Level>, o: OrderInsertion, i: nat)
    requires i < |levels| && AllCross(levels[..i + 1], o)
    ensures i < |Scanned(levels, o)| && Scanned(levels, o)[..i + 1] == levels[..i + 1]
  {
    assert levels[..i + 1][0] == levels[0];
    if i > 0 {
      assert levels[1..][..i] == levels[..i + 1][1..];
      ScannedReaches(levels[1..], o, i - 1);
      assert levels[..i + 1] == [levels[0]] + levels[1..][..i];
    }
  }

  /** Enough volume among the entries seen so far is enough volume. */
  lemma EnoughFound(levels: seq<Level>, o: OrderInsertion, i: nat, j: nat)
    requires i < |levels| && j < |levels[i].orders|
    requires AllCross(levels[..i + 1], o)
    requires TotalVolume(levels[..i]) + QueueVolume(levels[i].orders[..j + 1]) >= o.volume
    ensures EnoughVolume(levels, o)
  {
    var scanned := Scanned(levels, o);
    ScannedReaches(levels, o, i);
    assert scanned[i] == scanned[..i + 1][i] == levels[..i + 1][i] == levels[i];
    NextLevel(levels, i);
    QueueVolumeGrows(levels[i].orders, j + 1);
    TotalVolumeGrows(scanned, i + 1);
  }

  /** The running sum of a volume check never exceeds the volume of the side, so it fits 32 bits when that does. */
  lemma RunningSumBounded(levels: seq<Level>, i: nat, j: nat)
    requires i < |levels| && j <= |levels[i].orders|
    ensures TotalVolume(levels[..i]) + QueueVolume(levels[i].orders[..j]) <= TotalVolume(levels)
  {
    NextLevel(levels, i);
    QueueVolumeGrows(levels[i].orders, j);
    TotalVolumeGrows(levels, i + 1);
  }

  /** Adding up a level in 32 bits never overflows on the way exactly when the level's volume fits. */
  lemma LevelSumFitsIff(q: seq<Entry>)
    ensures (forall j :: 0 <= j <= |q| ==> QueueVolume(q[..j]) <= 0xFFFF_FFFF) <==> QueueVolume(q) <= 0xFFFF_FFFF
  {
    assert q[..|q|] == q;
    forall j: nat | j <= |q| ensures QueueVolume(q[..j]) <= QueueVolume(q) {
      QueueVolumeGrows(q, j);
    }
  }

  // ---- one insertion, unfolded ----

  lemma InsertChecked(book: Book, o: OrderInsertion)
    ensures var levels := book.Side(o.side.Opposite());
            && (o.orderType.FillOrKill? && !EnoughVolume(levels, o)
               ==> Insert(book, o) == Inserted(Err(OrderKilled), book, []))
            && (o.orderType.Market? && !EnoughVolume(levels, o)
               ==> Insert(book, o) == Inserted(Err(InadequateVolume), book, []))
  {}

  lemma InsertSwept(book: Book, o: OrderInsertion)
    requires o.orderType.Limit? || EnoughVolume(book.Side(o.side.Opposite()), o)
    ensures var resting := o.side.Opposite();
            var s := Sweep(resting, book.Side(resting), o, o.volume);
            var swept := book.WithSide(resting, s.levels);
            Insert(book, o)
            == if s.selfTrade then Inserted(Err(SelfTrade), swept, s.trades)
               else if s.left > 0 then
                 Inserted(Ok((AwaitingFill, LastPrice(s.trades, s.left))),
                          swept.WithSide(o.side, RestEntry(book.Side(o.side), o.price, EntryOf(o, s.left))), s.trades)
               else Inserted(Ok((Filled, LastPrice(s.trades, s.left))), swept, s.trades)
  {}

  lemma SweepNothing(side: Side, o: OrderInsertion, vol: Volume)
    ensures Sweep(side, [], o, vol) == Swept([], [], vol, false)
  {}

  lemma SweepStep(side: Side, levels: seq<Level>, o: OrderInsertion, vol: Volume)
    requires levels != []
    ensures var best := Best(side, levels);
            var f := FillQueue(best.orders, best.price, o, vol);
            && (!Crosses(o, best.price) ==> Sweep(side, levels, o, vol) == Swept(levels, [], vol, false))
            && (Crosses(o, best.price) && (f.selfTrade || f.left == 0) ==>
                  Sweep(side, levels, o, vol)
                  == Swept(if f.queue == [] then Worse(side, levels)
                           else PutBest(side, Level(best.price, f.queue), Worse(side, levels)),
                           f.trades, f.left, f.selfTrade))
  {}

  lemma FillNothing(price: Price, o: OrderInsertion, vol: Volume, trades: seq<ObTransaction>)
    ensures ResumeFill(trades, FillQueue([], price, o, vol)) == QueueFill([], trades, vol, false)
  {
    assert trades + [] == trades;
  }

  lemma FillStart(f: QueueFill)
    ensures ResumeFill([], f) == f
  {
    assert [] + f.trades == f.trades;
  }

  /** One round of the inner loop, seen from the whole fill. */
  lemma FillStep(q: seq<Entry>, price: Price, o: OrderInsertion, vol: Volume, trades: seq<ObTransaction>)
    requires q != []
    ensures var t := Min(vol, q[0].volume);
            var reduced := q[0].(volume := q[0].volume - t);
            var tx := ObTransaction(price, t, o.side, q[0].id, o.id);
            var f := ResumeFill(trades, FillQueue(q, price, o, vol));
            if q[0].account == o.account then f == QueueFill([reduced] + q[1..], trades, vol - t, true)
            else if vol == t then
              f == QueueFill(if reduced.volume == 0 then q[1..] else [reduced] + q[1..], trades + [tx], 0, false)
            else reduced.volume == 0 && f == ResumeFill(trades + [tx], FillQueue(q[1..], price, o, vol - t))
  {
    var t := Min(vol, q[0].volume);
    var tx := ObTransaction(price, t, o.side, q[0].id, o.id);
    if q[0].account != o.account && vol != t {
      ConcatAssociative(trades, [tx], FillQueue(q[1..], price, o, vol - t).trades);
    }
  }

  lemma LastEntryNone(id: OrderId)
    ensures LastEntry([], id) == None
  {}

  lemma LastEntryNext(q: seq<Entry>, j: nat, id: OrderId)
    requires j < |q|
    ensures LastEntry(q[..j + 1], id) == if q[j].id == id then Some(j) else LastEntry(q[..j], id)
  {
    assert q[..j + 1][..j] == q[..j];
  }

  lemma {:induction false} FirstEntryIs(q: seq<Entry>, id: OrderId, j: nat)
    requires j < |q| && q[j].id == id && forall k :: 0 <= k < j ==> q[k].id != id
    ensures FirstEntry(q, id) == Some(j)
  {}
}
