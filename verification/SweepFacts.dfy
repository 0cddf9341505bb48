/** Which levels a sweep deletes, in terms of the volume traded at their prices. */
module SweepFacts {
  import opened Types
  import opened Sums
  import opened BookSpec
  import opened Matching
  import opened BookFacts

  function LevelVolume(price: Price): Level -> int {
    (level: Level) => if level.price == price then QueueVolume(level.orders) else 0
  }

  /** The volume resting at a price. */
  function VolumeAt(levels: seq<Level>, price: Price): int {
    SumBy(levels, LevelVolume(price))
  }

  function PricedVolume(price: Price): ObTransaction -> int {
    (tx: ObTransaction) => if tx.price == price then tx.volume else 0
  }

  /** The volume traded at a price. */
  function TradedAt(trades: seq<ObTransaction>, price: Price): int {
    SumBy(trades, PricedVolume(price))
  }

  lemma {:induction false} QueueHead(q: seq<Entry>)
    requires q != []
    ensures QueueVolume(q) == q[0].volume + QueueVolume(q[1..])
  {
    if |q| > 1 {
      QueueHead(q[..|q| - 1]);
      assert q[1..][..|q| - 2] == q[..|q| - 1][1..];
    }
  }

  lemma SingleTrade(trade: ObTransaction, price: Price)
    ensures TradedAt([trade], price) == if trade.price == price then trade.volume else 0
  {
    SumByAppend([], trade, PricedVolume(price));
    assert [] + [trade] == [trade];
  }

  /** A queue gives what is traded at its price. */
  lemma {:induction false} QueueGives(q: seq<Entry>, price: Price, o: OrderInsertion, vol: Volume, p: Price)
    requires !FillQueue(q, price, o, vol).selfTrade
    ensures var f := FillQueue(q, price, o, vol);
            && TradedAt(f.trades, p) == (if p == price then QueueVolume(q) - QueueVolume(f.queue) else 0)
            && (f.left > 0 ==> f.queue == [])
    decreases |q|
  {
    if q != [] {
      var t := Min(vol, q[0].volume);
      var front := q[0].(volume := q[0].volume - t);
      var trade := ObTransaction(price, t, o.side, q[0].id, o.id);
      QueueHead(q);
      SingleTrade(trade, p);
      if vol == t {
        QueueHead([front] + q[1..]);
      } else {
        QueueGives(q[1..], price, o, vol - t, p);
        SumByConcat([trade], FillQueue(q[1..], price, o, vol - t).trades, PricedVolume(p));
      }
    }
  }

  lemma VolumeOfBest(side: Side, levels: seq<Level>, price: Price)
    requires levels != []
    ensures VolumeAt(levels, price) == LevelVolume(price)(Best(side, levels)) + VolumeAt(Worse(side, levels), price)
  {
    if side.Ask? { SumByHead(levels, LevelVolume(price)); }
  }

  /** Without a self-trade every price loses exactly the volume traded at it. */
  lemma {:induction false} SweepTakes(side: Side, levels: seq<Level>, o: OrderInsertion, vol: Volume, price: Price)
    requires !Sweep(side, levels, o, vol).selfTrade
    ensures var s := Sweep(side, levels, o, vol);
            VolumeAt(s.levels, price) == VolumeAt(levels, price) - TradedAt(s.trades, price)
    decreases |levels|
  {
    hide FillQueue;
    if levels != [] && Crosses(o, Best(side, levels).price) {
      var best, rest := Best(side, levels), Worse(side, levels);
      var f := FillQueue(best.orders, best.price, o, vol);
      VolumeOfBest(side, levels, price);
      QueueGives(best.orders, best.price, o, vol, price);
      if f.left == 0 {
        VolumeOfBest(side, PutBest(side, Level(best.price, f.queue), rest), price);
      } else {
        SweepTakes(side, rest, o, f.left, price);
        SumByConcat(f.trades, Sweep(side, rest, o, f.left).trades, PricedVolume(price));
      }
    }
  }

  lemma VolumeOfLevel(levels: seq<Level>, i: nat)
    requires SortedSide(levels) && i < |levels|
    ensures VolumeAt(levels, levels[i].price) == QueueVolume(levels[i].orders)
  {
    var others := levels[..i] + levels[i + 1..];
    SumByWithout(levels, i, LevelVolume(levels[i].price));
    forall j | 0 <= j < |others| ensures LevelVolume(levels[i].price)(others[j]) == 0 {
      assert others[j] == levels[if j < i then j else j + 1];
    }
    SumByZero(others, LevelVolume(levels[i].price));
  }

  lemma NoVolume(levels: seq<Level>, price: Price)
    requires price !in Prices(levels)
    ensures VolumeAt(levels, price) == 0
  {
    forall j | 0 <= j < |levels| ensures LevelVolume(price)(levels[j]) == 0 {
      assert levels[j].price in Prices(levels);
    }
    SumByZero(levels, LevelVolume(price));
  }

  /** Without a self-trade every level of any sorted side keeps exactly what was not traded at its price, and is
      deleted only when that is nothing; on a side without empty levels and orders exactly then. */
  lemma SweepDeletesExhausted(side: Side, levels: seq<Level>, o: OrderInsertion, vol: Volume, bound: nat, i: nat)
    requires SideOk(levels, bound) && side == o.side.Opposite()
    requires !Sweep(side, levels, o, vol).selfTrade && i < |levels|
    ensures var s := Sweep(side, levels, o, vol); var price := levels[i].price;
            && VolumeAt(s.levels, price) == QueueVolume(levels[i].orders) - TradedAt(s.trades, price)
            && (price !in Prices(s.levels) ==> TradedAt(s.trades, price) == QueueVolume(levels[i].orders))
            && (TidySide(levels) && TradedAt(s.trades, price) == QueueVolume(levels[i].orders)
               ==> price !in Prices(s.levels))
  {
    hide Sweep, QueueVolume;
    var s, price := Sweep(side, levels, o, vol), levels[i].price;
    SweepKeeps(side, levels, o, vol, bound);
    SweepTakes(side, levels, o, vol, price);
    VolumeOfLevel(levels, i);
    if price in Prices(s.levels) {
      var j :| 0 <= j < |s.levels| && s.levels[j].price == price;
      VolumeOfLevel(s.levels, j);
      if TidySide(levels) { QueueVolumePositive(s.levels[j].orders); }
    } else {
      NoVolume(s.levels, price);
    }
  }

  /** After a self-trade no level is deleted, not even an exhausted one. */
  lemma {:induction false} SelfTradeKeepsLevels(side: Side, levels: seq<Level>, o: OrderInsertion, vol: Volume)
    requires Sweep(side, levels, o, vol).selfTrade
    ensures var s := Sweep(side, levels, o, vol);
            |s.levels| == |levels| && forall i :: 0 <= i < |levels| ==> s.levels[i].price == levels[i].price
    decreases |levels|
  {
    var best, rest := Best(side, levels), Worse(side, levels);
    var f := FillQueue(best.orders, best.price, o, vol);
    if f.selfTrade {
      SelfTradeKeepsEntry(best.orders, best.price, o, vol);
    } else {
      SelfTradeKeepsLevels(side, rest, o, f.left);
    }
  }

  lemma {:induction false} SelfTradeKeepsEntry(q: seq<Entry>, price: Price, o: OrderInsertion, vol: Volume)
    requires FillQueue(q, price, o, vol).selfTrade
    ensures FillQueue(q, price, o, vol).queue != []
    decreases |q|
  {
    if q[0].account != o.account {
      SelfTradeKeepsEntry(q[1..], price, o, vol - Min(vol, q[0].volume));
    }
  }
}
