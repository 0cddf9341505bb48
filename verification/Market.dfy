/** A market and the list of markets, updated in place. */
module Marketplaces {
  import opened Types
  import opened BookSpec
  import opened ExchangeSpec
  import opened Orderbooks
  import opened Views

  class Market {
    const pair: AssetIdPair
    var lastTradedPrice: Price
    const orderbook: Orderbook

    ghost function Model(): MarketState
      reads this, orderbook
    {
      MarketState(pair, lastTradedPrice, orderbook.Model())
    }

    constructor (pair: AssetIdPair)
      ensures Model() == MarketState(pair, 0, EMPTY_BOOK)
      ensures fresh(orderbook) && this.pair == pair
    {
      this.pair := pair;
      lastTradedPrice := 0;
      orderbook := new Orderbook();
    }

    /** Match the order; an order filled by a trade sets the last traded price. */
    method InsertOrder(o: OrderInsertion, buf: TransactionBuffer)
      returns (r: Result<(Status, Option<Price>), InsertionError>)
      modifies this, orderbook, buf
      ensures var ins := Insert(old(orderbook.Model()), o);
              && Model() == MarketAfter(old(Model()), ins)
              && buf.items == old(buf.items) + ins.trades && r == ins.result
    {
      hide Insert;
      r := orderbook.InsertOrder(o, buf);
      if r.Ok? && r.value.1.Some? {
        lastTradedPrice := r.value.1.value;
      }
    }

    method CancelOrder(c: OrderCancellation) returns (r: Result<(), CancellationError>)
      modifies orderbook
      ensures match Cancel(old(orderbook.Model()), c)
              case Ok(book) => r == Ok(()) && Model() == old(Model()).(book := book)
              case Err(e) => r == Err(e) && Model() == old(Model())
    {
      r := orderbook.CancelOrder(c);
    }

    method ModifyOrder(c: OrderModification) returns (r: Result<(), ModificationError>)
      modifies orderbook
      ensures match Modify(old(orderbook.Model()), c)
              case Ok(book) => r == Ok(()) && Model() == old(Model()).(book := book)
              case Err(e) => r == Err(e) && Model() == old(Model())
    {
      r := orderbook.ModifyOrder(c);
    }

    method GetL1() returns (l1: L1)
      ensures l1 == L1Of(Model().book)
    {
      l1 := orderbook.GetL1();
    }

    method GetL2() returns (l2: L2)
      ensures l2 == L2Of(Model().book)
    {
      l2 := orderbook.GetL2();
    }
  }

  /** All markets; the keys repeat the pairs, for a faster search. */
  class Markets {
    var keys: seq<AssetIdPair>
    var inner: seq<Market>

    ghost function Parts(): set<object>
      reads this
    {
      (set i | 0 <= i < |inner| :: inner[i] as object) + (set i | 0 <= i < |inner| :: inner[i].orderbook as object)
    }

    /** Every market is an object of its own, with a book of its own. */
    ghost predicate Valid()
      reads this
    {
      && |keys| == |inner|
      && (forall i :: 0 <= i < |inner| ==> keys[i] == inner[i].pair)
      && (forall i, j :: 0 <= i < j < |inner| ==> inner[i] != inner[j] && inner[i].orderbook != inner[j].orderbook)
    }

    ghost function Model(): (markets: seq<MarketState>)
      reads this, Parts()
      ensures |markets| == |inner|
      ensures forall i :: 0 <= i < |inner| ==> markets[i] == inner[i].Model()
    {
      seq(|inner|, i requires 0 <= i < |inner| reads this, Parts() => inner[i].Model())
    }

    constructor ()
      ensures Valid() && Model() == [] && Parts() == {}
    {
      keys, inner := [], [];
    }

    method Contains(key: AssetIdPair) returns (r: bool)
      requires Valid()
      ensures r <==> FindMarket(Model(), key).Some?
    {
      for i := 0 to |keys|
        invariant forall j :: 0 <= j < i ==> keys[j] != key
      {
        if keys[i] == key {
          assert Model()[i].pair == key;
          return true;
        }
      }
      return false;
    }

    /** The first market for the pair. */
    method Get(key: AssetIdPair) returns (r: Option<nat>)
      requires Valid()
      ensures r == FindMarket(Model(), key)
      ensures r.Some? ==> r.value < |inner| && inner[r.value].pair == key
    {
      for i := 0 to |inner|
        invariant forall j :: 0 <= j < i ==> Model()[j].pair != key
      {
        if inner[i].pair == key {
          FirstMarketIs(Model(), key, i);
          return Some(i);
        }
      }
      return None;
    }

    /** Match an order in market `m`; the other markets stay as they are. */
    method InsertOrderAt(m: nat, o: OrderInsertion, buf: TransactionBuffer)
      returns (r: Result<(Status, Option<Price>), InsertionError>)
      requires Valid() && m < |inner|
      modifies Parts(), buf
      ensures Valid() && Parts() == old(Parts())
      ensures var ins := Insert(old(Model())[m].book, o);
              && Model() == old(Model())[m := MarketAfter(old(Model())[m], ins)]
              && buf.items == old(buf.items) + ins.trades && r == ins.result
    {
      hide Insert;
      r := inner[m].InsertOrder(o, buf);
      assert forall i :: 0 <= i < |inner| && i != m ==> Model()[i] == old(Model()[i]);
    }

    method CancelOrderAt(m: nat, c: OrderCancellation) returns (r: Result<(), CancellationError>)
      requires Valid() && m < |inner|
      modifies Parts()
      ensures Valid() && Parts() == old(Parts())
      ensures match Cancel(old(Model())[m].book, c)
              case Ok(book) => r == Ok(()) && Model() == old(Model())[m := old(Model())[m].(book := book)]
              case Err(e) => r == Err(e) && Model() == old(Model())
    {
      hide Cancel;
      r := inner[m].CancelOrder(c);
      assert forall i :: 0 <= i < |inner| && i != m ==> Model()[i] == old(Model()[i]);
    }

    method ModifyOrderAt(m: nat, c: OrderModification) returns (r: Result<(), ModificationError>)
      requires Valid() && m < |inner|
      modifies Parts()
      ensures Valid() && Parts() == old(Parts())
      ensures match Modify(old(Model())[m].book, c)
              case Ok(book) => r == Ok(()) && Model() == old(Model())[m := old(Model())[m].(book := book)]
              case Err(e) => r == Err(e) && Model() == old(Model())
    {
      hide Modify;
      r := inner[m].ModifyOrder(c);
      assert forall i :: 0 <= i < |inner| && i != m ==> Model()[i] == old(Model()[i]);
    }

    method AddMarket(pair: AssetIdPair) returns (r: Result<(), MarketCreationError>)
      requires Valid()
      modifies this
      ensures Valid() && fresh(Parts() - old(Parts()))
      ensures if FindMarket(old(Model()), pair).Some? then r == Err(MarketAlreadyExists) && Model() == old(Model())
              else r == Ok(()) && Model() == old(Model()) + [MarketState(pair, 0, EMPTY_BOOK)]
    {
      var known := Contains(pair);
      if known {
        return Err(MarketAlreadyExists);
      }
      var market := new Market(pair);
      keys := keys + [pair];
      inner := inner + [market];
      return Ok(());
    }
  }

  lemma FirstMarketIs(markets: seq<MarketState>, pair: AssetIdPair, i: nat)
    requires i < |markets| && markets[i].pair == pair
    requires forall j :: 0 <= j < i ==> markets[j].pair != pair
    ensures FindMarket(markets, pair) == Some(i)
  {}
}
