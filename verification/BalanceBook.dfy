/** The balance book as the exchange runs it: one vector, grown in place. */
module BalanceBooks {
  import opened Types
  import opened BalancesSpec

  class BalanceBook {
    var accounts: nat
    var assets: nat
    var balances: seq<Balance>

    ghost function Model(): Balances
      reads this
    {
      Balances(accounts, assets, balances)
    }

    constructor ()
      ensures Model() == NO_BALANCES
    {
      accounts, assets, balances := 0, 0, [];
    }

    function GetIndex(asset: AssetId, account: AccountId): nat
      reads this
    {
      accounts * asset + account
    }

    /** The balance, if the cell exists; in range this is the account's own cell. */
    method Get(account: AccountId, asset: AssetId) returns (r: Option<Balance>)
      ensures r == Model().Lookup(asset, account)
      ensures Model().Dense() && asset < assets && account < accounts ==> r.Some?
    {
      if Model().Dense() && asset < assets && account < accounts {
        CellInRange(accounts, assets, asset, account);
      }
      var index := GetIndex(asset, account);
      r := if index < |balances| then Some(balances[index]) else None;
    }

    /** The positions of the given cells, if all exist and no two are the same. */
    method GetDisjoint(cells: seq<(AssetId, AccountId)>) returns (r: Option<seq<nat>>)
      ensures r.Some? ==> |r.value| == |cells|
      ensures r.Some? ==> forall i :: 0 <= i < |cells| ==>
                r.value[i] == Model().Index(cells[i].0, cells[i].1) && r.value[i] < |Model().cells|
      ensures r.Some? ==> forall i, j :: 0 <= i < j < |cells| ==> r.value[i] != r.value[j]
      ensures r.None? ==> (exists i :: 0 <= i < |cells| && Model().Index(cells[i].0, cells[i].1) >= |Model().cells|)
                          || exists i, j :: 0 <= i < j < |cells|
                               && Model().Index(cells[i].0, cells[i].1) == Model().Index(cells[j].0, cells[j].1)
    {
      var indices: seq<nat> := [];
      for k := 0 to |cells|
        invariant |indices| == k
        invariant forall i :: 0 <= i < k ==>
                    indices[i] == Model().Index(cells[i].0, cells[i].1) && indices[i] < |balances|
        invariant forall i, j :: 0 <= i < j < k ==> indices[i] != indices[j]
      {
        var index := GetIndex(cells[k].0, cells[k].1);
        if index >= |balances| || index in indices {
          return None;
        }
        indices := indices + [index];
      }
      r := Some(indices);
    }

    /** Add an amount to one cell. */
    method Add(index: nat, amount: Balance)
      requires index < |balances|
      modifies this
      ensures Model() == old(Model()).(cells := old(balances)[index := old(balances)[index] + amount])
    {
      balances := balances[index := balances[index] + amount];
    }

    /** A new asset: one zero cell per account at the end of the vector. */
    method AddAsset()
      modifies this
      ensures Model() == BalancesSpec.AddAsset(old(Model()))
    {
      for k := 0 to accounts
        invariant accounts == old(accounts) && assets == old(assets)
        invariant balances == old(balances) + Zeros(accounts)[..k]
      {
        balances := balances + [0];
      }
      assert Zeros(accounts)[..accounts] == Zeros(accounts);
      assets := assets + 1;
    }

    /** A new account: a zero cell inserted at the end of each asset's run, shifting what follows. */
    method AddAccount()
      requires Model().Dense()
      modifies this
      ensures Model() == BalancesSpec.AddAccount(old(Model()))
      ensures Model().Dense()
    {
      ghost var cells, n := balances, accounts;
      assert cells[..n * 0] == [] && cells[n * 0..] == cells;
      for i := 0 to assets
        invariant accounts == n && assets == old(assets)
        invariant n * i <= |cells|
        invariant balances == Widened(cells[..n * i], n, i) + cells[n * i..]
      {
        InsertAfterRow(cells, n, assets, i);
        var index := (i + 1) * accounts + i;
        balances := balances[..index] + [0] + balances[index..];
      }
      assert cells[..n * assets] == cells;
      accounts := accounts + 1;
      assert |balances| == (n + 1) * assets;
    }
  }

  lemma RowBounds(n: nat, assets: nat, i: nat)
    requires i <= assets
    ensures n * i <= n * assets
    ensures i < assets ==> n * (i + 1) == n * i + n <= n * assets
  {
    if i < assets {
      assert n * (i + 1) <= n * assets;
    }
  }

  /** Widening one more run appends that run and a zero. */
  lemma WidenedRow(cells: seq<Balance>, n: nat, i: nat)
    requires n * i + n == n * (i + 1) <= |cells|
    ensures |Widened(cells[..n * i], n, i)| + n == (i + 1) * n + i
    ensures Widened(cells[..n * (i + 1)], n, i + 1) == Widened(cells[..n * i], n, i) + cells[n * i..n * (i + 1)] + [0]
  {
    assert cells[..n * (i + 1)][..n * i] == cells[..n * i];
    assert cells[..n * (i + 1)][n * i..] == cells[n * i..n * (i + 1)];
  }

  /** Inserting right behind the next run of an already widened prefix. */
  lemma InsertInRow(wide: seq<Balance>, cells: seq<Balance>, start: nat, next: nat, index: nat, x: Balance)
    requires start <= next <= |cells| && index == |wide| + (next - start)
    ensures var all := wide + cells[start..];
            && index <= |all|
            && all[..index] + [x] + all[index..] == wide + cells[start..next] + [x] + cells[next..]
  {}

  /** One round of `AddAccount`: the insertion position, and the vector after the insertion. */
  lemma InsertAfterRow(cells: seq<Balance>, n: nat, assets: nat, i: nat)
    requires |cells| == n * assets && i < assets
    ensures n * i <= n * (i + 1) <= |cells|
    ensures var all := Widened(cells[..n * i], n, i) + cells[n * i..]; var index := (i + 1) * n + i;
            && index <= |all|
            && all[..index] + [0] + all[index..] == Widened(cells[..n * (i + 1)], n, i + 1) + cells[n * (i + 1)..]
  {
    RowBounds(n, assets, i);
    WidenedRow(cells, n, i);
    InsertInRow(Widened(cells[..n * i], n, i), cells, n * i, n * (i + 1), (i + 1) * n + i, 0);
  }
}
