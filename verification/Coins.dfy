// The coins account as the pos33 executor uses it: one main balance per address, and
// per address a (balance, frozen) sub-account held at the executor's address. chain33's
// account package is not part of this model; its four operations appear as debits and
// credits that refuse amounts that are not positive or not covered.
module Coins {
  import opened Options
  import opened Sums

  type Addr = nat

  datatype Sub = Sub(balance: int, frozen: int)

  datatype Accounts = Accounts(main: map<Addr, int>, sub: map<Addr, Sub>)
  {
    function Main(a: Addr): int {
      if a in main then main[a] else 0
    }

    function SubOf(a: Addr): Sub {
      if a in sub then sub[a] else Sub(0, 0)
    }

    function Credit(a: Addr, amount: int): Accounts {
      this.(main := main[a := Main(a) + amount])
    }

    ghost predicate Valid() {
      && (forall a | a in main :: main[a] >= 0)
      && (forall a | a in sub :: sub[a].balance >= 0 && sub[a].frozen >= 0)
    }

    // Everything users have deposited with the executor, free or frozen.
    ghost function Deposits(): int {
      SumMap(DepositMap())
    }

    ghost function DepositMap(): map<Addr, int> {
      map a | a in sub :: sub[a].balance + sub[a].frozen
    }
  }

  function Issued(c: Accounts, exec: Addr, amount: int): Option<Accounts> {
    if amount <= 0 then None else Some(c.Credit(exec, amount))
  }

  function Transferred(c: Accounts, from: Addr, to: Addr, amount: int): Option<Accounts> {
    if amount <= 0 || from == to || c.Main(from) < amount then None
    else Some(c.Credit(from, -amount).Credit(to, amount))
  }

  function Frozen(c: Accounts, exec: Addr, a: Addr, amount: int): Option<Accounts> {
    var s := c.SubOf(a);
    if amount <= 0 || a == exec || s.balance < amount then None
    else Some(c.(sub := c.sub[a := Sub(s.balance - amount, s.frozen + amount)]))
  }

  function Activated(c: Accounts, exec: Addr, a: Addr, amount: int): Option<Accounts> {
    var s := c.SubOf(a);
    if amount <= 0 || a == exec || s.frozen < amount then None
    else Some(c.(sub := c.sub[a := Sub(s.balance + amount, s.frozen - amount)]))
  }

  // Moving coins inside one sub-account leaves the deposits unchanged.
  lemma SubUpdateKeepsDeposits(c: Accounts, a: Addr, s: Sub)
    requires s.balance + s.frozen == c.SubOf(a).balance + c.SubOf(a).frozen
    ensures c.(sub := c.sub[a := s]).Deposits() == c.Deposits()
  {
    var c' := c.(sub := c.sub[a := s]);
    assert c'.DepositMap() == c.DepositMap()[a := s.balance + s.frozen];
    SumMapUpdate(c.DepositMap(), a, s.balance + s.frozen);
  }

  lemma DepositsNonNegative(c: Accounts)
    requires c.Valid()
    ensures c.Deposits() >= 0
  {
    SumMapNonNegative(c.DepositMap());
  }

  class CoinsAccount {
    var main: map<Addr, int>
    var sub: map<Addr, Sub>

    function Value(): Accounts
      reads this
    {
      Accounts(main, sub)
    }

    constructor (c: Accounts)
      ensures Value() == c
    {
      main, sub := c.main, c.sub;
    }

    method SetValue(c: Accounts)
      modifies this
      ensures Value() == c
    {
      main, sub := c.main, c.sub;
    }

    method ExecIssueCoins(exec: Addr, amount: int) returns (ok: bool)
      modifies this
      ensures ok == Issued(old(Value()), exec, amount).Some?
      ensures Value() == if ok then Issued(old(Value()), exec, amount).value else old(Value())
    {
      ok := amount > 0;
      if ok { main := main[exec := Value().Main(exec) + amount]; }
    }

    method Transfer(from: Addr, to: Addr, amount: int) returns (ok: bool)
      modifies this
      ensures ok == Transferred(old(Value()), from, to, amount).Some?
      ensures Value() == if ok then Transferred(old(Value()), from, to, amount).value else old(Value())
    {
      ok := amount > 0 && from != to && Value().Main(from) >= amount;
      if ok {
        main := main[from := Value().Main(from) - amount];
        main := main[to := Value().Main(to) + amount];
      }
    }

    method ExecFrozen(exec: Addr, a: Addr, amount: int) returns (ok: bool)
      modifies this
      ensures ok == Frozen(old(Value()), exec, a, amount).Some?
      ensures Value() == if ok then Frozen(old(Value()), exec, a, amount).value else old(Value())
    {
      var s := Value().SubOf(a);
      ok := amount > 0 && a != exec && s.balance >= amount;
      if ok { sub := sub[a := Sub(s.balance - amount, s.frozen + amount)]; }
    }

    method ExecActive(exec: Addr, a: Addr, amount: int) returns (ok: bool)
      modifies this
      ensures ok == Activated(old(Value()), exec, a, amount).Some?
      ensures Value() == if ok then Activated(old(Value()), exec, a, amount).value else old(Value())
    {
      var s := Value().SubOf(a);
      ok := amount > 0 && a != exec && s.frozen >= amount;
      if ok { sub := sub[a := Sub(s.balance + amount, s.frozen - amount)]; }
    }
  }
}
