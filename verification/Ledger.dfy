/** Account state as the EVM sees it, and the sum of all balances. */
module Ledger {
  import opened Common

  /**
    * What a state database snapshot covers.  Everything after `storage` lives only as long
    * as the in-memory database: storage as it was when the block started (it prices
    * writes), transient storage, the accounts created and self-destructed since then,
    * warm addresses, the refund counter and the number of logs.
    */
  datatype World = World(
    balance: map<Address, nat>,
    nonce: map<Address, u64>,
    code: map<Address, Bytes>,
    storage: map<(Address, Hash), Hash>,
    atStart: map<(Address, Hash), Hash>,
    transient: map<(Address, Hash), Hash>,
    created: set<Address>,
    destructed: set<Address>,
    warm: set<Address>,
    refund: u64,
    logCount: nat)

  function BalanceOf(w: World, a: Address): nat {
    if a in w.balance then w.balance[a] else 0
  }

  function NonceOf(w: World, a: Address): u64 {
    if a in w.nonce then w.nonce[a] else 0
  }

  function SetBalance(w: World, a: Address, v: nat): World {
    w.(balance := w.balance[a := v])
  }

  function SetNonce(w: World, a: Address, n: u64): World {
    w.(nonce := w.nonce[a := n])
  }

  /** What committing the state and opening it again under its root keeps: self-destructed accounts are deleted. */
  function Persisted(w: World): World {
    World(
      w.balance - w.destructed,
      w.nonce - w.destructed,
      w.code - w.destructed,
      map k | k in w.storage && k.0 !in w.destructed :: w.storage[k],
      map[], map[], {}, {}, {}, 0, 0)
  }

  ghost function Sum(m: map<Address, nat>): nat
    decreases |m|
  {
    if m == map[] then 0
    else
      var a :| a in m;
      m[a] + Sum(m - {a})
  }

  ghost function Total(w: World): nat {
    Sum(w.balance)
  }

  lemma {:induction false} SumWithout(m: map<Address, nat>, a: Address)
    requires a in m
    ensures Sum(m) == m[a] + Sum(m - {a})
    decreases |m|
  {
    var b :| b in m && Sum(m) == m[b] + Sum(m - {b});
    if a != b {
      SumWithout(m - {b}, a);
      SumWithout(m - {a}, b);
      assert m - {b} - {a} == m - {a} - {b};
    }
  }

  lemma SumUpdate(m: map<Address, nat>, a: Address, v: nat)
    ensures Sum(m[a := v]) == Sum(m) - (if a in m then m[a] else 0) + v
  {
    SumWithout(m[a := v], a);
    if a in m {
      SumWithout(m, a);
      assert m[a := v] - {a} == m - {a};
    } else {
      assert m[a := v] - {a} == m;
    }
  }

  lemma BalanceWithinTotal(w: World, a: Address)
    ensures BalanceOf(w, a) <= Total(w)
  {
    if a in w.balance {
      SumWithout(w.balance, a);
    }
  }

  lemma TotalSetBalance(w: World, a: Address, v: nat)
    ensures Total(SetBalance(w, a, v)) == Total(w) - BalanceOf(w, a) + v
  {
    SumUpdate(w.balance, a, v);
  }

  lemma {:induction false} SumDrop(m: map<Address, nat>, s: set<Address>)
    ensures Sum(m - s) <= Sum(m)
    ensures Sum(m - s) == Sum(m) <==> forall a :: a in s && a in m ==> m[a] == 0
    decreases |s|
  {
    if s == {} {
      assert m - s == m;
    } else {
      var a :| a in s;
      var rest := s - {a};
      SumDrop(m, rest);
      assert m - s == (m - rest) - {a};
      if a in m {
        SumWithout(m - rest, a);
      } else {
        assert (m - rest) - {a} == m - rest;
      }
    }
  }

  /** What a commit takes out of circulation. */
  ghost function DeletedBalance(w: World): int {
    Total(w) - Total(Persisted(w))
  }

  /** A commit never adds money, and deletes none exactly if every self-destructed account is empty. */
  lemma CommitDeletesExactly(w: World)
    ensures DeletedBalance(w) >= 0
    ensures DeletedBalance(w) == 0 <==> forall a :: a in w.destructed ==> BalanceOf(w, a) == 0
  {
    SumDrop(w.balance, w.destructed);
  }

  /**
    * A commit keeps balance, nonce, code and storage of every account, except of those
    * self-destructed, which are gone; everything that lives in memory only is reset.
    */
  lemma PersistedExactly(w: World, a: Address, slot: Hash)
    ensures var z := Persisted(w);
            && BalanceOf(z, a) == (if a in w.destructed then 0 else BalanceOf(w, a))
            && NonceOf(z, a) == (if a in w.destructed then 0 else NonceOf(w, a))
            && (a in z.code <==> a in w.code && a !in w.destructed) && (a in z.code ==> z.code[a] == w.code[a])
            && ((a, slot) in z.storage <==> (a, slot) in w.storage && a !in w.destructed)
            && ((a, slot) in z.storage ==> z.storage[(a, slot)] == w.storage[(a, slot)])
            && z.atStart == map[] && z.transient == map[] && z.created == {} && z.destructed == {} && z.warm == {}
            && z.refund == 0 && z.logCount == 0
  {}
}
