/** The virtual nonces of the pool over the nonces of the chain state. */
module TxNoncer {
  import opened PoolLists

  class Noncer {
    /** The nonces in the state the pool was reset to; unknown accounts have none. */
    const fallback: map<Addr, nat>
    var nonces: map<Addr, nat>

    function GetNonce(a: Addr): nat {
      if a in fallback then fallback[a] else 0
    }

    /** What the pool takes for the account's nonce. */
    ghost function Virtual(a: Addr): nat
      reads this
    {
      if a in nonces then nonces[a] else GetNonce(a)
    }

    constructor (state: map<Addr, nat>)
      ensures fallback == state && forall a :: Virtual(a) == GetNonce(a)
    {
      fallback, nonces := state, map[];
    }

    /** Reading remembers the nonce but changes no account's virtual nonce. */
    method Get(a: Addr) returns (n: nat)
      modifies this
      ensures n == old(Virtual(a)) && forall b :: Virtual(b) == old(Virtual(b))
    {
      if a !in nonces {
        nonces := nonces[a := GetNonce(a)];
      }
      n := nonces[a];
    }

    method Set(a: Addr, n: nat)
      modifies this
      ensures forall b :: Virtual(b) == if b == a then n else old(Virtual(b))
    {
      nonces := nonces[a := n];
    }

    method SetIfLower(a: Addr, n: nat)
      modifies this
      ensures forall b :: Virtual(b) == if b == a && n < old(Virtual(b)) then n else old(Virtual(b))
    {
      if a !in nonces {
        nonces := nonces[a := GetNonce(a)];
      }
      if nonces[a] <= n {
        return;
      }
      nonces := nonces[a := n];
    }

    /** Accounts not in `all` fall back to the chain state again. */
    method SetAll(all: map<Addr, nat>)
      modifies this
      ensures forall b :: Virtual(b) == if b in all then all[b] else GetNonce(b)
    {
      nonces := all;
    }
  }
}
