/** The virtual nonces of the pool: an overlay over the nonces of the chain state. */
module TxNoncers {
  import opened Transactions

  datatype Account = Account(nonce: nat, balance: nat)

  /** The chain state as the pool reads it; an unknown account has nonce and balance zero. */
  type State = map<Address, Account>

  function NonceOf(state: State, addr: Address): nat {
    if addr in state then state[addr].nonce else 0
  }

  function BalanceOf(state: State, addr: Address): nat {
    if addr in state then state[addr].balance else 0
  }

  /** The nonce that `get` answers: the recorded one, or the state's. */
  function Virtual(nonces: map<Address, nat>, state: State, addr: Address): nat {
    if addr in nonces then nonces[addr] else NonceOf(state, addr)
  }

  /** The overlay after `setIfLower`. */
  function Lowered(nonces: map<Address, nat>, state: State, addr: Address, nonce: nat): map<Address, nat> {
    if Virtual(nonces, state, addr) <= nonce then nonces else nonces[addr := nonce]
  }

  class TxNoncer {
    const fallback: State
    var nonces: map<Address, nat>

    constructor (state: State)
      ensures fallback == state && nonces == map[]
    {
      fallback, nonces := state, map[];
    }

    /** Reading fills the overlay but changes no answer. */
    method Get(addr: Address) returns (nonce: nat)
      modifies this
      ensures nonce == Virtual(old(nonces), fallback, addr)
      ensures forall a :: Virtual(nonces, fallback, a) == Virtual(old(nonces), fallback, a)
    {
      if addr !in nonces {
        nonces := nonces[addr := NonceOf(fallback, addr)];
      }
      nonce := nonces[addr];
    }

    method Set(addr: Address, nonce: nat)
      modifies this
      ensures nonces == old(nonces)[addr := nonce]
    {
      nonces := nonces[addr := nonce];
    }

    method SetIfLower(addr: Address, nonce: nat)
      modifies this
      ensures forall a :: Virtual(nonces, fallback, a) ==
                          Virtual(Lowered(old(nonces), fallback, addr, nonce), fallback, a)
    {
      if addr !in nonces {
        nonces := nonces[addr := NonceOf(fallback, addr)];
      }
      if nonces[addr] <= nonce {
        return;
      }
      nonces := nonces[addr := nonce];
    }
  }
}
