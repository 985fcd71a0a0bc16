/** The abort signal that a run shares with whoever may stop it. */
module AbortSignals {
  class AbortSignal {
    var aborted: bool
    var callbacks: map<nat, string>       // token to callback
    var nextToken: nat
    ghost var firedTokens: multiset<nat>  // tokens whose callback has run

    /** Callbacks wait only while the signal is unaborted, and no token fires twice. */
    ghost predicate Valid()
      reads this
    {
      && (aborted ==> callbacks == map[])
      && (forall t :: t in callbacks ==> t < nextToken && firedTokens[t] == 0)
      && (forall t :: firedTokens[t] <= 1 && (firedTokens[t] > 0 ==> t < nextToken))
    }

    constructor ()
      ensures Valid() && !aborted && callbacks == map[]
    {
      aborted, callbacks, nextToken, firedTokens := false, map[], 0, multiset{};
    }

    /** Sets the bit for good; the callbacks waiting at that moment run once each. */
    method Abort()
      requires Valid()
      modifies this
      ensures Valid() && aborted && callbacks == map[]
      ensures old(aborted) ==> firedTokens == old(firedTokens)
      ensures !old(aborted) ==> forall t :: firedTokens[t] == old(firedTokens[t]) + if t in old(callbacks) then 1 else 0
    {
      if aborted {
        return;
      }
      aborted := true;
      firedTokens := firedTokens + multiset(callbacks.Keys);
      callbacks := map[];
    }

    /** Registers a callback, or runs it at once when the signal is already set. */
    method AddCallback(callback: string) returns (token: nat, ranNow: bool)
      requires Valid()
      modifies this
      ensures Valid() && aborted == old(aborted) && ranNow == aborted && token == old(nextToken)
      ensures ranNow ==> firedTokens == old(firedTokens) + multiset{token} && callbacks == old(callbacks)
      ensures !ranNow ==> firedTokens == old(firedTokens) && callbacks == old(callbacks)[token := callback]
    {
      token, ranNow := nextToken, aborted;
      nextToken := nextToken + 1;
      if aborted {
        firedTokens := firedTokens + multiset{token};
      } else {
        callbacks := callbacks[token := callback];
      }
    }

    method Unsubscribe(token: nat)
      requires Valid()
      modifies this
      ensures Valid() && aborted == old(aborted) && firedTokens == old(firedTokens)
      ensures callbacks == old(callbacks) - {token}
    {
      callbacks := callbacks - {token};
    }
  }
}
