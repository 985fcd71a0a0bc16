/** Exclusive ownership of an agent's run: a lease and its one-shot tokens. */
module RunLeases {
  import opened Options

  class RunLease {
    var activeToken: Option<nat>
    var owner: nat
    var issued: nat                  // every token below this one has been given out

    predicate Valid()
      reads this
    {
      activeToken.Some? ==> activeToken.value < issued
    }

    constructor ()
      ensures Valid() && activeToken == None && issued == 0
    {
      activeToken, owner, issued := None, 0, 0;
    }

    /** Gives out a token that no one ever held, or none while a run is active. */
    method Acquire(thread: nat) returns (r: Option<RunLeaseToken>)
      requires Valid()
      modifies this
      ensures Valid()
      ensures r.None? <==> old(activeToken).Some?
      ensures r.None? ==> activeToken == old(activeToken) && owner == old(owner) && issued == old(issued)
      ensures r.Some? ==> fresh(r.value) && r.value.lease == this && !r.value.released
                          && r.value.token == old(issued) && issued == old(issued) + 1
                          && activeToken == Some(r.value.token) && owner == thread
    {
      if activeToken.Some? { return None; }
      activeToken, owner, issued := Some(issued), thread, issued + 1;
      var token := new RunLeaseToken(this, issued - 1);
      return Some(token);
    }
  }

  class RunLeaseToken {
    const lease: RunLease
    const token: nat
    var released: bool

    constructor (lease: RunLease, token: nat)
      ensures this.lease == lease && this.token == token && !released
    {
      this.lease, this.token, released := lease, token, false;
    }

    /** Frees the lease only while this very token holds it, and only once. */
    method Release()
      requires lease.Valid()
      modifies this`released, lease`activeToken, lease`owner
      ensures lease.Valid() && released
      ensures lease.activeToken
           == if !old(released) && old(lease.activeToken) == Some(token) then None else old(lease.activeToken)
      ensures old(released) || old(lease.activeToken) != Some(token) ==> lease.owner == old(lease.owner)
    {
      if released { return; }
      released := true;
      if lease.activeToken != Some(token) { return; }
      lease.activeToken := None;
      lease.owner := 0;
    }
  }

  /** What may happen to a lease after a token of it has gone stale. */
  datatype Move = Take(thread: nat) | GiveBack | ReleaseStale

  /** Whether the lease is held after these moves, if releases of the stale token
      count for nothing. */
  function HeldAfter(moves: seq<Move>): bool
  {
    if moves == [] then false
    else
      match moves[|moves| - 1]
      case Take(_) => true
      case GiveBack => false
      case ReleaseStale => HeldAfter(moves[..|moves| - 1])
  }

  /** A token of an earlier run never frees a later one, whatever runs come and go
      and however often it is released in between. */
  method StaleTokenIsHarmless(lease: RunLease, stale: RunLeaseToken, moves: seq<Move>)
    requires lease.Valid() && lease.activeToken.None? && stale.lease == lease && stale.token < lease.issued
    modifies lease, stale
    ensures lease.Valid() && (lease.activeToken.Some? <==> HeldAfter(moves))
    ensures lease.activeToken != Some(stale.token)
  {
    var current: Option<RunLeaseToken> := None;
    for i := 0 to |moves|
      invariant lease.Valid() && stale.token < lease.issued && lease.activeToken != Some(stale.token)
      invariant lease.activeToken.Some? <==> current.Some?
      invariant current.Some? ==> fresh(current.value) && current.value.lease == lease && !current.value.released
                                  && lease.activeToken == Some(current.value.token)
      invariant lease.activeToken.Some? <==> HeldAfter(moves[..i])
    {
      assert moves[..i + 1][..i] == moves[..i];
      match moves[i]
      case Take(thread) =>
        var taken := lease.Acquire(thread);
        current := if taken.Some? then taken else current;
      case GiveBack =>
        if current.Some? {
          current.value.Release();
          current := None;
        }
      case ReleaseStale =>
        stale.Release();
    }
    assert moves[..|moves|] == moves;
  }
}
