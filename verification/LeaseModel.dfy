/** Leases with fencing tokens, and a resource that refuses tokens lower than one it has seen. */
module LeaseModel {
  import opened Results

  /** Owners and values are compared, nothing else: an integer stands for a string. */
  type Name = int

  datatype Lease = Lease(owner: Name, token: nat, issuedAt: real, expiresAt: real)

  datatype CoordinatorState = CoordinatorState(duration: real, nextToken: nat, active: Option<Lease>)

  /** Whether the last lease granted is still running. */
  predicate Occupied(c: CoordinatorState, now: real) {
    c.active.Some? && now < c.active.value.expiresAt
  }

  function NewLease(c: CoordinatorState, owner: Name, now: real): Lease {
    Lease(owner, c.nextToken, now, now + c.duration)
  }

  function Granted(c: CoordinatorState, owner: Name, now: real): CoordinatorState {
    c.(nextToken := c.nextToken + 1, active := Some(NewLease(c, owner, now)))
  }

  class LeaseCoordinator {
    const duration: real
    var nextToken: nat
    var active: Option<Lease>

    ghost function State(): CoordinatorState
      reads this
    {
      CoordinatorState(duration, nextToken, active)
    }

    static method Create(duration: real) returns (r: Result<LeaseCoordinator>)
      ensures r.Err? <==> duration <= 0.0
      ensures r.Err? ==> r.error == ValueError
      ensures r.Ok? ==> fresh(r.value) && r.value.State() == CoordinatorState(duration, 1, None)
    {
      if duration <= 0.0 {
        return Err(ValueError);
      }
      var coordinator := new LeaseCoordinator(duration);
      return Ok(coordinator);
    }

    constructor (duration: real)
      ensures State() == CoordinatorState(duration, 1, None)
    {
      this.duration, nextToken, active := duration, 1, None;
    }

    method Acquire(owner: Name, now: real) returns (r: Result<Lease>)
      modifies this`nextToken, this`active
      ensures Occupied(old(State()), now) ==> r == Err(RuntimeError) && State() == old(State())
      ensures !Occupied(old(State()), now) ==>
                r == Ok(NewLease(old(State()), owner, now)) && State() == Granted(old(State()), owner, now)
    {
      if active.Some? && now < active.value.expiresAt {
        return Err(RuntimeError);
      }
      var lease := Lease(owner, nextToken, now, now + duration);
      nextToken := nextToken + 1;
      active := Some(lease);
      return Ok(lease);
    }
  }

  datatype ResourceState = ResourceState(value: Option<Name>, highest: nat)

  function Written(r: ResourceState, value: Name, token: nat): ResourceState {
    if token < r.highest then r else ResourceState(Some(value), token)
  }

  class FencedResource {
    var value: Option<Name>
    var highestToken: nat

    ghost function State(): ResourceState
      reads this
    {
      ResourceState(value, highestToken)
    }

    constructor ()
      ensures State() == ResourceState(None, 0)
    {
      value, highestToken := None, 0;
    }

    method Write(value: Name, token: nat) returns (accepted: bool)
      modifies this
      ensures accepted == (token >= old(highestToken))
      ensures State() == Written(old(State()), value, token)
    {
      if token < highestToken {
        return false;
      }
      highestToken := token;
      this.value := Some(value);
      return true;
    }
  }
}
