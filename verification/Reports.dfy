/** Decisions made in one order and reported in another, through a dictionary by id. */
module Reports {
  import opened Priorities
  import opened Results

  /** Ids and tenants are compared, nothing else: an integer stands for a string. */
  type Name = int

  datatype Decision<+V> = Decision(id: Name, verdict: V)

  /** The last decision on an id, as a dictionary by id keeps it. */
  function Lookup<V>(decisions: seq<Decision<V>>, id: Name): Option<Decision<V>> {
    if decisions == [] then None
    else if decisions[|decisions| - 1].id == id then Some(decisions[|decisions| - 1])
    else Lookup(decisions[..|decisions| - 1], id)
  }

  /** The dictionary. */
  method ById<V>(decisions: seq<Decision<V>>) returns (byId: map<Name, Decision<V>>)
    ensures forall id :: Lookup(decisions, id) == if id in byId then Some(byId[id]) else None
  {
    byId := map[];
    for k := 0 to |decisions|
      invariant forall id :: Lookup(decisions[..k], id) == if id in byId then Some(byId[id]) else None
    {
      assert decisions[..k + 1][..k] == decisions[..k];
      byId := byId[decisions[k].id := decisions[k]];
    }
    assert decisions[..|decisions|] == decisions;
  }

  lemma {:induction false} LookupFinds<V>(decisions: seq<Decision<V>>, k: nat)
    requires k < |decisions|
    ensures Lookup(decisions, decisions[k].id).Some?
  {
    if k < |decisions| - 1 {
      LookupFinds(decisions[..|decisions| - 1], k);
    }
  }

  /** It is the last one with that id. */
  lemma {:induction false} LookupLast<V>(decisions: seq<Decision<V>>, id: Name) returns (k: nat)
    requires Lookup(decisions, id).Some?
    ensures k < |decisions| && decisions[k].id == id && Lookup(decisions, id) == Some(decisions[k])
    ensures forall j | k < j < |decisions| :: decisions[j].id != id
  {
    k := |decisions| - 1;
    if decisions[k].id != id {
      k := LookupLast(decisions[..|decisions| - 1], id);
    }
  }

  predicate DistinctIds<T>(items: seq<T>, id: T -> Name) {
    forall i, j | 0 <= i < j < |items| :: id(items[i]) != id(items[j])
  }

  lemma {:induction false} AboveIds<T>(items: seq<T>, rank: T -> nat, r: nat, id: T -> Name, name: Name)
    requires forall i | 0 <= i < |items| :: id(items[i]) != name
    ensures forall k | 0 <= k < |Above(items, rank, r)| :: id(Above(items, rank, r)[k]) != name
  {
    if items != [] {
      AboveIds(items[..|items| - 1], rank, r, id, name);
    }
  }

  /** Leaving out lower priorities leaves ids distinct. */
  lemma {:induction false} AboveDistinct<T>(items: seq<T>, rank: T -> nat, r: nat, id: T -> Name)
    requires DistinctIds(items, id)
    ensures DistinctIds(Above(items, rank, r), id)
  {
    if items != [] {
      AboveDistinct(items[..|items| - 1], rank, r, id);
      AboveIds(items[..|items| - 1], rank, r, id, id(items[|items| - 1]));
    }
  }
}
