/**
  Any number of writers and readers around the entry: commits of increasing versions, invalidations of
  commits in any order and any number of times, reads of the database, and fills with what was read at
  any earlier time.
 */
module CacheRuns {
  import opened Results
  import opened CacheModel

  datatype World = World(
    entry: Entry,
    commits: seq<Versioned>,   // all commits so far; the last is what the database holds
    fetched: seq<Versioned>,   // everything read from the database so far
    applied: seq<int>,         // versions of the invalidations applied so far
    filled: seq<int>)          // versions of the fills accepted so far

  datatype Op =
    | COMMIT(value: Name, version: int)
    | READ
    | FILL(read: nat)
    | INVALIDATE(commit: nat)

  function Start(): World {
    World(Entry(None, None, 0), [], [], [], [])
  }

  function Step(w: World, op: Op): World {
    match op
    case COMMIT(value, version) =>
      if w.commits == [] || w.commits[|w.commits| - 1].version < version then
        w.(commits := w.commits + [Versioned(value, version)])
      else w
    case READ => if w.commits == [] then w else w.(fetched := w.fetched + [w.commits[|w.commits| - 1]])
    case FILL(i) =>
      if i >= |w.fetched| then w
      else
        var item := w.fetched[i];
        w.(entry := Filled(w.entry, item),
           filled := if BelowFence(w.entry, item) || BelowCached(w.entry, item) then w.filled else w.filled + [item.version])
    case INVALIDATE(i) =>
      if i < |w.commits| then
        w.(entry := Invalidated(w.entry, w.commits[i].version), applied := w.applied + [w.commits[i].version])
      else w
  }

  function Run(w: World, ops: seq<Op>): World {
    if ops == [] then w else Step(Run(w, ops[..|ops| - 1]), ops[|ops| - 1])
  }

  // ---- what every step keeps ----

  predicate Committed(w: World, item: Versioned) {
    exists i :: 0 <= i < |w.commits| && w.commits[i] == item
  }

  predicate Among(versions: seq<int>, version: int) {
    exists i :: 0 <= i < |versions| && versions[i] == version
  }

  lemma AmongMore(versions: seq<int>, more: int)
    ensures forall version :: Among(versions, version) ==> Among(versions + [more], version)
    ensures Among(versions + [more], more)
  {
    forall version | Among(versions, version) ensures Among(versions + [more], version) {
      var i :| 0 <= i < |versions| && versions[i] == version;
      assert (versions + [more])[i] == version;
    }
    assert (versions + [more])[|versions|] == more;
  }

  ghost predicate Inv(w: World) {
    && (forall i, j | 0 <= i < j < |w.commits| :: w.commits[i].version < w.commits[j].version)
    && (forall i | 0 <= i < |w.fetched| :: Committed(w, w.fetched[i]))
    && (forall i | 0 <= i < |w.applied| :: w.applied[i] <= w.entry.fence)
    && (forall i | 0 <= i < |w.filled| :: w.filled[i] <= w.entry.fence)
    && (w.entry.fence == 0 || Among(w.applied, w.entry.fence) || Among(w.filled, w.entry.fence))
    && (w.entry.fence > 0 ==> w.commits != [] && w.entry.fence <= w.commits[|w.commits| - 1].version)
    && w.entry.fence >= 0
    && (w.entry.value.Some? <==> w.entry.version.Some?)
    && (w.entry.version.Some? ==>
          w.entry.version.value == w.entry.fence && Committed(w, Versioned(w.entry.value.value, w.entry.version.value)))
  }

  lemma CommittedStill(w: World, item: Versioned, v: World)
    requires Committed(w, item) && w.commits <= v.commits
    ensures Committed(v, item)
  {
    var i :| 0 <= i < |w.commits| && w.commits[i] == item;
    assert v.commits[i] == item;
  }

  lemma InvCommit(w: World, value: Name, version: int)
    requires Inv(w)
    ensures Inv(Step(w, COMMIT(value, version)))
  {
    var v := Step(w, COMMIT(value, version));
    forall item | Committed(w, item) ensures Committed(v, item) {
      CommittedStill(w, item, v);
    }
  }

  lemma InvFill(w: World, i: nat)
    requires Inv(w) && i < |w.fetched|
    ensures Inv(Step(w, FILL(i)))
  {
    AmongMore(w.filled, w.fetched[i].version);
    assert Committed(w, w.fetched[i]);
    var k :| 0 <= k < |w.commits| && w.commits[k] == w.fetched[i];
    assert k == |w.commits| - 1 || w.commits[k].version < w.commits[|w.commits| - 1].version;
    assert w.fetched[i] == Versioned(w.fetched[i].value, w.fetched[i].version);
  }

  lemma InvInvalidate(w: World, i: nat)
    requires Inv(w) && i < |w.commits|
    ensures Inv(Step(w, INVALIDATE(i)))
  {
    AmongMore(w.applied, w.commits[i].version);
    assert i == |w.commits| - 1 || w.commits[i].version < w.commits[|w.commits| - 1].version;
  }

  lemma InvStep(w: World, op: Op)
    requires Inv(w)
    ensures Inv(Step(w, op)) && w.entry.fence <= Step(w, op).entry.fence
  {
    match op
    case COMMIT(value, version) => InvCommit(w, value, version);
    case READ =>
    case FILL(i) => if i < |w.fetched| { InvFill(w, i); }
    case INVALIDATE(i) => if i < |w.commits| { InvInvalidate(w, i); }
  }

  lemma {:induction false} InvRun(w: World, ops: seq<Op>)
    requires Inv(w)
    ensures Inv(Run(w, ops)) && w.entry.fence <= Run(w, ops).entry.fence
  {
    if ops != [] {
      InvRun(w, ops[..|ops| - 1]);
      InvStep(Run(w, ops[..|ops| - 1]), ops[|ops| - 1]);
    }
  }

  // ---- what holds in every run ----

  /** What is cached is what was committed at the version of the fence, and no older than any
      invalidation that has been applied. */
  lemma NeverStale(ops: seq<Op>)
    ensures var w := Run(Start(), ops);
            w.entry.value.Some? ==>
              && w.entry.version == Some(w.entry.fence)
              && Committed(w, Versioned(w.entry.value.value, w.entry.fence))
              && forall i | 0 <= i < |w.applied| :: w.applied[i] <= w.entry.fence
  {
    InvRun(Start(), ops);
  }

  /** Once the last commit has been invalidated, the cache is empty or holds exactly that commit. */
  lemma EmptyOrCurrent(ops: seq<Op>, k: nat)
    requires var w := Run(Start(), ops);
             w.commits != [] && k < |w.applied| && w.applied[k] == w.commits[|w.commits| - 1].version
    ensures var w := Run(Start(), ops);
            w.entry.value.Some? ==> w.commits[|w.commits| - 1] == Versioned(w.entry.value.value, w.entry.fence)
  {
    InvRun(Start(), ops);
    var w := Run(Start(), ops);
    if w.entry.value.Some? {
      var last := |w.commits| - 1;
      var i :| 0 <= i < |w.commits| && w.commits[i] == Versioned(w.entry.value.value, w.entry.fence);
      assert w.applied[k] <= w.entry.fence;
    }
  }

  /** Readers of the cache never go back to an older version. */
  lemma NeverBackwards(ops: seq<Op>, more: seq<Op>)
    requires Run(Start(), ops).entry.version.Some? && Run(Run(Start(), ops), more).entry.version.Some?
    ensures Run(Start(), ops).entry.version.value <= Run(Run(Start(), ops), more).entry.version.value
  {
    InvRun(Start(), ops);
    InvRun(Run(Start(), ops), more);
  }

  /** The comparison with the cached version never decides: a fill is rejected exactly if it is below the
      fence. */
  lemma FenceSuffices(ops: seq<Op>, item: Versioned)
    ensures var e := Run(Start(), ops).entry; BelowCached(e, item) ==> BelowFence(e, item)
  {
    InvRun(Start(), ops);
  }

  lemma RunMore(ops: seq<Op>, op: Op)
    ensures Run(Start(), ops + [op]) == Step(Run(Start(), ops), op)
  {
    assert (ops + [op])[..|ops|] == ops;
  }

  /** Exactly when a reader's fill is accepted, in every run: if its version is not negative and not below
      that of any invalidation applied or any fill accepted before. Then it is what is cached, and otherwise
      nothing changes. */
  lemma FillExact(ops: seq<Op>, i: nat)
    requires i < |Run(Start(), ops).fetched|
    ensures var w, v := Run(Start(), ops), Run(Start(), ops + [FILL(i)]);
            var item := w.fetched[i];
            var newest := item.version >= 0 && (forall k | 0 <= k < |w.applied| :: w.applied[k] <= item.version)
                          && forall k | 0 <= k < |w.filled| :: w.filled[k] <= item.version;
            if newest then && v.entry == Entry(Some(item.value), Some(item.version), item.version)
                           && v == w.(entry := v.entry, filled := w.filled + [item.version])
            else v == w
  {
    InvRun(Start(), ops);
    FenceSuffices(ops, Run(Start(), ops).fetched[i]);
    RunMore(ops, FILL(i));
    var w := Run(Start(), ops);
    if w.fetched[i].version < w.entry.fence {
      if Among(w.applied, w.entry.fence) {
        var k :| 0 <= k < |w.applied| && w.applied[k] == w.entry.fence;
      } else if Among(w.filled, w.entry.fence) {
        var k :| 0 <= k < |w.filled| && w.filled[k] == w.entry.fence;
      }
    }
  }

  /** An invalidation always empties the cache, also one that comes late, and never lowers the fence. */
  lemma InvalidationEmpties(ops: seq<Op>, i: nat)
    requires i < |Run(Start(), ops).commits|
    ensures var w, v := Run(Start(), ops), Run(Start(), ops + [INVALIDATE(i)]);
            && v.entry.value == None && v.entry.version == None
            && v.entry.fence == (if w.commits[i].version > w.entry.fence then w.commits[i].version else w.entry.fence)
            && v == w.(entry := v.entry, applied := w.applied + [w.commits[i].version])
  {
    RunMore(ops, INVALIDATE(i));
  }
}
