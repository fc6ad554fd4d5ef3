/**
  What the rebalancing lab promises: every acknowledged write survives the moves, stale routers are
  refused, and the conditions the callers must keep are exactly the ones needed.
 */
module ShardTheorems {
  import opened Results
  import opened ShardModel
  import opened ShardRun

  // ---- refinement ----

  lemma StepLog(w: World, op: Op, key: string)
    requires Wf(w)
    ensures LastWrite(Step(w, op).cluster.log, key) ==
            if AcceptedNow(w, op) && op.key == key
            then Some(Record(key, op.value, w.cluster.sequence + 1))
            else LastWrite(w.cluster.log, key)
  {
  }

  /** The log of any run records exactly the accepted writes. */
  lemma {:induction false} LogIsPlainMap(w: World, ops: seq<Op>, key: string)
    requires Fresh(w)
    ensures var last := LastWrite(Run(w, ops).cluster.log, key);
            && (last.Some? <==> key in PlainMap(w, ops))
            && (last.Some? ==> last.value.key == key && last.value.value == PlainMap(w, ops)[key])
  {
    if ops != [] {
      var before, op := Run(w, ops[..|ops| - 1]), ops[|ops| - 1];
      LogIsPlainMap(w, ops[..|ops| - 1], key);
      StepLog(before, op, key);
    }
  }

  /** Reads of the cluster are reads of the plain map of accepted writes, after any disciplined run. */
  lemma Refinement(w: World, ops: seq<Op>, key: string)
    requires Fresh(w) && Disciplined(w, ops)
    ensures var r := Run(w, ops).cluster.Read(key);
            && (r.Some? <==> key in PlainMap(w, ops))
            && (r.Some? ==> r.value.key == key && r.value.value == PlainMap(w, ops)[key])
  {
    InvRun(w, ops);
    assert Run(w, ops).cluster.Read(key) == LastWrite(Run(w, ops).cluster.log, key);
    LogIsPlainMap(w, ops, key);
  }

  // ---- epochs and stale routes: no discipline needed ----

  /** This operation is a cutover of the shard that goes through. */
  ghost predicate Cuts(w: World, op: Op, shard: int)
    requires Wf(w)
  {
    && op.CutoverOp? && op.i < |w.migrations|
    && w.migrations[op.i].shard == shard
    && Cutover(w.cluster, w.migrations[op.i], true).1.Ok?
  }

  ghost predicate CutsWithin(w: World, ops: seq<Op>, shard: int)
    requires Wf(w)
  {
    ops != [] &&
    (CutsWithin(w, ops[..|ops| - 1], shard) || Cuts(Run(w, ops[..|ops| - 1]), ops[|ops| - 1], shard))
  }

  /** One step moves a shard to the next epoch if it is a cutover of the shard, and otherwise leaves it. */
  lemma EpochStep(w: World, op: Op, shard: int)
    requires Wf(w) && shard in w.cluster.shardMap
    ensures Wf(Step(w, op)) && shard in Step(w, op).cluster.shardMap
    ensures var now, next := w.cluster.shardMap[shard], Step(w, op).cluster.shardMap[shard];
            if Cuts(w, op, shard) then next.epoch == now.epoch + 1 else next == now
  {
    StepWf(w, op);
  }

  /** Epochs never fall; they stay only while no cutover goes through; and an epoch has one owner. */
  lemma {:induction false} EpochsGrow(w: World, ops: seq<Op>, shard: int)
    requires Wf(w) && shard in w.cluster.shardMap
    ensures var now, later := w.cluster.shardMap[shard], Run(w, ops).cluster.shardMap[shard];
            && now.epoch <= later.epoch
            && (now.epoch == later.epoch <==> !CutsWithin(w, ops, shard))
            && (now.epoch == later.epoch ==> now.owner == later.owner)
  {
    if ops != [] {
      EpochsGrow(w, ops[..|ops| - 1], shard);
      EpochStep(Run(w, ops[..|ops| - 1]), ops[|ops| - 1], shard);
    }
  }

  /** A route snapshot is honoured for a shard exactly until the next cutover of that shard; after it,
      for ever refused, and a refused write changes nothing. */
  lemma SnapshotValidity(w: World, ops: seq<Op>, key: string, value: string)
    requires Wf(w)
    ensures var routes := w.cluster.shardMap;
            var (after, r) := Write(Run(w, ops).cluster, routes, key, value, true);
            && r.Ok?
            && (r.value.accepted <==> !CutsWithin(w, ops, w.cluster.ShardOf(key)))
            && (!r.value.accepted ==> after == Run(w, ops).cluster)
  {
    EpochsGrow(w, ops, w.cluster.ShardOf(key));
    NodesStay(w, ops);
  }

  lemma StepNodes(w: World, op: Op)
    requires Wf(w)
    ensures Step(w, op).cluster.nodes.Keys == w.cluster.nodes.Keys
  {
  }

  lemma {:induction false} NodesStay(w: World, ops: seq<Op>)
    requires Wf(w)
    ensures Run(w, ops).cluster.nodes.Keys == w.cluster.nodes.Keys
  {
    if ops != [] {
      NodesStay(w, ops[..|ops| - 1]);
      StepNodes(Run(w, ops[..|ops| - 1]), ops[|ops| - 1]);
    }
  }

  // ---- catch-up ----

  /** After catch-up the two ends agree on every key of the shard and the shard is quiet; the count is
      the number of writes to the shard since the replay point, so a second call replays nothing; and
      no node's records of other shards change. */
  lemma CatchUpAgrees(w: World, i: nat)
    requires Inv(w) && i < |w.migrations|
    requires w.migrations[i].phase == COPY || w.migrations[i].phase == CATCH_UP
    ensures var c, m := w.cluster, w.migrations[i];
            var ((c', m'), r) := CatchUp(c, m);
            && (forall key | c.ShardOf(key) == m.shard :: Get(c'.nodes[m.target], key) == Get(c'.nodes[m.source], key))
            && (forall x, key | x in c.nodes && c.ShardOf(key) != m.shard :: Get(c'.nodes[x], key) == Get(c.nodes[x], key))
            && Quiet(c', m')
            && r == Ok(ShardWrites(c.log, m.shard) - ShardWrites(c.log[..m.replayedThrough], m.shard))
            && CatchUp(c', m').1 == Ok(0)
  {
    var c, m := w.cluster, w.migrations[i];
    var ((c', m'), r) := CatchUp(c, m);
    assert MigrationOk(c, m);
    assert c.log[..|c.log|] == c.log;
    ReplayCountIsShardWrites(c, m, |c.log|);
    forall key
      ensures c.ShardOf(key) == m.shard ==> Get(c'.nodes[m.target], key) == c.Read(key)
      ensures c.ShardOf(key) != m.shard ==> Get(c'.nodes[m.target], key) == Get(c.nodes[m.target], key)
    {
      if c.ShardOf(key) == m.shard {
        ReplayReachesLog(c, m, |c.log|, c.nodes[m.target], key);
        assert c.Read(key) == LastWrite(c.log, key);
      } else {
        ReplayFrame(c, m, |c.log|, c.nodes[m.target], key);
      }
    }
    ReplayCountIsShardWrites(c', m', |c'.log|);
  }

  // ---- exact conditions ----

  lemma {:induction false} LastWriteAfter(log: seq<LogEntry>, key: string, j: nat)
    requires forall n | 0 <= n < |log| :: log[n].record.sequence == n + 1
    requires j < |log| && log[j].record.key == key
    ensures LastWrite(log, key).Some? && LastWrite(log, key).value.sequence > j
  {
    if log[|log| - 1].record.key != key {
      LastWriteAfter(log[..|log| - 1], key, j);
    }
  }

  /** A cutover goes through, and preserves every read exactly when the shard has been quiet since the
      last replay. */
  lemma CutoverExact(w: World, i: nat)
    requires Inv(w) && i < |w.migrations| && w.migrations[i].phase == CATCH_UP
    ensures Cutover(w.cluster, w.migrations[i], true).1 == Ok(w.cluster.shardMap[w.migrations[i].shard].epoch + 1)
    ensures (forall key :: Step(w, CutoverOp(i)).cluster.Read(key) == w.cluster.Read(key))
       <==> Quiet(w.cluster, w.migrations[i])
  {
    var c, m, c' := w.cluster, w.migrations[i], Step(w, CutoverOp(i)).cluster;
    assert MigrationOk(c, m);
    if Quiet(c, m) {
      InvCutover(w, i);
      forall key ensures c'.Read(key) == c.Read(key) {
        assert c'.Read(key) == LastWrite(c.log, key) == c.Read(key);
      }
    } else {
      var j :| 0 <= j < |c.log| && c.log[j].sequence > m.replayedThrough && c.log[j].shard == m.shard;
      var key := c.log[j].record.key;
      LastWriteAfter(c.log, key, j);
      LastWriteSource(c.log[..m.replayedThrough], key);
      assert c.Read(key) == LastWrite(c.log, key);
      assert c'.Read(key) == LastWrite(c.log[..m.replayedThrough], key);
    }
  }

  /** Cleaning up preserves every read exactly when the source no longer owns the shard or has nothing
      of it. */
  lemma CleanUpExact(c: ClusterState, m: MigrationState)
    requires c.WellFormed() && Planned(c, m) && m.phase == CUTOVER
    ensures (forall key :: CleanUp(c, m).0.0.Read(key) == c.Read(key))
       <==> (c.shardMap[m.shard].owner != m.source || Slice(c, m.source, m.shard) == map[])
  {
    var c' := CleanUp(c, m).0.0;
    if c.shardMap[m.shard].owner == m.source && Slice(c, m.source, m.shard) != map[] {
      var key :| key in Slice(c, m.source, m.shard);
      assert c'.Read(key) != c.Read(key);
    }
  }

  /** Reassigning a shard without a migration preserves every read exactly when the two nodes hold the
      same records of it; before the first write they always do. */
  lemma SetOwnerExact(c: ClusterState, shard: int, owner: string, epoch: int)
    requires c.WellFormed() && SetOwner(c, shard, owner, epoch).1.Ok?
    ensures SetOwner(c, shard, owner, epoch).0.WellFormed()
    ensures (forall key :: SetOwner(c, shard, owner, epoch).0.Read(key) == c.Read(key))
       <==> Slice(c, owner, shard) == Slice(c, c.shardMap[shard].owner, shard)
  {
    var c', was := SetOwner(c, shard, owner, epoch).0, c.shardMap[shard].owner;
    if forall key :: c'.Read(key) == c.Read(key) {
      forall key ensures Get(Slice(c, owner, shard), key) == Get(Slice(c, was, shard), key) {
        assert c'.Read(key) == c.Read(key);
      }
      SameTable(Slice(c, owner, shard), Slice(c, was, shard));
    } else {
      var key :| c'.Read(key) != c.Read(key);
      assert Get(Slice(c, owner, shard), key) != Get(Slice(c, was, shard), key);
    }
  }

  lemma SameTable(a: map<string, Record>, b: map<string, Record>)
    requires forall key :: Get(a, key) == Get(b, key)
    ensures a == b
  {
    forall key ensures key in a <==> key in b {
      assert Get(a, key) == Get(b, key);
    }
    forall key | key in a ensures a[key] == b[key] {
      assert Get(a, key) == Get(b, key);
    }
  }
}
