/**
  Runs with any number of steps out of turn: several live migrations of a shard at once, and shards
  reassigned by hand in between. Each such step need only pass a test on the state it finds; then the
  store still refines one plain map.
 */
module ShardOutOfTurn {
  import opened ShardModel
  import opened ShardRun
  import opened ShardTheorems
  import opened ShardBystander
  import opened ShardOverlap
  import opened ShardReassign

  datatype AnyOp = TURN(op: Op) | SET_OWNER(shard: int, owner: string, epoch: int)

  ghost function After(w: World, a: AnyOp): World
    requires Wf(w)
  {
    match a
    case TURN(op) => Step(w, op)
    case SET_OWNER(shard, owner, epoch) => Reassigned(w, shard, owner, epoch)
  }

  lemma AfterWf(w: World, a: AnyOp)
    requires Wf(w)
    ensures Wf(After(w, a))
    ensures After(w, a).cluster.digest == w.cluster.digest && After(w, a).cluster.virtualShards == w.cluster.virtualShards
  {
    if a.TURN? {
      StepWf(w, a.op);
    }
  }

  ghost function AnyRun(w: World, ops: seq<AnyOp>): (r: World)
    requires Wf(w)
    ensures Wf(r)
  {
    if ops == [] then w
    else
      var before := AnyRun(w, ops[..|ops| - 1]);
      AfterWf(before, ops[|ops| - 1]);
      After(before, ops[|ops| - 1])
  }

  // ---- the test on each step ----

  /** A migration that has nothing left to do at the owner of its shard but to be cut over. */
  ghost predicate Replayed(c: ClusterState, m: MigrationState)
    requires c.WellFormed() && Planned(c, m)
  {
    (m.phase == COPY || m.phase == CATCH_UP) && NothingToMove(c, m)
  }

  /** A migration goes to a node that no live migration of the shard can still touch; a cutover finds the
      shard quiet; a reassignment is to a node that agrees on the shard and that no live migration can
      still touch, with an epoch higher than before. */
  ghost predicate Permitted(w: World, a: AnyOp)
    requires Wf(w)
  {
    match a
    case TURN(BeginOp(shard, target)) =>
      forall j | 0 <= j < |w.migrations| && w.migrations[j].shard == shard && Live(w.migrations[j]) ::
        OtherEnd(w.migrations[j]) != target
    case TURN(op) => Allowed(w, op)
    case SET_OWNER(shard, owner, epoch) =>
      SetOwner(w.cluster, shard, owner, epoch).1.Ok? ==>
        && SlicesAgree(w, shard, owner) && epoch > w.cluster.shardMap[shard].epoch
        && forall j | 0 <= j < |w.migrations| && w.migrations[j].shard == shard && Live(w.migrations[j]) ::
             OtherEnd(w.migrations[j]) == owner ==> Replayed(w.cluster, w.migrations[j])
  }

  ghost predicate Prudent(w: World, ops: seq<AnyOp>)
    requires Wf(w)
  {
    ops != [] ==>
      && Prudent(w, ops[..|ops| - 1])
      && Permitted(AnyRun(w, ops[..|ops| - 1]), ops[|ops| - 1])
  }

  // ---- what every such step keeps ----

  /** A migration that can still be cut over. */
  ghost predicate InStep(c: ClusterState, m: MigrationState)
    requires c.WellFormed() && Planned(c, m)
  {
    Early(m) && c.shardMap[m.shard] == Route(m.source, m.sourceEpoch)
  }

  ghost predicate Fine(c: ClusterState, m: MigrationState)
    requires c.WellFormed() && Planned(c, m)
  {
    if m.phase == CLEANUP then true
    else if m.phase == CUTOVER then c.shardMap[m.shard].owner != m.source
    else if InStep(c, m) then
      m.phase == PREPARE || (m.replayedThrough <= |c.log| && TailAtSource(c.log, m) && TargetAgrees(c, m))
    else
      && m.sourceEpoch < c.shardMap[m.shard].epoch
      && (c.shardMap[m.shard].owner == m.target ==> Replayed(c, m))
  }

  /** Nobody else touches the target of a migration that can still be cut over. */
  ghost predicate Apart(c: ClusterState, m: MigrationState, other: MigrationState)
    requires c.WellFormed() && Planned(c, m)
  {
    InStep(c, m) && other.shard == m.shard && Live(other) ==> OtherEnd(other) != m.target
  }

  /** Every record has been logged. */
  ghost predicate Logged(c: ClusterState) {
    forall x, key | x in c.nodes && key in c.nodes[x] :: LastWrite(c.log, key).Some?
  }

  ghost predicate AllFine(w: World)
    requires Wf(w)
  {
    forall i | 0 <= i < |w.migrations| :: Fine(w.cluster, w.migrations[i])
  }

  ghost predicate AllApart(w: World)
    requires Wf(w)
  {
    forall i, j | 0 <= i < |w.migrations| && 0 <= j < |w.migrations| && i != j ::
      Apart(w.cluster, w.migrations[i], w.migrations[j])
  }

  ghost predicate Keeps(w: World) {
    Wf(w) && ReadsAreLastWrites(w.cluster) && Logged(w.cluster) && AllFine(w) && AllApart(w)
  }

  /** A migration stays as it was under any change that leaves its route, the replayed part of the log and
      the records of its shard at its target alone, and logs writes at the owner. */
  lemma FineFrame(c: ClusterState, c': ClusterState, m: MigrationState)
    requires c.WellFormed() && c'.WellFormed() && Planned(c, m) && Planned(c', m) && Fine(c, m)
    requires c'.digest == c.digest && c'.virtualShards == c.virtualShards
    requires Live(m) ==> c'.shardMap[m.shard] == c.shardMap[m.shard]
    requires c.log <= c'.log
    requires forall j | |c.log| <= j < |c'.log| && c'.log[j].shard == m.shard :: c'.log[j].owner == c.shardMap[m.shard].owner
    requires InStep(c, m) && m.phase != PREPARE ==>
               forall key | c.ShardOf(key) == m.shard :: Get(c'.nodes[m.target], key) == Get(c.nodes[m.target], key)
    ensures Fine(c', m)
  {
    if InStep(c, m) && m.phase != PREPARE {
      assert c'.log[..m.replayedThrough] == c.log[..m.replayedThrough];
      forall j | m.replayedThrough <= j < |c'.log| && c'.log[j].shard == m.shard ensures c'.log[j].owner == m.source {
        if j < |c.log| {
          assert c'.log[j] == c.log[j];
        }
      }
    } else if Early(m) && c.shardMap[m.shard].owner == m.target {
      forall j | 0 <= j < |c'.log| ensures !Applies(c'.log[j], m) {
        if j < |c.log| {
          assert c'.log[j] == c.log[j];
        }
      }
    }
  }

  // ---- writes and new migrations ----

  lemma KeepsWrite(w: World, op: Op)
    requires Keeps(w) && op.WriteOp? && AcceptedNow(w, op)
    ensures Keeps(Step(w, op))
  {
    var c, w' := w.cluster, Step(w, op);
    var c' := w'.cluster;
    StepWf(w, op);
    assert c'.log[..|c.log|] == c.log;
    forall key ensures c'.Read(key) == LastWrite(c'.log, key) {
      assert c.Read(key) == LastWrite(c.log, key);
    }
    forall i | 0 <= i < |w.migrations| ensures Fine(c', w.migrations[i]) {
      assert Planned(c, w.migrations[i]) && Fine(c, w.migrations[i]);
      FineFrame(c, c', w.migrations[i]);
    }
    forall i, j | 0 <= i < |w.migrations| && 0 <= j < |w.migrations| && i != j
      ensures Apart(c', w.migrations[i], w.migrations[j])
    {
      assert Apart(c, w.migrations[i], w.migrations[j]);
    }
  }

  lemma KeepsBegin(w: World, op: Op)
    requires Keeps(w) && op.BeginOp? && Permitted(w, TURN(op))
    ensures Keeps(Step(w, op))
  {
    var w' := Step(w, op);
    StepWf(w, op);
    assert w'.cluster == w.cluster;
    assert forall i | 0 <= i < |w.migrations| :: w'.migrations[i] == w.migrations[i];
    forall i, j | 0 <= i < |w'.migrations| && 0 <= j < |w'.migrations| && i != j
      ensures Apart(w'.cluster, w'.migrations[i], w'.migrations[j])
    {
      assert i < |w.migrations| && j < |w.migrations| ==> Apart(w.cluster, w.migrations[i], w.migrations[j]);
    }
  }

  // ---- copying, replaying and cleaning up ----

  /** One migration moves on and changes records of its shard at one node, not the owner, nor the target of
      another migration that can still be cut over. */
  lemma OneNode(w: World, w': World, i: nat, node: string)
    requires Keeps(w) && Wf(w') && i < |w.migrations| == |w'.migrations| && Live(w.migrations[i])
    requires forall j | 0 <= j < |w.migrations| && j != i :: w'.migrations[j] == w.migrations[j]
    requires w'.cluster.(nodes := w.cluster.nodes) == w.cluster && w'.cluster.nodes.Keys == w.cluster.nodes.Keys
    requires node == OtherEnd(w.migrations[i]) && (Live(w'.migrations[i]) ==> OtherEnd(w'.migrations[i]) == node)
    requires var m, m' := w.migrations[i], w'.migrations[i];
             m'.shard == m.shard && m'.source == m.source && m'.target == m.target && m'.sourceEpoch == m.sourceEpoch
    requires Early(w'.migrations[i]) ==> Early(w.migrations[i])
    requires node in w.cluster.nodes && node != w.cluster.shardMap[w.migrations[i].shard].owner
    requires forall x | x in w'.cluster.nodes && x != node :: w'.cluster.nodes[x] == w.cluster.nodes[x]
    requires forall key | w.cluster.ShardOf(key) != w.migrations[i].shard ::
               Get(w'.cluster.nodes[node], key) == Get(w.cluster.nodes[node], key)
    requires forall key | key in w'.cluster.nodes[node] :: LastWrite(w.cluster.log, key).Some?
    requires Fine(w'.cluster, w'.migrations[i])
    ensures Keeps(w')
  {
    var c, c' := w.cluster, w'.cluster;
    forall key ensures c'.Read(key) == LastWrite(c'.log, key) {
      assert c.Read(key) == LastWrite(c.log, key);
    }
    forall j | 0 <= j < |w'.migrations| ensures Fine(c', w'.migrations[j]) {
      if j != i {
        assert Planned(c, w.migrations[j]) && Fine(c, w.migrations[j]) && Apart(c, w.migrations[j], w.migrations[i]);
        FineFrame(c, c', w.migrations[j]);
      }
    }
    forall k, j | 0 <= k < |w'.migrations| && 0 <= j < |w'.migrations| && k != j
      ensures Apart(c', w'.migrations[k], w'.migrations[j])
    {
      assert Apart(c, w.migrations[k], w.migrations[j]);
    }
  }

  lemma KeepsCopy(w: World, i: nat)
    requires Keeps(w) && i < |w.migrations| && w.migrations[i].phase == PREPARE
    ensures Keeps(Step(w, CopyOp(i)))
  {
    var m, c, w' := w.migrations[i], w.cluster, Step(w, CopyOp(i));
    var c' := w'.cluster;
    StepWf(w, CopyOp(i));
    assert Planned(c, m) && Fine(c, m);
    assert c'.log[..|c.log|] == c.log;
    if InStep(c, m) {
      forall key | c.ShardOf(key) == m.shard ensures Get(c'.nodes[m.target], key) == LastWrite(c.log, key) {
        assert c.Read(key) == LastWrite(c.log, key);
        assert key in c.nodes[m.target] ==> LastWrite(c.log, key).Some?;
      }
    }
    OneNode(w, w', i, m.target);
  }

  lemma {:induction false} ReplayLogged(log: seq<LogEntry>, m: MigrationState, table: map<string, Record>, key: string)
    requires key in Replay(log, m, table)
    ensures key in table || LastWrite(log, key).Some?
  {
    if log != [] && log[|log| - 1].record.key != key {
      ReplayLogged(log[..|log| - 1], m, table, key);
    }
  }

  lemma KeepsCatchUp(w: World, i: nat)
    requires Keeps(w) && i < |w.migrations| && (w.migrations[i].phase == COPY || w.migrations[i].phase == CATCH_UP)
    ensures Keeps(Step(w, CatchUpOp(i)))
  {
    var m, c, w' := w.migrations[i], w.cluster, Step(w, CatchUpOp(i));
    StepWf(w, CatchUpOp(i));
    assert Planned(c, m) && Fine(c, m);
    if c.shardMap[m.shard].owner == m.target {
      ReplayNothing(c.log, m, c.nodes[m.target]);
      NothingReplayed(w, i);
    } else {
      forall key
        ensures c.ShardOf(key) != m.shard ==> Get(w'.cluster.nodes[m.target], key) == Get(c.nodes[m.target], key)
        ensures key in w'.cluster.nodes[m.target] ==> LastWrite(c.log, key).Some?
      {
        if c.ShardOf(key) != m.shard {
          ReplayUntouched(c, c.log, m, c.nodes[m.target], key);
        }
        if key in w'.cluster.nodes[m.target] {
          ReplayLogged(c.log, m, c.nodes[m.target], key);
        }
      }
      CaughtUpFine(w, i);
      OneNode(w, w', i, m.target);
    }
  }

  lemma CaughtUpFine(w: World, i: nat)
    requires Keeps(w) && i < |w.migrations| && (w.migrations[i].phase == COPY || w.migrations[i].phase == CATCH_UP)
    requires w.cluster.shardMap[w.migrations[i].shard].owner != w.migrations[i].target
    ensures Wf(Step(w, CatchUpOp(i))) && Fine(Step(w, CatchUpOp(i)).cluster, Step(w, CatchUpOp(i)).migrations[i])
  {
    var m, c, w' := w.migrations[i], w.cluster, Step(w, CatchUpOp(i));
    StepWf(w, CatchUpOp(i));
    assert Planned(c, m) && Fine(c, m);
    if InStep(c, m) {
      assert c.log[..|c.log|] == c.log && w'.migrations[i].replayedThrough == |c.log|;
      forall key | c.ShardOf(key) == m.shard ensures Get(w'.cluster.nodes[m.target], key) == LastWrite(c.log, key) {
        ReplayReachesLog(c, m, |c.log|, c.nodes[m.target], key);
      }
    }
  }

  /** A replay that finds nothing moves the replay point and nothing else. */
  lemma NothingReplayed(w: World, i: nat)
    requires Keeps(w) && i < |w.migrations| && (w.migrations[i].phase == COPY || w.migrations[i].phase == CATCH_UP)
    requires w.cluster.shardMap[w.migrations[i].shard].owner == w.migrations[i].target
    requires Replay(w.cluster.log, w.migrations[i], w.cluster.nodes[w.migrations[i].target]) == w.cluster.nodes[w.migrations[i].target]
    ensures Keeps(Step(w, CatchUpOp(i)))
  {
    var m, c, w' := w.migrations[i], w.cluster, Step(w, CatchUpOp(i));
    StepWf(w, CatchUpOp(i));
    assert Planned(c, m) && Fine(c, m);
    assert w'.cluster == c;
    forall k, j | 0 <= k < |w'.migrations| && 0 <= j < |w'.migrations| && k != j
      ensures Apart(c, w'.migrations[k], w'.migrations[j])
    {
      assert Apart(c, w.migrations[k], w.migrations[j]);
    }
    assert forall j | 0 <= j < |w.migrations| && j != i :: w'.migrations[j] == w.migrations[j];
  }

  lemma KeepsCleanUp(w: World, i: nat)
    requires Keeps(w) && i < |w.migrations| && w.migrations[i].phase == CUTOVER
    ensures Keeps(Step(w, CleanUpOp(i)))
  {
    var m, c, w' := w.migrations[i], w.cluster, Step(w, CleanUpOp(i));
    StepWf(w, CleanUpOp(i));
    assert Planned(c, m) && Fine(c, m);
    forall key
      ensures c.ShardOf(key) != m.shard ==> Get(w'.cluster.nodes[m.source], key) == Get(c.nodes[m.source], key)
      ensures key in w'.cluster.nodes[m.source] ==> LastWrite(c.log, key).Some?
    {
      AfterCleanUp(c, m, m.source, key);
    }
    OneNode(w, w', i, m.source);
  }

  // ---- a new owner ----

  /** The owner of one shard changes, with a higher epoch: what could be cut over no longer can, and what
      is still to be done does not touch the new owner. */
  lemma NewOwner(c: ClusterState, c': ClusterState, shard: int, m: MigrationState)
    requires c.WellFormed() && c'.WellFormed() && Planned(c, m) && Planned(c', m) && Fine(c, m)
    requires c' == c.(shardMap := c'.shardMap)
    requires forall s | s in c.shardMap && s != shard :: c'.shardMap[s] == c.shardMap[s]
    requires shard in c.shardMap && c'.shardMap[shard].epoch > c.shardMap[shard].epoch
    requires m.shard == shard && Live(m) && OtherEnd(m) == c'.shardMap[shard].owner ==> Replayed(c, m)
    ensures Fine(c', m)
  {
    if m.shard != shard {
      FineFrame(c, c', m);
    }
  }

  lemma KeepsCutover(w: World, i: nat)
    requires Keeps(w) && i < |w.migrations| && w.migrations[i].phase == CATCH_UP && Quiet(w.cluster, w.migrations[i])
    requires InStep(w.cluster, w.migrations[i])
    ensures Keeps(Step(w, CutoverOp(i)))
  {
    var m, c, w' := w.migrations[i], w.cluster, Step(w, CutoverOp(i));
    var c' := w'.cluster;
    StepWf(w, CutoverOp(i));
    assert Planned(c, m) && Fine(c, m);
    forall key ensures c'.Read(key) == LastWrite(c'.log, key) {
      assert c.Read(key) == LastWrite(c.log, key);
      if c.ShardOf(key) == m.shard {
        QuietTail(c, m, |c.log|, key);
        assert c.log[..|c.log|] == c.log;
      }
    }
    forall j | 0 <= j < |w'.migrations| ensures Fine(c', w'.migrations[j]) {
      if j != i {
        assert Planned(c, w.migrations[j]) && Fine(c, w.migrations[j]) && Apart(c, m, w.migrations[j]);
        NewOwner(c, c', m.shard, w.migrations[j]);
      }
    }
    ApartAfter(w, w', m.shard);
  }

  lemma ApartAfter(w: World, w': World, shard: int)
    requires Keeps(w) && Wf(w') && |w'.migrations| == |w.migrations| && shard in w.cluster.shardMap
    requires w'.cluster == w.cluster.(shardMap := w'.cluster.shardMap)
    requires forall s | s in w.cluster.shardMap && s != shard :: w'.cluster.shardMap[s] == w.cluster.shardMap[s]
    requires w'.cluster.shardMap[shard].epoch > w.cluster.shardMap[shard].epoch
    requires forall j | 0 <= j < |w.migrations| ::
               w'.migrations[j] == w.migrations[j] || (w.migrations[j].shard == shard && w'.migrations[j] == w.migrations[j].(phase := CUTOVER))
    ensures AllApart(w')
  {
    forall k, j | 0 <= k < |w'.migrations| && 0 <= j < |w'.migrations| && k != j
      ensures Apart(w'.cluster, w'.migrations[k], w'.migrations[j])
    {
      assert Planned(w.cluster, w.migrations[k]) && Fine(w.cluster, w.migrations[k]);
      assert Apart(w.cluster, w.migrations[k], w.migrations[j]);
    }
  }

  lemma KeepsSetOwner(w: World, shard: int, owner: string, epoch: int)
    requires Keeps(w) && SetOwner(w.cluster, shard, owner, epoch).1.Ok? && Permitted(w, SET_OWNER(shard, owner, epoch))
    ensures Keeps(Reassigned(w, shard, owner, epoch))
  {
    var w' := Reassigned(w, shard, owner, epoch);
    var c, c' := w.cluster, w'.cluster;
    ReassignedWf(w, shard, owner, epoch);
    SetOwnerExact(c, shard, owner, epoch);
    forall key ensures c'.Read(key) == LastWrite(c'.log, key) {
      assert c.Read(key) == LastWrite(c.log, key);
    }
    forall j | 0 <= j < |w'.migrations| ensures Fine(c', w'.migrations[j]) {
      assert Planned(c, w.migrations[j]) && Fine(c, w.migrations[j]);
      NewOwner(c, c', shard, w.migrations[j]);
    }
    ApartAfter(w, w', shard);
  }

  // ---- whole runs ----

  lemma KeepsStep(w: World, a: AnyOp)
    requires Keeps(w) && Permitted(w, a)
    ensures Keeps(After(w, a))
  {
    if After(w, a) != w {
      match a
      case SET_OWNER(shard, owner, epoch) => KeepsSetOwner(w, shard, owner, epoch);
      case TURN(op) => KeepsTurn(w, op);
    }
  }

  lemma KeepsTurn(w: World, op: Op)
    requires Keeps(w) && Permitted(w, TURN(op)) && Step(w, op) != w
    ensures Keeps(Step(w, op))
  {
    match op
    case WriteOp(_, _, _) => KeepsWrite(w, op);
    case BeginOp(_, _) => KeepsBegin(w, op);
    case CopyOp(i) => KeepsCopy(w, i);
    case CatchUpOp(i) => KeepsCatchUp(w, i);
    case CutoverOp(i) => KeepsCutover(w, i);
    case CleanUpOp(i) => KeepsCleanUp(w, i);
  }

  lemma {:induction false} KeepsRun(w: World, ops: seq<AnyOp>)
    requires Keeps(w) && Prudent(w, ops)
    ensures Keeps(AnyRun(w, ops))
  {
    if ops != [] {
      KeepsRun(w, ops[..|ops| - 1]);
      KeepsStep(AnyRun(w, ops[..|ops| - 1]), ops[|ops| - 1]);
    }
  }

  ghost predicate AcceptedIn(w: World, a: AnyOp)
    requires Wf(w)
  {
    a.TURN? && AcceptedNow(w, a.op)
  }

  /** One plain map, updated by every accepted write and by nothing else. */
  ghost function PlainMapOf(w: World, ops: seq<AnyOp>): map<string, string>
    requires Wf(w)
  {
    if ops == [] then map[]
    else
      var a := ops[|ops| - 1];
      var before := PlainMapOf(w, ops[..|ops| - 1]);
      if AcceptedIn(AnyRun(w, ops[..|ops| - 1]), a) then before[a.op.key := a.op.value] else before
  }

  lemma {:induction false} LogIsPlainMapOf(w: World, ops: seq<AnyOp>, key: string)
    requires Fresh(w)
    ensures var last := LastWrite(AnyRun(w, ops).cluster.log, key);
            && (last.Some? <==> key in PlainMapOf(w, ops))
            && (last.Some? ==> last.value.key == key && last.value.value == PlainMapOf(w, ops)[key])
  {
    if ops != [] {
      var before, a := AnyRun(w, ops[..|ops| - 1]), ops[|ops| - 1];
      LogIsPlainMapOf(w, ops[..|ops| - 1], key);
      if a.TURN? {
        StepLog(before, a.op, key);
      }
    }
  }

  /** Reads of the cluster are reads of the plain map, after any run whose steps pass the test. */
  lemma PrudentRefinement(w: World, ops: seq<AnyOp>, key: string)
    requires Fresh(w) && Prudent(w, ops)
    ensures var r := AnyRun(w, ops).cluster.Read(key);
            && (r.Some? <==> key in PlainMapOf(w, ops))
            && (r.Some? ==> r.value.key == key && r.value.value == PlainMapOf(w, ops)[key])
  {
    KeepsRun(w, ops);
    assert AnyRun(w, ops).cluster.Read(key) == LastWrite(AnyRun(w, ops).cluster.log, key);
    LogIsPlainMapOf(w, ops, key);
  }

  // ---- disciplined runs are among them ----

  function Turns(ops: seq<Op>): seq<AnyOp> {
    if ops == [] then [] else Turns(ops[..|ops| - 1]) + [TURN(ops[|ops| - 1])]
  }

  lemma {:induction false} DisciplinedIsPrudent(w: World, ops: seq<Op>)
    requires Wf(w)
    ensures AnyRun(w, Turns(ops)) == Run(w, ops)
    ensures Disciplined(w, ops) ==> Prudent(w, Turns(ops))
  {
    if ops != [] {
      DisciplinedIsPrudent(w, ops[..|ops| - 1]);
      assert Turns(ops)[..|Turns(ops)| - 1] == Turns(ops[..|ops| - 1]);
    }
  }
}
