/**
  Whole runs of the sharded store: any number of migrations of any shards, interleaved with fenced
  writes through routes of any age. The store refines one plain map from key to last accepted value.
 */
module ShardRun {
  import opened ShardModel

  datatype World = World(cluster: ClusterState, migrations: seq<MigrationState>)

  /** What routers and operators may do, in any order. Migrations are named by order of creation. */
  datatype Op =
    | WriteOp(routes: map<int, Route>, key: string, value: string)
    | BeginOp(shard: int, target: string)
    | CopyOp(i: nat)
    | CatchUpOp(i: nat)
    | CutoverOp(i: nat)
    | CleanUpOp(i: nat)

  ghost predicate Wf(w: World) {
    && w.cluster.WellFormed()
    && forall i | 0 <= i < |w.migrations| :: Planned(w.cluster, w.migrations[i])
  }

  /** One operation. An operation that raises leaves everything as it was. */
  ghost function Step(w: World, op: Op): World
    requires Wf(w)
  {
    match op
    case WriteOp(routes, key, value) =>
      w.(cluster := Write(w.cluster, routes, key, value, true).0)
    case BeginOp(shard, target) =>
      (match Begin(w.cluster, shard, target)
       case Ok(m) => w.(migrations := w.migrations + [m])
       case Err(_) => w)
    case CopyOp(i) => if i < |w.migrations| then Put(w, i, CopySnapshot(w.cluster, w.migrations[i]).0) else w
    case CatchUpOp(i) => if i < |w.migrations| then Put(w, i, CatchUp(w.cluster, w.migrations[i]).0) else w
    case CutoverOp(i) => if i < |w.migrations| then Put(w, i, Cutover(w.cluster, w.migrations[i], true).0) else w
    case CleanUpOp(i) => if i < |w.migrations| then Put(w, i, CleanUp(w.cluster, w.migrations[i]).0) else w
  }

  function Put(w: World, i: nat, r: (ClusterState, MigrationState)): World
    requires i < |w.migrations|
  {
    World(r.0, w.migrations[i := r.1])
  }

  lemma StepWf(w: World, op: Op)
    requires Wf(w)
    ensures Wf(Step(w, op))
    ensures Step(w, op).cluster.digest == w.cluster.digest && Step(w, op).cluster.virtualShards == w.cluster.virtualShards
  {
  }

  ghost function Run(w: World, ops: seq<Op>): (r: World)
    requires Wf(w)
    ensures Wf(r)
    ensures r.cluster.digest == w.cluster.digest && r.cluster.virtualShards == w.cluster.virtualShards
  {
    if ops == [] then w
    else
      var before := Run(w, ops[..|ops| - 1]);
      StepWf(before, ops[|ops| - 1]);
      Step(before, ops[|ops| - 1])
  }

  /** Before the first write: whatever owners and epochs the operator chose with set_owner. */
  ghost predicate Fresh(w: World) {
    && Wf(w) && w.migrations == [] && w.cluster.log == []
    && forall x | x in w.cluster.nodes :: w.cluster.nodes[x] == map[]
  }

  // ---- the caller's side of the protocol ----

  predicate Live(m: MigrationState) { m.phase != CLEANUP }

  /** What the code does not enforce: one live migration a shard, and a quiet shard at cutover. */
  ghost predicate Allowed(w: World, op: Op) {
    match op
    case BeginOp(shard, _) => forall j | 0 <= j < |w.migrations| && w.migrations[j].shard == shard :: !Live(w.migrations[j])
    case CutoverOp(i) => i < |w.migrations| ==> Quiet(w.cluster, w.migrations[i])
    case _ => true
  }

  ghost predicate Disciplined(w: World, ops: seq<Op>)
    requires Wf(w)
  {
    ops != [] ==>
      && Disciplined(w, ops[..|ops| - 1])
      && Allowed(Run(w, ops[..|ops| - 1]), ops[|ops| - 1])
  }

  // ---- the plain map ----

  ghost predicate AcceptedNow(w: World, op: Op)
    requires Wf(w)
  {
    op.WriteOp? &&
    var r := Write(w.cluster, op.routes, op.key, op.value, true).1;
    r.Ok? && r.value.accepted
  }

  /** The specification: one plain map, updated by every accepted write and by nothing else. */
  ghost function PlainMap(w: World, ops: seq<Op>): map<string, string>
    requires Wf(w)
  {
    if ops == [] then map[]
    else
      var op := ops[|ops| - 1];
      var before := PlainMap(w, ops[..|ops| - 1]);
      if AcceptedNow(Run(w, ops[..|ops| - 1]), op) then before[op.key := op.value] else before
  }

  // ---- invariant ----

  ghost predicate ReadsAreLastWrites(c: ClusterState)
    requires c.WellFormed()
  {
    forall key :: c.Read(key) == LastWrite(c.log, key)
  }

  /** The target holds exactly the shard's records as of the replay point. */
  ghost predicate TargetAgrees(c: ClusterState, m: MigrationState)
    requires c.WellFormed() && Planned(c, m) && m.replayedThrough <= |c.log|
  {
    forall key | c.ShardOf(key) == m.shard ::
      Get(c.nodes[m.target], key) == LastWrite(c.log[..m.replayedThrough], key)
  }

  ghost predicate MigrationOk(c: ClusterState, m: MigrationState)
    requires c.WellFormed() && Planned(c, m)
  {
    match m.phase
    case PREPARE => c.shardMap[m.shard] == Route(m.source, m.sourceEpoch)
    case CUTOVER => c.shardMap[m.shard].owner == m.target
    case CLEANUP => true
    case _ =>
      && c.shardMap[m.shard] == Route(m.source, m.sourceEpoch)
      && m.replayedThrough <= |c.log|
      && TailAtSource(c.log, m)
      && TargetAgrees(c, m)
  }

  ghost predicate OneLiveMigration(migrations: seq<MigrationState>) {
    forall i, j | 0 <= i < |migrations| && 0 <= j < |migrations| && i != j && migrations[i].shard == migrations[j].shard ::
      !Live(migrations[i]) || !Live(migrations[j])
  }

  /** A node a migration allows to hold keys of a shard it does not own. */
  predicate Covers(m: MigrationState, node: string, shard: int) {
    && m.shard == shard
    && (m.phase == COPY || m.phase == CATCH_UP || m.phase == CUTOVER)
    && node == (if m.phase == CUTOVER then m.source else m.target)
  }

  /** The nodes that may hold keys of a shard: its owner, and the other end of its live migration. */
  ghost predicate Home(w: World, node: string, shard: int)
    requires shard in w.cluster.shardMap
  {
    || node == w.cluster.shardMap[shard].owner
    || exists i :: 0 <= i < |w.migrations| && Covers(w.migrations[i], node, shard)
  }

  ghost predicate NoLeftovers(w: World)
    requires Wf(w)
  {
    forall node, key | node in w.cluster.nodes && key in w.cluster.nodes[node] ::
      Home(w, node, w.cluster.ShardOf(key))
  }

  ghost predicate MigrationsOk(w: World)
    requires Wf(w)
  {
    forall i | 0 <= i < |w.migrations| :: MigrationOk(w.cluster, w.migrations[i])
  }

  ghost predicate Inv(w: World) {
    && Wf(w)
    && ReadsAreLastWrites(w.cluster)
    && MigrationsOk(w)
    && OneLiveMigration(w.migrations)
    && NoLeftovers(w)
  }

  /** A migration's condition survives any change that leaves alone its shard map entry, the replayed
      part of the log and the target's records of its shard, and that logs writes at the owner. */
  lemma MigrationFrame(c: ClusterState, c': ClusterState, m: MigrationState)
    requires c.WellFormed() && c'.WellFormed() && Planned(c, m) && Planned(c', m) && MigrationOk(c, m)
    requires c'.digest == c.digest && c'.virtualShards == c.virtualShards
    requires Live(m) ==> c'.shardMap[m.shard] == c.shardMap[m.shard]
    requires c.log <= c'.log
    requires forall j | |c.log| <= j < |c'.log| && c'.log[j].shard == m.shard :: c'.log[j].owner == c.shardMap[m.shard].owner
    requires m.phase == COPY || m.phase == CATCH_UP ==>
               forall key | c.ShardOf(key) == m.shard :: Get(c'.nodes[m.target], key) == Get(c.nodes[m.target], key)
    ensures MigrationOk(c', m)
  {
    if m.phase == COPY || m.phase == CATCH_UP {
      assert c'.log[..m.replayedThrough] == c.log[..m.replayedThrough];
      forall j | m.replayedThrough <= j < |c'.log| && c'.log[j].shard == m.shard ensures c'.log[j].owner == m.source {
        if j < |c.log| {
          assert c'.log[j] == c.log[j];
        }
      }
    }
  }

  /** Nothing but migration i and the tables changed, and what is new in the tables is covered. */
  lemma LeftoversFrame(w: World, w': World, i: nat)
    requires Wf(w) && Wf(w') && NoLeftovers(w) && i < |w.migrations| == |w'.migrations|
    requires w'.cluster.digest == w.cluster.digest && w'.cluster.virtualShards == w.cluster.virtualShards
    requires w'.cluster.shardMap == w.cluster.shardMap
    requires forall j | 0 <= j < |w.migrations| && j != i :: w'.migrations[j] == w.migrations[j]
    requires forall node, key | node in w'.cluster.nodes && key in w'.cluster.nodes[node] ::
               || Covers(w'.migrations[i], node, w.cluster.ShardOf(key))
               || (node in w.cluster.nodes && key in w.cluster.nodes[node] && !Covers(w.migrations[i], node, w.cluster.ShardOf(key)))
    ensures NoLeftovers(w')
  {
    forall node, key | node in w'.cluster.nodes && key in w'.cluster.nodes[node]
      ensures Home(w', node, w'.cluster.ShardOf(key))
    {
      var s := w.cluster.ShardOf(key);
      if !Covers(w'.migrations[i], node, s) && node != w.cluster.shardMap[s].owner {
        assert Home(w, node, s);
        var j :| 0 <= j < |w.migrations| && Covers(w.migrations[j], node, s);
        assert Covers(w'.migrations[j], node, s);
      }
    }
  }

  lemma InvWrite(w: World, op: Op)
    requires Inv(w) && op.WriteOp? && AcceptedNow(w, op)
    ensures Inv(Step(w, op))
  {
    var c, w' := w.cluster, Step(w, op);
    var c' := w'.cluster;
    StepWf(w, op);
    assert c'.log[..|c.log|] == c.log;
    forall key ensures c'.Read(key) == LastWrite(c'.log, key) {
      assert c.Read(key) == LastWrite(c.log, key);
    }
    forall i | 0 <= i < |w.migrations| ensures MigrationOk(c', w.migrations[i]) {
      assert Planned(c, w.migrations[i]) && MigrationOk(c, w.migrations[i]);
      MigrationFrame(c, c', w.migrations[i]);
    }
    LeftoversAfterWrite(w, op);
  }

  lemma LeftoversAfterWrite(w: World, op: Op)
    requires Wf(w) && NoLeftovers(w) && op.WriteOp? && AcceptedNow(w, op)
    ensures NoLeftovers(Step(w, op))
  {
    var c, w' := w.cluster, Step(w, op);
    forall node, key | node in w'.cluster.nodes && key in w'.cluster.nodes[node]
      ensures Home(w', node, w'.cluster.ShardOf(key))
    {
      if node != c.shardMap[c.ShardOf(key)].owner {
        assert key in c.nodes[node] && Home(w, node, c.ShardOf(key));
        var j :| 0 <= j < |w.migrations| && Covers(w.migrations[j], node, c.ShardOf(key));
        assert Covers(w'.migrations[j], node, c.ShardOf(key));
      }
    }
  }

  lemma InvBegin(w: World, op: Op)
    requires Inv(w) && op.BeginOp? && Allowed(w, op)
    ensures Inv(Step(w, op))
  {
    var c, w' := w.cluster, Step(w, op);
    StepWf(w, op);
    assert w'.cluster == c;
    assert forall i | 0 <= i < |w.migrations| :: w'.migrations[i] == w.migrations[i];
    assert MigrationsOk(w') && OneLiveMigration(w'.migrations);
    forall node, key | node in c.nodes && key in c.nodes[node]
      ensures Home(w', node, c.ShardOf(key))
    {
      assert Home(w, node, c.ShardOf(key));
      if node != c.shardMap[c.ShardOf(key)].owner {
        var j :| 0 <= j < |w.migrations| && Covers(w.migrations[j], node, c.ShardOf(key));
        assert Covers(w'.migrations[j], node, c.ShardOf(key));
      }
    }
  }

  /** Copy, catch-up and clean-up change one migration and the records one node holds of its shard.
      Everyone else's condition and every read of another shard are then untouched. */
  lemma OneNodeChange(w: World, w': World, i: nat, node: string)
    requires Inv(w) && Wf(w') && i < |w.migrations| == |w'.migrations|
    requires forall j | 0 <= j < |w.migrations| && j != i :: w'.migrations[j] == w.migrations[j]
    requires w'.cluster.(nodes := w.cluster.nodes) == w.cluster && w'.cluster.nodes.Keys == w.cluster.nodes.Keys
    requires Live(w.migrations[i]) && node in w.cluster.nodes && node != w.cluster.shardMap[w.migrations[i].shard].owner
    requires w'.migrations[i].shard == w.migrations[i].shard
    requires forall x | x in w'.cluster.nodes && x != node :: w'.cluster.nodes[x] == w.cluster.nodes[x]
    requires forall key | w.cluster.ShardOf(key) != w.migrations[i].shard ::
               Get(w'.cluster.nodes[node], key) == Get(w.cluster.nodes[node], key)
    requires MigrationOk(w'.cluster, w'.migrations[i])
    ensures ReadsAreLastWrites(w'.cluster) && MigrationsOk(w') && OneLiveMigration(w'.migrations)
  {
  }

  lemma InvCopy(w: World, i: nat)
    requires Inv(w) && i < |w.migrations| && w.migrations[i].phase == PREPARE
    ensures Inv(Step(w, CopyOp(i)))
  {
    var m, c, w' := w.migrations[i], w.cluster, Step(w, CopyOp(i));
    var c' := w'.cluster;
    StepWf(w, CopyOp(i));
    assert MigrationOk(c, m);
    assert c'.log[..|c.log|] == c.log;
    forall key | c.ShardOf(key) == m.shard
      ensures Get(c'.nodes[m.target], key) == LastWrite(c.log, key)
    {
      assert c.Read(key) == LastWrite(c.log, key);
      NothingAtTarget(w, i, key);
    }
    OneNodeChange(w, w', i, m.target);
    LeftoversFrame(w, w', i);
  }

  lemma NothingAtTarget(w: World, i: nat, key: string)
    requires Inv(w) && i < |w.migrations| && w.migrations[i].phase == PREPARE
    requires w.cluster.ShardOf(key) == w.migrations[i].shard
    ensures key !in w.cluster.nodes[w.migrations[i].target]
  {
  }

  lemma InvCatchUp(w: World, i: nat)
    requires Inv(w) && i < |w.migrations| && (w.migrations[i].phase == COPY || w.migrations[i].phase == CATCH_UP)
    ensures Inv(Step(w, CatchUpOp(i)))
  {
    var m, c, w' := w.migrations[i], w.cluster, Step(w, CatchUpOp(i));
    var c', m' := w'.cluster, w'.migrations[i];
    StepWf(w, CatchUpOp(i));
    assert MigrationOk(c, m);
    assert c'.log == c.log == c.log[..|c.log|] && m'.replayedThrough == |c.log|;
    forall key
      ensures c.ShardOf(key) == m.shard ==> Get(c'.nodes[m.target], key) == LastWrite(c.log, key)
      ensures c.ShardOf(key) != m.shard ==> Get(c'.nodes[m.target], key) == Get(c.nodes[m.target], key)
    {
      if c.ShardOf(key) == m.shard {
        ReplayReachesLog(c, m, |c.log|, c.nodes[m.target], key);
      } else {
        ReplayFrame(c, m, |c.log|, c.nodes[m.target], key);
      }
    }
    OneNodeChange(w, w', i, m.target);
    forall node, key | node in c'.nodes && key in c'.nodes[node]
      ensures || Covers(m', node, c.ShardOf(key))
              || (node in c.nodes && key in c.nodes[node] && !Covers(m, node, c.ShardOf(key)))
    {
      if node == m.target && c.ShardOf(key) != m.shard {
        assert Get(c'.nodes[m.target], key) == Get(c.nodes[m.target], key);
      }
    }
    LeftoversFrame(w, w', i);
  }

  lemma InvCleanUp(w: World, i: nat)
    requires Inv(w) && i < |w.migrations| && w.migrations[i].phase == CUTOVER
    ensures Inv(Step(w, CleanUpOp(i)))
  {
    var m, w' := w.migrations[i], Step(w, CleanUpOp(i));
    StepWf(w, CleanUpOp(i));
    assert MigrationOk(w.cluster, m);
    OneNodeChange(w, w', i, m.source);
    LeftoversFrame(w, w', i);
  }

  /** With no write to the shard after the replay point, the last writes up to it are the last writes. */
  lemma {:induction false} QuietTail(c: ClusterState, m: MigrationState, n: nat, key: string)
    requires c.WellFormed() && Quiet(c, m) && c.ShardOf(key) == m.shard
    requires m.replayedThrough <= n <= |c.log|
    ensures LastWrite(c.log[..n], key) == LastWrite(c.log[..m.replayedThrough], key)
  {
    if n > m.replayedThrough {
      assert c.log[..n][..n - 1] == c.log[..n - 1];
      QuietTail(c, m, n - 1, key);
    }
  }

  lemma InvCutover(w: World, i: nat)
    requires Inv(w) && i < |w.migrations| && w.migrations[i].phase == CATCH_UP && Quiet(w.cluster, w.migrations[i])
    ensures Inv(Step(w, CutoverOp(i)))
  {
    var m, c, w' := w.migrations[i], w.cluster, Step(w, CutoverOp(i));
    var c' := w'.cluster;
    StepWf(w, CutoverOp(i));
    assert MigrationOk(c, m);
    forall key ensures c'.Read(key) == LastWrite(c'.log, key) {
      assert c.Read(key) == LastWrite(c.log, key);
      if c.ShardOf(key) == m.shard {
        QuietTail(c, m, |c.log|, key);
        assert c.log[..|c.log|] == c.log;
      }
    }
    forall j | 0 <= j < |w'.migrations| ensures MigrationOk(c', w'.migrations[j]) {
      if j != i {
        assert Planned(c, w.migrations[j]) && MigrationOk(c, w.migrations[j]);
        assert Live(w.migrations[j]) ==> w.migrations[j].shard != m.shard;
        MigrationFrame(c, c', w.migrations[j]);
      }
    }
    LeftoversAfterCutover(w, i);
  }

  lemma LeftoversAfterCutover(w: World, i: nat)
    requires Inv(w) && i < |w.migrations| && w.migrations[i].phase == CATCH_UP
    ensures Wf(Step(w, CutoverOp(i))) && NoLeftovers(Step(w, CutoverOp(i)))
  {
    var m, c, w' := w.migrations[i], w.cluster, Step(w, CutoverOp(i));
    StepWf(w, CutoverOp(i));
    var c' := w'.cluster;
    assert MigrationOk(c, m);
    forall node, key | node in c'.nodes && key in c'.nodes[node]
      ensures Home(w', node, c'.ShardOf(key))
    {
      var s := c.ShardOf(key);
      assert Home(w, node, s);
      if node == c.shardMap[s].owner {
        assert s == m.shard ==> Covers(w'.migrations[i], node, s);
      } else {
        var j :| 0 <= j < |w.migrations| && Covers(w.migrations[j], node, s);
        assert j != i ==> Covers(w'.migrations[j], node, s);
      }
    }
  }

  lemma InvStep(w: World, op: Op)
    requires Inv(w) && Allowed(w, op)
    ensures Inv(Step(w, op))
  {
    if Step(w, op) != w {
      match op
      case WriteOp(_, _, _) => InvWrite(w, op);
      case BeginOp(_, _) => InvBegin(w, op);
      case CopyOp(i) => InvCopy(w, i);
      case CatchUpOp(i) => InvCatchUp(w, i);
      case CutoverOp(i) => InvCutover(w, i);
      case CleanUpOp(i) => InvCleanUp(w, i);
    }
  }

  lemma {:induction false} InvRun(w: World, ops: seq<Op>)
    requires Inv(w) && Disciplined(w, ops)
    ensures Inv(Run(w, ops))
  {
    if ops != [] {
      InvRun(w, ops[..|ops| - 1]);
      InvStep(Run(w, ops[..|ops| - 1]), ops[|ops| - 1]);
    }
  }
}
