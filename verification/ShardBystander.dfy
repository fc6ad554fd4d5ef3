/**
  A migration that decides nothing any more: another migration or set_owner has taken its shard
  elsewhere. The world then runs like one without that migration, which keeps the invariant.
 */
module ShardBystander {
  import opened Results
  import opened ShardModel
  import opened ShardRun

  // ---- a world and its twin without migration i ----

  /** Twins differ in migration i, which is over in the twin, and in tables. */
  ghost predicate Twins(w: World, v: World, i: nat) {
    && Wf(w) && Wf(v) && i < |w.migrations| == |v.migrations|
    && v.cluster == w.cluster.(nodes := v.cluster.nodes) && v.cluster.nodes.Keys == w.cluster.nodes.Keys
    && (forall j | 0 <= j < |w.migrations| && j != i :: v.migrations[j] == w.migrations[j])
    && v.migrations[i].phase == CLEANUP && v.migrations[i].shard == w.migrations[i].shard
  }

  /** Records of one shard at some nodes. */
  ghost predicate Within(c: ClusterState, shard: int, dead: set<string>, node: string, key: string)
    requires c.WellFormed()
  {
    node in dead && c.ShardOf(key) == shard
  }

  ghost predicate Agree(c: ClusterState, d: ClusterState, shard: int, dead: set<string>, x: string, key: string)
    requires c.WellFormed() && x in c.nodes && x in d.nodes
  {
    if Within(c, shard, dead, x, key) then key !in d.nodes[x] else Get(d.nodes[x], key) == Get(c.nodes[x], key)
  }

  /** Their tables differ at most in records of the shard at dead nodes, where the twin has none. */
  ghost predicate SameRecords(c: ClusterState, d: ClusterState, shard: int, dead: set<string>)
    requires c.WellFormed() && d.WellFormed() && d.nodes.Keys == c.nodes.Keys
  {
    forall x, key | x in c.nodes :: Agree(c, d, shard, dead, x, key)
  }

  /** A migration that has nothing to do with records of the shard at dead nodes. */
  ghost predicate Clear(m: MigrationState, shard: int, dead: set<string>) {
    m.shard == shard ==> m.source !in dead && m.target !in dead
  }

  /** Neither the owner of the shard nor another live migration of it is at a dead node. */
  ghost predicate DeadAside(w: World, i: nat, dead: set<string>)
    requires Wf(w) && i < |w.migrations|
  {
    && w.cluster.shardMap[w.migrations[i].shard].owner !in dead
    && forall j | 0 <= j < |w.migrations| && j != i && w.migrations[j].shard == w.migrations[i].shard && Live(w.migrations[j]) ::
         w.migrations[j].source !in dead && w.migrations[j].target !in dead
  }

  /** No other migration of its shard is live. */
  ghost predicate Alone(w: World, i: nat)
    requires i < |w.migrations|
  {
    forall j | 0 <= j < |w.migrations| && j != i && w.migrations[j].shard == w.migrations[i].shard :: !Live(w.migrations[j])
  }

  /** What the migration may still copy, replay or delete concerns dead nodes only, or is nothing. */
  ghost predicate Idle(w: World, i: nat, dead: set<string>)
    requires Wf(w) && i < |w.migrations|
  {
    var c, m := w.cluster, w.migrations[i];
    match m.phase
    case CLEANUP => dead == {}
    case CUTOVER => dead == {m.source}
    case _ => m.target in dead || (Alone(w, i) && c.shardMap[m.shard].owner == m.target && NothingToMove(c, m))
  }

  ghost predicate NothingToMove(c: ClusterState, m: MigrationState)
    requires c.WellFormed() && Planned(c, m)
  {
    if m.phase == PREPARE then forall key | key in c.nodes[m.source] :: c.ShardOf(key) != m.shard
    else forall j | 0 <= j < |c.log| :: !Applies(c.log[j], m)
  }

  ghost predicate Follows(w: World, v: World, i: nat, dead: set<string>) {
    && Twins(w, v, i) && SameRecords(w.cluster, v.cluster, w.migrations[i].shard, dead)
    && DeadAside(w, i, dead) && Idle(w, i, dead)
  }

  /** The migration can never be cut over. */
  ghost predicate Refused(w: World, i: nat)
    requires Wf(w) && i < |w.migrations|
  {
    var m := w.migrations[i];
    m.phase == CUTOVER || m.phase == CLEANUP ||
    (&& w.cluster.shardMap[m.shard] != Route(m.source, m.sourceEpoch)
     && forall j | 0 <= j < |w.migrations| && j != i && w.migrations[j].shard == m.shard ::
          w.migrations[j].phase == CUTOVER || w.migrations[j].phase == CLEANUP)
  }

  lemma SameReads(w: World, v: World, i: nat, dead: set<string>)
    requires Follows(w, v, i, dead) && ReadsAreLastWrites(v.cluster)
    ensures ReadsAreLastWrites(w.cluster)
  {
    forall key ensures w.cluster.Read(key) == LastWrite(w.cluster.log, key) {
      assert v.cluster.Read(key) == LastWrite(v.cluster.log, key);
      assert Agree(w.cluster, v.cluster, w.migrations[i].shard, dead, w.cluster.shardMap[w.cluster.ShardOf(key)].owner, key);
    }
  }

  // ---- the twin keeps up ----

  lemma {:induction false} ReplayPointwise(log: seq<LogEntry>, m: MigrationState, a: map<string, Record>, b: map<string, Record>, key: string)
    requires Get(a, key) == Get(b, key)
    ensures Get(Replay(log, m, a), key) == Get(Replay(log, m, b), key)
  {
    if log != [] {
      ReplayPointwise(log[..|log| - 1], m, a, b, key);
    }
  }

  lemma {:induction false} ReplayNothing(log: seq<LogEntry>, m: MigrationState, table: map<string, Record>)
    requires forall j | 0 <= j < |log| :: !Applies(log[j], m)
    ensures Replay(log, m, table) == table
  {
    if log != [] {
      ReplayNothing(log[..|log| - 1], m, table);
    }
  }

  lemma {:induction false} ReplayUntouched(c: ClusterState, log: seq<LogEntry>, m: MigrationState, table: map<string, Record>, key: string)
    requires c.virtualShards > 0 && c.ShardOf(key) != m.shard
    requires forall j | 0 <= j < |log| :: log[j].shard == c.ShardOf(log[j].record.key)
    ensures Get(Replay(log, m, table), key) == Get(table, key)
  {
    if log != [] {
      ReplayUntouched(c, log[..|log| - 1], m, table, key);
    }
  }

  ghost predicate SameElse(c: ClusterState, d: ClusterState) {
    && c.WellFormed() && d.WellFormed() && d == c.(nodes := d.nodes) && d.nodes.Keys == c.nodes.Keys
  }

  lemma SameAfterWrite(c: ClusterState, d: ClusterState, shard: int, dead: set<string>, op: Op)
    requires SameElse(c, d) && SameRecords(c, d, shard, dead) && op.WriteOp?
    requires shard in c.shardMap && c.shardMap[shard].owner !in dead
    ensures var c', d' := Write(c, op.routes, op.key, op.value, true).0, Write(d, op.routes, op.key, op.value, true).0;
            SameElse(c', d') && SameRecords(c', d', shard, dead)
  {
    var c', d' := Write(c, op.routes, op.key, op.value, true).0, Write(d, op.routes, op.key, op.value, true).0;
    forall x, key | x in c'.nodes ensures Agree(c', d', shard, dead, x, key) {
      assert Agree(c, d, shard, dead, x, key);
    }
  }

  lemma SameAfterCopy(c: ClusterState, d: ClusterState, shard: int, dead: set<string>, m: MigrationState)
    requires SameElse(c, d) && SameRecords(c, d, shard, dead)
    requires Planned(c, m) && Clear(m, shard, dead) && m.phase == PREPARE
    ensures var c', d' := CopySnapshot(c, m).0.0, CopySnapshot(d, m).0.0;
            SameElse(c', d') && SameRecords(c', d', shard, dead)
  {
    var c', d' := CopySnapshot(c, m).0.0, CopySnapshot(d, m).0.0;
    forall x, key | x in c'.nodes ensures Agree(c', d', shard, dead, x, key) {
      assert Agree(c, d, shard, dead, x, key) && Agree(c, d, shard, dead, m.source, key);
    }
  }

  lemma SameAfterCatchUp(c: ClusterState, d: ClusterState, shard: int, dead: set<string>, m: MigrationState)
    requires SameElse(c, d) && SameRecords(c, d, shard, dead)
    requires Planned(c, m) && Clear(m, shard, dead) && (m.phase == COPY || m.phase == CATCH_UP)
    ensures var c', d' := CatchUp(c, m).0.0, CatchUp(d, m).0.0;
            SameElse(c', d') && SameRecords(c', d', shard, dead)
  {
    var c', d' := CatchUp(c, m).0.0, CatchUp(d, m).0.0;
    forall x, key | x in c'.nodes ensures Agree(c', d', shard, dead, x, key) {
      assert Agree(c, d, shard, dead, x, key);
      if !Within(c, shard, dead, x, key) {
        ReplayPointwise(c.log, m, c.nodes[x], d.nodes[x], key);
      } else if x == m.target {
        ReplayUntouched(c, c.log, m, d.nodes[x], key);
      }
    }
  }

  lemma SameTables(c: ClusterState, d: ClusterState, c': ClusterState, d': ClusterState, shard: int, dead: set<string>)
    requires SameElse(c, d) && SameRecords(c, d, shard, dead) && SameElse(c', d')
    requires c'.nodes == c.nodes && d'.nodes == d.nodes && c'.digest == c.digest && c'.virtualShards == c.virtualShards
    ensures SameRecords(c', d', shard, dead)
  {
    forall x, key | x in c'.nodes ensures Agree(c', d', shard, dead, x, key) {
      assert Agree(c, d, shard, dead, x, key);
    }
  }

  /** Catching up another shard brings nothing of this one. */
  lemma StillNothing(c: ClusterState, m: MigrationState, other: MigrationState)
    requires c.WellFormed() && Planned(c, m) && Planned(c, other) && other.shard != m.shard && NothingToMove(c, m)
    requires other.phase == COPY || other.phase == CATCH_UP
    ensures var c' := CatchUp(c, other).0.0;
            c'.WellFormed() && Planned(c', m) && NothingToMove(c', m)
  {
    var c' := CatchUp(c, other).0.0;
    if m.phase == PREPARE {
      forall key | key in c'.nodes[m.source] ensures c.ShardOf(key) != m.shard {
        if c.ShardOf(key) == m.shard {
          ReplayUntouched(c, c.log, other, c.nodes[other.target], key);
        }
      }
    }
  }

  lemma AfterCleanUp(c: ClusterState, m: MigrationState, x: string, key: string)
    requires c.WellFormed() && Planned(c, m) && m.phase == CUTOVER && x in c.nodes
    ensures x in CleanUp(c, m).0.0.nodes
    ensures Get(CleanUp(c, m).0.0.nodes[x], key)
         == if x == m.source && c.ShardOf(key) == m.shard then None else Get(c.nodes[x], key)
  {
  }

  lemma AgreeAfterCleanUp(c: ClusterState, d: ClusterState, shard: int, dead: set<string>, m: MigrationState, x: string, key: string)
    requires SameElse(c, d) && SameRecords(c, d, shard, dead) && x in c.nodes
    requires Planned(c, m) && Planned(d, m) && Clear(m, shard, dead) && m.phase == CUTOVER
    ensures var c', d' := CleanUp(c, m).0.0, CleanUp(d, m).0.0;
            c'.WellFormed() && x in c'.nodes && x in d'.nodes && Agree(c', d', shard, dead, x, key)
  {
    assert Agree(c, d, shard, dead, x, key);
    AfterCleanUp(c, m, x, key);
    AfterCleanUp(d, m, x, key);
  }

  lemma ElseAfterCleanUp(c: ClusterState, d: ClusterState, m: MigrationState)
    requires SameElse(c, d) && Planned(c, m) && m.phase == CUTOVER
    ensures SameElse(CleanUp(c, m).0.0, CleanUp(d, m).0.0)
  {
  }

  lemma SameAfterCleanUp(c: ClusterState, d: ClusterState, shard: int, dead: set<string>, m: MigrationState)
    requires SameElse(c, d) && SameRecords(c, d, shard, dead)
    requires Planned(c, m) && Clear(m, shard, dead) && m.phase == CUTOVER
    ensures var c', d' := CleanUp(c, m).0.0, CleanUp(d, m).0.0;
            SameElse(c', d') && SameRecords(c', d', shard, dead)
  {
    var c', d' := CleanUp(c, m).0.0, CleanUp(d, m).0.0;
    ElseAfterCleanUp(c, d, m);
    forall x, key | x in c'.nodes ensures Agree(c', d', shard, dead, x, key) {
      AgreeAfterCleanUp(c, d, shard, dead, m, x, key);
    }
  }

  lemma FollowsWrite(w: World, v: World, i: nat, dead: set<string>, op: Op)
    requires Follows(w, v, i, dead) && op.WriteOp?
    ensures Follows(Step(w, op), Step(v, op), i, dead)
  {
    StepWf(w, op);
    StepWf(v, op);
    SameAfterWrite(w.cluster, v.cluster, w.migrations[i].shard, dead, op);
  }

  lemma FollowsBegin(w: World, v: World, i: nat, dead: set<string>, op: Op)
    requires Follows(w, v, i, dead) && op.BeginOp?
    requires op.shard == w.migrations[i].shard ==> op.target !in dead && (w.migrations[i].phase == CUTOVER || w.migrations[i].target in dead || !Live(w.migrations[i]))
    ensures Follows(Step(w, op), Step(v, op), i, dead)
  {
    StepWf(w, op);
    StepWf(v, op);
  }

  lemma FollowsCopy(w: World, v: World, i: nat, dead: set<string>, j: nat)
    requires Follows(w, v, i, dead) && j < |w.migrations| && j != i && w.migrations[j].phase == PREPARE
    ensures Follows(Step(w, CopyOp(j)), Step(v, CopyOp(j)), i, dead)
  {
    StepWf(w, CopyOp(j));
    StepWf(v, CopyOp(j));
    SameAfterCopy(w.cluster, v.cluster, w.migrations[i].shard, dead, w.migrations[j]);
  }

  lemma FollowsCatchUp(w: World, v: World, i: nat, dead: set<string>, j: nat)
    requires Follows(w, v, i, dead) && j < |w.migrations| && j != i
    requires w.migrations[j].phase == COPY || w.migrations[j].phase == CATCH_UP
    ensures Follows(Step(w, CatchUpOp(j)), Step(v, CatchUpOp(j)), i, dead)
  {
    StepWf(w, CatchUpOp(j));
    StepWf(v, CatchUpOp(j));
    SameAfterCatchUp(w.cluster, v.cluster, w.migrations[i].shard, dead, w.migrations[j]);
    if w.migrations[i].target !in dead && w.migrations[i].phase != CUTOVER && Live(w.migrations[i]) {
      StillNothing(w.cluster, w.migrations[i], w.migrations[j]);
    }
  }

  lemma FollowsCutover(w: World, v: World, i: nat, dead: set<string>, j: nat)
    requires Follows(w, v, i, dead) && j < |w.migrations| && j != i && w.migrations[j].phase == CATCH_UP
    ensures Follows(Step(w, CutoverOp(j)), Step(v, CutoverOp(j)), i, dead)
  {
    StepWf(w, CutoverOp(j));
    StepWf(v, CutoverOp(j));
    SameTables(w.cluster, v.cluster, Step(w, CutoverOp(j)).cluster, Step(v, CutoverOp(j)).cluster, w.migrations[i].shard, dead);
  }

  lemma FollowsCleanUp(w: World, v: World, i: nat, dead: set<string>, j: nat)
    requires Follows(w, v, i, dead) && j < |w.migrations| && j != i && w.migrations[j].phase == CUTOVER
    ensures Follows(Step(w, CleanUpOp(j)), Step(v, CleanUpOp(j)), i, dead)
  {
    StepWf(w, CleanUpOp(j));
    StepWf(v, CleanUpOp(j));
    SameAfterCleanUp(w.cluster, v.cluster, w.migrations[i].shard, dead, w.migrations[j]);
  }

  // ---- its own steps show at dead nodes only ----

  lemma OwnCopy(w: World, v: World, i: nat, dead: set<string>)
    requires Follows(w, v, i, dead) && w.migrations[i].phase == PREPARE
    ensures Follows(Step(w, CopyOp(i)), v, i, dead)
  {
    StepWf(w, CopyOp(i));
    var c, c', m := w.cluster, Step(w, CopyOp(i)).cluster, w.migrations[i];
    forall x, key | x in c'.nodes ensures Agree(c', v.cluster, m.shard, dead, x, key) {
      assert Agree(c, v.cluster, m.shard, dead, x, key);
    }
  }

  lemma OwnCatchUp(w: World, v: World, i: nat, dead: set<string>)
    requires Follows(w, v, i, dead) && (w.migrations[i].phase == COPY || w.migrations[i].phase == CATCH_UP)
    ensures Follows(Step(w, CatchUpOp(i)), v, i, dead)
  {
    StepWf(w, CatchUpOp(i));
    var c, c', m := w.cluster, Step(w, CatchUpOp(i)).cluster, w.migrations[i];
    if m.target !in dead {
      ReplayNothing(c.log, m, c.nodes[m.target]);
    }
    forall x, key | x in c'.nodes ensures Agree(c', v.cluster, m.shard, dead, x, key) {
      assert Agree(c, v.cluster, m.shard, dead, x, key);
      if x == m.target && c.ShardOf(key) != m.shard {
        ReplayUntouched(c, c.log, m, c.nodes[x], key);
      }
    }
  }

  lemma OwnCleanUp(w: World, v: World, i: nat, dead: set<string>)
    requires Follows(w, v, i, dead) && w.migrations[i].phase == CUTOVER
    ensures Follows(Step(w, CleanUpOp(i)), v, i, {})
  {
    StepWf(w, CleanUpOp(i));
    var c, c', m := w.cluster, Step(w, CleanUpOp(i)).cluster, w.migrations[i];
    forall x, key | x in c'.nodes ensures Agree(c', v.cluster, m.shard, {}, x, key) {
      assert Agree(c, v.cluster, m.shard, dead, x, key);
    }
  }

  // ---- whole runs ----

  predicate Own(op: Op, i: nat) {
    (op.CopyOp? || op.CatchUpOp? || op.CutoverOp? || op.CleanUpOp?) && op.i == i
  }

  lemma OthersStep(w: World, v: World, i: nat, dead: set<string>, op: Op)
    requires Follows(w, v, i, dead) && !Own(op, i) && !op.BeginOp?
    ensures Follows(Step(w, op), Step(v, op), i, dead)
  {
    if Step(w, op) == w && Step(v, op) == v {
    } else {
      match op
      case WriteOp(_, _, _) => FollowsWrite(w, v, i, dead, op);
      case CopyOp(j) => FollowsCopy(w, v, i, dead, j);
      case CatchUpOp(j) => FollowsCatchUp(w, v, i, dead, j);
      case CutoverOp(j) => FollowsCutover(w, v, i, dead, j);
      case CleanUpOp(j) => FollowsCleanUp(w, v, i, dead, j);
    }
  }

  lemma OwnStep(w: World, v: World, i: nat, dead: set<string>, op: Op) returns (dead': set<string>)
    requires Follows(w, v, i, dead) && Own(op, i) && (op.CutoverOp? ==> Step(w, op) == w)
    ensures Follows(Step(w, op), v, i, dead')
    ensures !op.CleanUpOp? ==> dead' == dead
  {
    dead' := dead;
    if Step(w, op) != w {
      match op
      case CopyOp(_) => OwnCopy(w, v, i, dead);
      case CatchUpOp(_) => OwnCatchUp(w, v, i, dead);
      case CleanUpOp(_) => OwnCleanUp(w, v, i, dead); dead' := {};
    }
  }

  lemma RefusedStep(w: World, i: nat, op: Op)
    requires Wf(w) && i < |w.migrations| && Refused(w, i) && Allowed(w, op)
    ensures i < |Step(w, op).migrations| && Refused(Step(w, op), i)
    ensures op == CutoverOp(i) ==> Step(w, op) == w
  {
  }

  lemma TwinAllowed(w: World, v: World, i: nat, op: Op)
    requires Twins(w, v, i) && Allowed(w, op) && !Own(op, i)
    ensures Allowed(v, op)
  {
  }

  /** The twin keeps up with every allowed step but a cutover of the migration itself, */
  lemma FollowsStep(w: World, v: World, i: nat, dead: set<string>, op: Op) returns (v': World, dead': set<string>)
    requires Follows(w, v, i, dead) && Inv(v) && Allowed(w, op) && (op == CutoverOp(i) ==> Step(w, op) == w)
    ensures Follows(Step(w, op), v', i, dead') && Inv(v')
    ensures op != CleanUpOp(i) ==> dead' == dead
    ensures !Own(op, i) ==> v' == Step(v, op)
  {
    v', dead' := v, dead;
    if Own(op, i) {
      dead' := OwnStep(w, v, i, dead, op);
    } else {
      TwinAllowed(w, v, i, op);
      InvStep(v, op);
      v' := Step(v, op);
      if op.BeginOp? {
        FollowsBegin(w, v, i, dead, op);
      } else {
        OthersStep(w, v, i, dead, op);
      }
    }
  }

  /** A world that reads as it should, now and after any disciplined run. */
  ghost predicate Decided(w: World, i: nat) {
    exists v, dead :: Follows(w, v, i, dead) && Inv(v) && Refused(w, i)
  }

  lemma DecidedStep(w: World, i: nat, op: Op)
    requires Wf(w) && Decided(w, i) && Allowed(w, op)
    ensures Decided(Step(w, op), i)
  {
    var v, dead :| Follows(w, v, i, dead) && Inv(v) && Refused(w, i);
    RefusedStep(w, i, op);
    var v', dead' := FollowsStep(w, v, i, dead, op);
  }

  lemma DecidedReads(w: World, i: nat)
    requires Wf(w) && Decided(w, i)
    ensures ReadsAreLastWrites(w.cluster)
  {
    var v, dead :| Follows(w, v, i, dead) && Inv(v) && Refused(w, i);
    SameReads(w, v, i, dead);
  }

  // ---- the twin to start with ----

  function Without(c: ClusterState, shard: int, dead: set<string>): ClusterState
    requires c.virtualShards > 0
  {
    c.(nodes := map x | x in c.nodes ::
         if x in dead then map k | k in c.nodes[x] && c.ShardOf(k) != shard :: c.nodes[x][k] else c.nodes[x])
  }

  function Pruned(w: World, i: nat, dead: set<string>): World
    requires w.cluster.virtualShards > 0 && i < |w.migrations|
  {
    World(Without(w.cluster, w.migrations[i].shard, dead), w.migrations[i := w.migrations[i].(phase := CLEANUP)])
  }

  /** Records are at the owner, at the other end of another migration, or dead. */
  ghost predicate OthersCover(w: World, i: nat, dead: set<string>)
    requires Wf(w) && i < |w.migrations|
  {
    forall x, key | x in w.cluster.nodes && key in w.cluster.nodes[x] :: CoveredBut(w, i, dead, x, key)
  }

  ghost predicate CoveredBut(w: World, i: nat, dead: set<string>, x: string, key: string)
    requires Wf(w) && i < |w.migrations|
  {
    || Within(w.cluster, w.migrations[i].shard, dead, x, key)
    || x == w.cluster.shardMap[w.cluster.ShardOf(key)].owner
    || exists j :: 0 <= j < |w.migrations| && j != i && Covers(w.migrations[j], x, w.cluster.ShardOf(key))
  }

  lemma PrunedFollows(w: World, i: nat, dead: set<string>)
    requires Wf(w) && i < |w.migrations| && DeadAside(w, i, dead) && Idle(w, i, dead)
    ensures Follows(w, Pruned(w, i, dead), i, dead)
  {
    forall x, key | x in w.cluster.nodes
      ensures Agree(w.cluster, Pruned(w, i, dead).cluster, w.migrations[i].shard, dead, x, key)
    {
    }
  }

  lemma PrunedInv(w: World, i: nat, dead: set<string>)
    requires Wf(w) && i < |w.migrations| && DeadAside(w, i, dead) && Idle(w, i, dead)
    requires ReadsAreLastWrites(w.cluster) && OneLiveMigration(Pruned(w, i, dead).migrations)
    requires forall j | 0 <= j < |w.migrations| && j != i :: MigrationOk(w.cluster, w.migrations[j])
    requires OthersCover(w, i, dead)
    ensures Inv(Pruned(w, i, dead))
  {
    var c, v := w.cluster, Pruned(w, i, dead);
    PrunedFollows(w, i, dead);
    forall key ensures v.cluster.Read(key) == LastWrite(v.cluster.log, key) {
      assert c.Read(key) == LastWrite(c.log, key);
    }
    forall j | 0 <= j < |v.migrations| ensures MigrationOk(v.cluster, v.migrations[j]) {
      if j != i {
        MigrationFrame(c, v.cluster, w.migrations[j]);
      }
    }
    forall x, key | x in v.cluster.nodes && key in v.cluster.nodes[x]
      ensures Home(v, x, v.cluster.ShardOf(key))
    {
      assert CoveredBut(w, i, dead, x, key);
      if j :| 0 <= j < |w.migrations| && j != i && Covers(w.migrations[j], x, c.ShardOf(key)) {
        assert Covers(v.migrations[j], x, c.ShardOf(key));
      }
    }
  }
}
