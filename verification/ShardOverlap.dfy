/**
  Why a shard's next migration must wait for the previous one to be cleaned up. With a live migration
  on the shard, a second one to the other end of the first lets some otherwise disciplined future lose
  an acknowledged write; to any other node, or without a live migration, no disciplined future does.
 */
module ShardOverlap {
  import opened Results
  import opened ShardModel
  import opened ShardRun
  import opened ShardBystander

  /** Every disciplined future of a world reads back the last write of every key. */
  ghost predicate SafeForever(w: World)
    requires Wf(w)
  {
    forall more :: Disciplined(w, more) ==> ReadsAreLastWrites(Run(w, more).cluster)
  }

  /** Where a live migration's remaining steps can still do something. */
  function OtherEnd(m: MigrationState): string {
    if m.phase == CUTOVER then m.source else m.target
  }

  /** Starting a migration is safe for ever exactly if its target is not the other end of a live migration
      of the shard. */
  lemma BeginExact(w: World, shard: int, target: string, key: string)
    requires Inv(w) && Begin(w.cluster, shard, target).Ok? && w.cluster.ShardOf(key) == shard
    ensures SafeForever(Step(w, BeginOp(shard, target)))
       <==> forall j | 0 <= j < |w.migrations| && w.migrations[j].shard == shard && Live(w.migrations[j]) ::
              OtherEnd(w.migrations[j]) != target
  {
    if i :| 0 <= i < |w.migrations| && w.migrations[i].shard == shard && Live(w.migrations[i]) {
      if OtherEnd(w.migrations[i]) == target {
        var more := Overlap(w, i, key);
      } else if w.migrations[i].phase == CUTOVER {
        BeginAfterCutover(w, i, target);
      } else {
        BeginRace(w, i, target);
      }
    } else {
      InvStep(w, BeginOp(shard, target));
      InvSafe(Step(w, BeginOp(shard, target)));
    }
  }

  lemma InvSafe(w: World)
    requires Inv(w)
    ensures SafeForever(w)
  {
    forall more | Disciplined(w, more) ensures ReadsAreLastWrites(Run(w, more).cluster) {
      InvRun(w, more);
    }
  }

  lemma {:induction false} DecidedRun(w: World, i: nat, ops: seq<Op>)
    requires Wf(w) && Decided(w, i) && Disciplined(w, ops)
    ensures Decided(Run(w, ops), i)
  {
    if ops != [] {
      DecidedRun(w, i, ops[..|ops| - 1]);
      DecidedStep(Run(w, ops[..|ops| - 1]), i, ops[|ops| - 1]);
    }
  }

  lemma DecidedSafe(w: World, i: nat)
    requires Wf(w) && Decided(w, i)
    ensures SafeForever(w)
  {
    forall more | Disciplined(w, more) ensures ReadsAreLastWrites(Run(w, more).cluster) {
      DecidedRun(w, i, more);
      DecidedReads(Run(w, more), i);
    }
  }

  // ---- a second migration that does no harm ----

  lemma OnlyLive(w: World, i: nat)
    requires Inv(w) && i < |w.migrations| && Live(w.migrations[i])
    ensures Alone(w, i)
    ensures forall x, key | x in w.cluster.nodes && key in w.cluster.nodes[x] && w.cluster.ShardOf(key) == w.migrations[i].shard ::
              x == w.cluster.shardMap[w.migrations[i].shard].owner || Covers(w.migrations[i], x, w.migrations[i].shard)
  {
    forall x, key | x in w.cluster.nodes && key in w.cluster.nodes[x] && w.cluster.ShardOf(key) == w.migrations[i].shard
      ensures x == w.cluster.shardMap[w.migrations[i].shard].owner || Covers(w.migrations[i], x, w.migrations[i].shard)
    {
      assert Home(w, x, w.cluster.ShardOf(key));
    }
  }

  /** The world goes on like one in which migration i is over already. */
  lemma WithoutOther(w: World, i: nat)
    requires Inv(w) && i < |w.migrations| && Live(w.migrations[i])
    ensures var dead := {OtherEnd(w.migrations[i])};
            Follows(w, Pruned(w, i, dead), i, dead) && Inv(Pruned(w, i, dead))
  {
    var dead := {OtherEnd(w.migrations[i])};
    assert Planned(w.cluster, w.migrations[i]) && MigrationOk(w.cluster, w.migrations[i]);
    OnlyLive(w, i);
    forall x, key | x in w.cluster.nodes && key in w.cluster.nodes[x] ensures CoveredBut(w, i, dead, x, key) {
      assert Home(w, x, w.cluster.ShardOf(key));
    }
    PrunedFollows(w, i, dead);
    PrunedInv(w, i, dead);
  }

  lemma BeginAfterCutover(w: World, i: nat, target: string)
    requires Inv(w) && i < |w.migrations| && w.migrations[i].phase == CUTOVER && target != w.migrations[i].source
    ensures Wf(Step(w, BeginOp(w.migrations[i].shard, target)))
    ensures SafeForever(Step(w, BeginOp(w.migrations[i].shard, target)))
  {
    var dead, op := {w.migrations[i].source}, BeginOp(w.migrations[i].shard, target);
    var v := Pruned(w, i, dead);
    WithoutOther(w, i);
    OnlyLive(w, i);
    StepWf(w, op);
    FollowsBegin(w, v, i, dead, op);
    InvStep(v, op);
    DecidedSafe(Step(w, op), i);
  }

  // ---- two migrations of a shard race for it ----

  predicate Early(m: MigrationState) { Live(m) && m.phase != CUTOVER }

  /** Two migrations of a shard before their cutover, and no third. */
  ghost predicate Rivals(w: World, i: nat, n: nat) {
    && i < |w.migrations| && n < |w.migrations| && i != n && w.migrations[i].shard == w.migrations[n].shard
    && Early(w.migrations[i]) && Early(w.migrations[n])
    && forall j | 0 <= j < |w.migrations| && j != i && j != n && w.migrations[j].shard == w.migrations[i].shard :: !Live(w.migrations[j])
  }

  lemma RivalsStep(w: World, i: nat, n: nat, op: Op)
    requires Wf(w) && Rivals(w, i, n) && Allowed(w, op)
    requires op == CutoverOp(i) || op == CutoverOp(n) ==> Step(w, op) == w
    ensures var w' := Step(w, op);
            Rivals(w', i, n) && w'.migrations[i].target == w.migrations[i].target && w'.migrations[n].target == w.migrations[n].target
  {
  }

  /** The world goes on like one without either of them. */
  ghost predicate Race(w: World, i: nat, n: nat, a: World, b: World) {
    && Rivals(w, i, n)
    && Follows(w, a, i, {w.migrations[i].target}) && Inv(a)
    && Follows(w, b, n, {w.migrations[n].target}) && Inv(b)
  }

  ghost predicate Racing(w: World, i: nat, n: nat) {
    (exists a, b :: Race(w, i, n, a, b)) || Decided(w, i) || Decided(w, n)
  }

  /** The first to cut over decides, and the other stays out. */
  lemma RaceWon(w: World, i: nat, n: nat, a: World, b: World)
    requires Race(w, i, n, a, b) && Allowed(w, CutoverOp(i)) && Step(w, CutoverOp(i)) != w
    ensures Decided(Step(w, CutoverOp(i)), n)
  {
    assert MigrationOk(a.cluster, a.migrations[n]);
    var b', dead := FollowsStep(w, b, n, {w.migrations[n].target}, CutoverOp(i));
    assert Refused(Step(w, CutoverOp(i)), n);
  }

  lemma RaceGoesOn(w: World, i: nat, n: nat, a: World, b: World, op: Op)
    requires Race(w, i, n, a, b) && Allowed(w, op)
    requires op == CutoverOp(i) || op == CutoverOp(n) ==> Step(w, op) == w
    ensures Racing(Step(w, op), i, n)
  {
    if op == CleanUpOp(i) || op == CleanUpOp(n) {
      assert Step(w, op) == w;
    } else {
      RivalsStep(w, i, n, op);
      var a', da := FollowsStep(w, a, i, {w.migrations[i].target}, op);
      var b', db := FollowsStep(w, b, n, {w.migrations[n].target}, op);
      assert Race(Step(w, op), i, n, a', b');
    }
  }

  lemma RacingStep(w: World, i: nat, n: nat, op: Op)
    requires Wf(w) && Racing(w, i, n) && Allowed(w, op)
    ensures Racing(Step(w, op), i, n)
  {
    if a, b :| Race(w, i, n, a, b) {
      if op == CutoverOp(i) && Step(w, op) != w {
        RaceWon(w, i, n, a, b);
      } else if op == CutoverOp(n) && Step(w, op) != w {
        RaceWon(w, n, i, b, a);
      } else {
        RaceGoesOn(w, i, n, a, b, op);
      }
    } else if Decided(w, i) {
      DecidedStep(w, i, op);
    } else {
      DecidedStep(w, n, op);
    }
  }

  lemma {:induction false} RacingRun(w: World, i: nat, n: nat, ops: seq<Op>)
    requires Wf(w) && Racing(w, i, n) && Disciplined(w, ops)
    ensures Racing(Run(w, ops), i, n)
  {
    if ops != [] {
      RacingRun(w, i, n, ops[..|ops| - 1]);
      RacingStep(Run(w, ops[..|ops| - 1]), i, n, ops[|ops| - 1]);
    }
  }

  lemma RacingReads(w: World, i: nat, n: nat)
    requires Wf(w) && Racing(w, i, n)
    ensures ReadsAreLastWrites(w.cluster)
  {
    if a, b :| Race(w, i, n, a, b) {
      SameReads(w, a, i, {w.migrations[i].target});
    } else if Decided(w, i) {
      DecidedReads(w, i);
    } else {
      DecidedReads(w, n);
    }
  }

  /** The new migration is out of the way of the first. */
  lemma WithoutNew(w: World, i: nat, target: string)
    requires Inv(w) && i < |w.migrations| && Early(w.migrations[i]) && target != w.migrations[i].target
    requires Begin(w.cluster, w.migrations[i].shard, target).Ok?
    ensures var w0, n, dead := Step(w, BeginOp(w.migrations[i].shard, target)), |w.migrations|, {target};
            Follows(w0, Pruned(w0, n, dead), n, dead) && Inv(Pruned(w0, n, dead))
  {
    var w0, n, dead := Step(w, BeginOp(w.migrations[i].shard, target)), |w.migrations|, {target};
    StepWf(w, BeginOp(w.migrations[i].shard, target));
    assert Planned(w.cluster, w.migrations[i]) && MigrationOk(w.cluster, w.migrations[i]);
    OnlyLive(w, i);
    forall x, key | x in w0.cluster.nodes && key in w0.cluster.nodes[x] ensures CoveredBut(w0, n, dead, x, key) {
      assert Home(w, x, w.cluster.ShardOf(key));
      if j :| 0 <= j < |w.migrations| && Covers(w.migrations[j], x, w.cluster.ShardOf(key)) {
        assert Covers(w0.migrations[j], x, w.cluster.ShardOf(key));
      }
    }
    PrunedFollows(w0, n, dead);
    PrunedInv(w0, n, dead);
  }

  lemma BeginRace(w: World, i: nat, target: string)
    requires Inv(w) && i < |w.migrations| && Early(w.migrations[i]) && target != w.migrations[i].target
    requires Begin(w.cluster, w.migrations[i].shard, target).Ok?
    ensures Wf(Step(w, BeginOp(w.migrations[i].shard, target)))
    ensures SafeForever(Step(w, BeginOp(w.migrations[i].shard, target)))
  {
    var op, n := BeginOp(w.migrations[i].shard, target), |w.migrations|;
    var dead := {w.migrations[i].target};
    var a, w0 := Pruned(w, i, dead), Step(w, op);
    StepWf(w, op);
    WithoutOther(w, i);
    OnlyLive(w, i);
    FollowsBegin(w, a, i, dead, op);
    InvStep(a, op);
    WithoutNew(w, i, target);
    assert Race(w0, i, n, Step(a, op), Pruned(w0, n, {target}));
    forall more | Disciplined(w0, more) ensures ReadsAreLastWrites(Run(w0, more).cluster) {
      RacingRun(w0, i, n, more);
      RacingReads(Run(w0, more), i, n);
    }
  }

  // ---- the losing futures ----

  lemma RunOne(w: World, op: Op)
    requires Wf(w)
    ensures Run(w, [op]) == Step(w, op)
    ensures Disciplined(w, [op]) <==> Allowed(w, op)
  {
    assert [op][..0] == [];
    assert Run(w, []) == w && Disciplined(w, []);
  }

  lemma {:induction false} RunConcat(w: World, a: seq<Op>, b: seq<Op>)
    requires Wf(w)
    ensures Run(w, a + b) == Run(Run(w, a), b)
    ensures Disciplined(w, a + b) <==> Disciplined(w, a) && Disciplined(Run(w, a), b)
  {
    if b == [] {
      assert a + b == a;
    } else {
      RunConcat(w, a, b[..|b| - 1]);
      assert (a + b)[..|a + b| - 1] == a + b[..|b| - 1];
    }
  }

  /** Copy, catch up and cut over migration n with nobody else moving. */
  lemma Move(w: World, n: nat) returns (ops: seq<Op>)
    requires Wf(w) && n < |w.migrations| && w.migrations[n].phase == PREPARE
    requires var m := w.migrations[n]; w.cluster.shardMap[m.shard] == Route(m.source, m.sourceEpoch)
    ensures var w', m := Run(w, ops), w.migrations[n];
            && Disciplined(w, ops)
            && w'.cluster.log == w.cluster.log
            && w'.cluster.shardMap[m.shard] == Route(m.target, m.sourceEpoch + 1)
            && w'.cluster.nodes.Keys == w.cluster.nodes.Keys
            && (forall x | x in w.cluster.nodes && x != m.target :: w'.cluster.nodes[x] == w.cluster.nodes[x])
            && |w'.migrations| == |w.migrations|
            && w'.migrations[n].(phase := m.phase, baseline := m.baseline, replayedThrough := m.replayedThrough) == m
            && forall j | 0 <= j < |w.migrations| && j != n :: w'.migrations[j] == w.migrations[j]
  {
    var w1 := Step(w, CopyOp(n));
    var w2 := Step(w1, CatchUpOp(n));
    var w3 := Step(w2, CutoverOp(n));
    StepWf(w, CopyOp(n));
    StepWf(w1, CatchUpOp(n));
    StepWf(w2, CutoverOp(n));
    assert Quiet(w2.cluster, w2.migrations[n]);
    RunOne(w, CopyOp(n));
    RunOne(w1, CatchUpOp(n));
    RunOne(w2, CutoverOp(n));
    RunConcat(w, [CopyOp(n)], [CatchUpOp(n)]);
    RunConcat(w, [CopyOp(n)] + [CatchUpOp(n)], [CutoverOp(n)]);
    ops := [CopyOp(n)] + [CatchUpOp(n)] + [CutoverOp(n)];
  }

  /** A write through current routes. */
  lemma WriteNow(w: World, key: string, value: string) returns (op: Op)
    requires Wf(w)
    ensures var w', owner := Step(w, op), w.cluster.shardMap[w.cluster.ShardOf(key)].owner;
            var record := Record(key, value, |w.cluster.log| + 1);
            && Wf(w') && Run(w, [op]) == w' && Disciplined(w, [op])
            && w'.migrations == w.migrations
            && w'.cluster.shardMap == w.cluster.shardMap
            && w'.cluster.nodes == w.cluster.nodes[owner := w.cluster.nodes[owner][key := record]]
            && w'.cluster.log == w.cluster.log + [LogEntry(|w.cluster.log| + 1, w.cluster.ShardOf(key), owner, record)]
  {
    op := WriteOp(w.cluster.shardMap, key, value);
    StepWf(w, op);
    RunOne(w, op);
  }

  /** The first migration's remaining step undoes what the second one and later writes did. */
  lemma LateStepLoses(w: World, i: nat, key: string, op: Op)
    requires Wf(w) && i < |w.migrations| && w.migrations[i].shard == w.cluster.ShardOf(key)
    requires var c, m, n := w.cluster, w.migrations[i], |w.cluster.log|;
             match m.phase
             case CUTOVER => op == CleanUpOp(i) && c.shardMap[m.shard].owner == m.source
             case PREPARE => op == CopyOp(i) && c.shardMap[m.shard].owner == m.target
                             && n > 0 && key in c.nodes[m.source] && c.nodes[m.source][key].sequence < n
             case CLEANUP => false
             case _ => op == CatchUpOp(i) && c.shardMap[m.shard].owner == m.target
                       && n > 1 && c.log[n - 1].owner != m.source
                       && Applies(c.log[n - 2], m) && c.log[n - 2].record.key == key
    requires w.cluster.log != [] && w.cluster.log[|w.cluster.log| - 1].record.key == key
    ensures Wf(Step(w, op)) && !ReadsAreLastWrites(Step(w, op).cluster)
  {
    var c, m, w' := w.cluster, w.migrations[i], Step(w, op);
    StepWf(w, op);
    assert w'.cluster.log == c.log;
    if m.phase == CATCH_UP || m.phase == COPY {
      var before := c.log[..|c.log| - 1];
      assert Replay(c.log, m, c.nodes[m.target]) == Replay(before, m, c.nodes[m.target]);
      assert Get(Replay(before, m, c.nodes[m.target]), key) == Some(before[|before| - 1].record);
    }
    assert LastWrite(c.log, key).value.sequence == |c.log|;
    assert w'.cluster.Read(key) != LastWrite(w'.cluster.log, key);
  }

  /** A record of a key is the last one logged and still at the source of a migration. */
  ghost predicate AtSource(c: ClusterState, m: MigrationState, key: string)
    requires c.WellFormed()
  {
    && c.log != [] && c.ShardOf(key) == m.shard && m.source in c.nodes
    && c.log[|c.log| - 1] == LogEntry(|c.log|, m.shard, m.source, c.log[|c.log| - 1].record)
    && c.log[|c.log| - 1].record.key == key && Get(c.nodes[m.source], key) == Some(c.log[|c.log| - 1].record)
  }

  /** A write to the shard, and then all of migration n up to its cutover. */
  lemma WriteThenMove(w: World, n: nat, key: string) returns (ops: seq<Op>)
    requires Wf(w) && n < |w.migrations| && w.migrations[n].phase == PREPARE
    requires var m := w.migrations[n];
             w.cluster.shardMap[m.shard] == Route(m.source, m.sourceEpoch) && w.cluster.ShardOf(key) == m.shard
    ensures var w', m := Run(w, ops), w.migrations[n];
            && |w'.migrations| == |w.migrations|
            && Disciplined(w, ops) && AtSource(w'.cluster, w'.migrations[n], key)
            && |w'.cluster.log| == |w.cluster.log| + 1
            && w'.cluster.shardMap[m.shard].owner == m.target
            && w'.migrations[n].(phase := m.phase, baseline := m.baseline, replayedThrough := m.replayedThrough) == m
            && forall j | 0 <= j < |w.migrations| && j != n :: w'.migrations[j] == w.migrations[j]
  {
    var first := WriteNow(w, key, "old");
    var w1 := Step(w, first);
    assert w1.migrations[n] == w.migrations[n] && AtSource(w1.cluster, w.migrations[n], key);
    var move := Move(w1, n);
    RunConcat(w, [first], move);
    ops := [first] + move;
  }

  /** One more write, and a late copy or replay of the one before undoes it. */
  lemma LateCopyLoses(w: World, i: nat, key: string) returns (more: seq<Op>)
    requires Wf(w) && i < |w.migrations| && Early(w.migrations[i])
    requires var c, m := w.cluster, w.migrations[i];
             && AtSource(c, m, key) && c.shardMap[m.shard].owner == m.target != m.source
             && (m.phase != PREPARE ==> Applies(c.log[|c.log| - 1], m))
    ensures Disciplined(w, more) && !ReadsAreLastWrites(Run(w, more).cluster)
  {
    var last := if w.migrations[i].phase == PREPARE then CopyOp(i) else CatchUpOp(i);
    var second := WriteNow(w, key, "new");
    LateStepLoses(Step(w, second), i, key, last);
    Extend(w, [second], last);
    more := [second] + [last];
  }

  /** The remaining step of one migration, after another to its other end, loses the last write. */
  lemma LateLoses(w: World, i: nat, n: nat, key: string) returns (more: seq<Op>)
    requires Wf(w) && i < |w.migrations| && n < |w.migrations| && Live(w.migrations[i])
    requires var c, m, second := w.cluster, w.migrations[i], w.migrations[n];
             && second.shard == m.shard && OtherEnd(m) == second.target == c.shardMap[m.shard].owner && AtSource(c, second, key)
             && (Early(m) ==> m.source == second.source)
             && (m.phase == COPY || m.phase == CATCH_UP ==> m.replayedThrough < |c.log|)
    ensures Disciplined(w, more) && !ReadsAreLastWrites(Run(w, more).cluster)
  {
    if w.migrations[i].phase == CUTOVER {
      LateStepLoses(w, i, key, CleanUpOp(i));
      RunOne(w, CleanUpOp(i));
      more := [CleanUpOp(i)];
    } else {
      more := LateCopyLoses(w, i, key);
    }
  }

  /** A second migration to the other end of the first loses a write. */
  lemma Overlap(w: World, i: nat, key: string) returns (more: seq<Op>)
    requires Inv(w) && i < |w.migrations| && Live(w.migrations[i])
    requires w.cluster.ShardOf(key) == w.migrations[i].shard
    ensures var w0 := Step(w, BeginOp(w.migrations[i].shard, OtherEnd(w.migrations[i])));
            Disciplined(w0, more) && !ReadsAreLastWrites(Run(w0, more).cluster)
  {
    var m, n := w.migrations[i], |w.migrations|;
    assert Planned(w.cluster, m) && MigrationOk(w.cluster, m);
    var w0 := Step(w, BeginOp(m.shard, OtherEnd(m)));
    StepWf(w, BeginOp(m.shard, OtherEnd(m)));
    var moved := WriteThenMove(w0, n, key);
    more := LateLoses(Run(w0, moved), i, n, key);
    RunConcat(w0, moved, more);
    more := moved + more;
  }

  lemma Extend(w: World, ops: seq<Op>, op: Op)
    requires Wf(w) && Disciplined(w, ops) && Allowed(Run(w, ops), op)
    ensures Disciplined(w, ops + [op]) && Run(w, ops + [op]) == Step(Run(w, ops), op)
  {
    RunOne(Run(w, ops), op);
    RunConcat(w, ops, [op]);
  }
}
