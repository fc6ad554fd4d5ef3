/** What each operation of the sharded store reports, and what a write without fencing costs. */
module ShardResults {
  import opened Results
  import opened ShardModel
  import opened ShardRun
  import opened ShardTheorems

  // ---- writes ----

  /** A write needs a route to a known node, and with fencing the current one. Then it has the next sequence
      number, and record and log entry hold what was written where; otherwise nothing changes. */
  lemma WriteExact(c: ClusterState, routes: map<int, Route>, key: string, value: string, fencing: bool)
    requires c.WellFormed()
    ensures var s, n := c.digest(key) % c.virtualShards, |c.log| + 1;
            var (d, r) := Write(c, routes, key, value, fencing);
            if s !in routes || routes[s].owner !in c.nodes then d == c && r == Err(KeyError)
            else if fencing && (routes[s].owner != c.shardMap[s].owner || routes[s].epoch != c.shardMap[s].epoch)
            then d == c && r == Ok(WriteResult(false, routes[s].owner, routes[s].epoch, None))
            else && r == Ok(WriteResult(true, routes[s].owner, routes[s].epoch, Some(n)))
                 && d == c.(nodes := c.nodes[routes[s].owner := c.nodes[routes[s].owner][key := Record(key, value, n)]],
                            sequence := n,
                            log := c.log + [LogEntry(n, s, routes[s].owner, Record(key, value, n))])
  {
  }

  /** Without fencing, a stale route to another node is accepted and the write is lost: no reader of the owner
      sees it, while the log has it last. */
  lemma UnfencedWriteIsLost(w: World, routes: map<int, Route>, key: string, value: string)
    requires Inv(w) && w.cluster.ShardOf(key) in routes
    requires var route := routes[w.cluster.ShardOf(key)];
             route.owner in w.cluster.nodes && route.owner != w.cluster.shardMap[w.cluster.ShardOf(key)].owner
    ensures var c := w.cluster;
            var (d, r) := Write(c, routes, key, value, false);
            && r.Ok? && r.value.accepted && d.WellFormed()
            && d.Read(key) == c.Read(key)
            && LastWrite(d.log, key) == Some(Record(key, value, |c.log| + 1)) && d.Read(key) != LastWrite(d.log, key)
  {
    var c := w.cluster;
    var d := Write(c, routes, key, value, false).0;
    assert d.log[..|c.log|] == c.log;
    assert c.Read(key) == LastWrite(c.log, key);
    LastWriteSource(c.log, key);
  }

  // ---- owners and migrations ----

  /** Reassigning a shard: unknown nodes and shards come before epochs that are not positive. */
  lemma SetOwnerResult(c: ClusterState, shard: int, owner: string, epoch: int)
    ensures SetOwner(c, shard, owner, epoch)
         == if owner !in c.nodes || shard < 0 || shard >= c.virtualShards then (c, Err(KeyError))
            else if epoch <= 0 then (c, Err(ValueError))
            else (c.(shardMap := c.shardMap[shard := Route(owner, epoch)]), Ok(()))
  {
  }

  /** A migration starts at the owner and epoch of the moment, unless that is its target already. */
  lemma BeginResult(c: ClusterState, shard: int, target: string)
    requires c.WellFormed()
    ensures Begin(c, shard, target)
         == if shard < 0 || shard >= c.virtualShards || target !in c.nodes then Err(KeyError)
            else if target == c.shardMap[shard].owner then Err(ValueError)
            else Ok(MigrationState(shard, c.shardMap[shard].owner, target, c.shardMap[shard].epoch, 0, 0, PREPARE))
  {
  }

  /** Each step of a migration comes after the one before it: out of its turn it is refused and changes
      nothing, and in its turn it leads to the next phase and changes nothing else of the migration but the
      points it is about. */
  lemma PhasesInOrder(c: ClusterState, m: MigrationState)
    requires c.WellFormed() && Planned(c, m) && m.replayedThrough <= |c.log|
    ensures var ((_, n), r) := CopySnapshot(c, m);
            if m.phase == PREPARE then r.Ok? && n == m.(phase := COPY, baseline := |c.log|, replayedThrough := |c.log|)
            else CopySnapshot(c, m) == ((c, m), Err(ValueError))
    ensures var ((_, n), r) := CatchUp(c, m);
            if m.phase == COPY || m.phase == CATCH_UP then r.Ok? && n == m.(phase := CATCH_UP, replayedThrough := |c.log|)
            else CatchUp(c, m) == ((c, m), Err(ValueError))
    ensures var ((_, n), r) := CleanUp(c, m);
            if m.phase == CUTOVER then r.Ok? && n == m.(phase := CLEANUP) else CleanUp(c, m) == ((c, m), Err(ValueError))
  {
  }

  /** A cutover comes after catching up, or after the copy if the caller waives that; it needs the owner and
      epoch the migration started from, and makes the target the owner with the next epoch. */
  lemma CutoverResult(c: ClusterState, m: MigrationState, requireCatchUp: bool)
    requires c.WellFormed() && Planned(c, m)
    ensures Cutover(c, m, requireCatchUp)
         == if !(m.phase == CATCH_UP || (m.phase == COPY && !requireCatchUp)) then ((c, m), Err(ValueError))
            else if c.shardMap[m.shard] != Route(m.source, m.sourceEpoch) then ((c, m), Err(RuntimeError))
            else ((c.(shardMap := c.shardMap[m.shard := Route(m.target, m.sourceEpoch + 1)]), m.(phase := CUTOVER)),
                  Ok(m.sourceEpoch + 1))
  {
  }

  /** Cutting over right after the copy preserves every read exactly if the shard has been quiet since. */
  lemma EarlyCutoverExact(w: World, i: nat)
    requires Inv(w) && i < |w.migrations| && w.migrations[i].phase == COPY
    ensures var m := w.migrations[i];
            var ((d, _), r) := Cutover(w.cluster, m, false);
            && r.Ok? && d.WellFormed()
            && ((forall key :: d.Read(key) == w.cluster.Read(key)) <==> Quiet(w.cluster, m))
  {
    var c, m := w.cluster, w.migrations[i];
    var d := Cutover(c, m, false).0.0;
    assert MigrationOk(c, m);
    if Quiet(c, m) {
      forall key ensures d.Read(key) == c.Read(key) {
        assert c.Read(key) == LastWrite(c.log, key);
        if c.ShardOf(key) == m.shard {
          QuietTail(c, m, |c.log|, key);
          assert c.log[..|c.log|] == c.log;
        }
      }
    } else {
      var j :| 0 <= j < |c.log| && c.log[j].sequence > m.replayedThrough && c.log[j].shard == m.shard;
      var key := c.log[j].record.key;
      LastWriteAfter(c.log, key, j);
      LastWriteSource(c.log[..m.replayedThrough], key);
      assert c.Read(key) == LastWrite(c.log, key) && d.Read(key) == LastWrite(c.log[..m.replayedThrough], key);
    }
  }

  /** The count of a clean-up is the number of keys of the shard that the source had; it has none afterwards,
      and all its other records. */
  lemma CleanUpCounts(c: ClusterState, m: MigrationState)
    requires c.WellFormed() && Planned(c, m) && m.phase == CUTOVER
    ensures var ((d, _), r) := CleanUp(c, m);
            && r == Ok(|set key | key in c.nodes[m.source] && c.digest(key) % c.virtualShards == m.shard|)
            && m.source in d.nodes
            && forall key :: Get(d.nodes[m.source], key)
                 == if c.digest(key) % c.virtualShards == m.shard then None else Get(c.nodes[m.source], key)
  {
    assert Slice(c, m.source, m.shard).Keys
        == set key | key in c.nodes[m.source] && c.digest(key) % c.virtualShards == m.shard;
  }
}
