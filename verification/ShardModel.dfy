/**
  The sharded store of the rebalancing lab as values: what one write, one snapshot copy, one log
  replay, one cutover and one cleanup do to the whole cluster state.
 */
module ShardModel {
  import opened Results

  datatype Phase = PREPARE | COPY | CATCH_UP | CUTOVER | CLEANUP

  datatype Record = Record(key: string, value: string, sequence: nat)

  /** An owner with its epoch: a shard map entry, and also what a router caches of it. */
  datatype Route = Route(owner: string, epoch: int)

  datatype LogEntry = LogEntry(sequence: nat, shard: int, owner: string, record: Record)

  datatype MigrationState = MigrationState(
    shard: int, source: string, target: string, sourceEpoch: int,
    baseline: nat, replayedThrough: nat, phase: Phase)

  datatype WriteResult = WriteResult(accepted: bool, owner: string, epoch: int, sequence: Option<nat>)

  datatype ClusterState = ClusterState(
    nodes: map<string, map<string, Record>>,
    shardMap: map<int, Route>,
    sequence: nat,
    log: seq<LogEntry>,
    virtualShards: int,
    digest: string -> nat)
  {
    /** hash_partition, over an arbitrary digest function. */
    function ShardOf(key: string): (s: int)
      requires virtualShards > 0
      ensures 0 <= s < virtualShards
    {
      digest(key) % virtualShards
    }

    /** What every operation keeps: the log is numbered 1, 2, 3, ... and every owner is a node. */
    ghost predicate WellFormed() {
      && virtualShards > 0
      && (forall s :: s in shardMap <==> 0 <= s < virtualShards)
      && (forall s | s in shardMap :: shardMap[s].owner in nodes)
      && sequence == |log|
      && (forall j | 0 <= j < |log| ::
            && log[j].sequence == log[j].record.sequence == j + 1
            && log[j].shard == ShardOf(log[j].record.key))
    }

    function Read(key: string): Option<Record>
      requires WellFormed()
    {
      Get(nodes[shardMap[ShardOf(key)].owner], key)
    }
  }

  function Get(table: map<string, Record>, key: string): Option<Record> {
    if key in table then Some(table[key]) else None
  }

  /** The part of a node's table that belongs to one shard. */
  function Slice(c: ClusterState, node: string, shard: int): map<string, Record>
    requires c.virtualShards > 0 && node in c.nodes
  {
    ShardPart(c.nodes[node], c.digest, c.virtualShards, shard)
  }

  function ShardPart(records: map<string, Record>, digest: string -> nat, shards: int, shard: int): map<string, Record>
    requires shards > 0
  {
    map k | k in records && digest(k) % shards == shard :: records[k]
  }

  // ---- one function per operation: the state after it, and what it returns ----

  function SetOwner(c: ClusterState, shard: int, owner: string, epoch: int): (ClusterState, Result<()>) {
    if owner !in c.nodes || !(0 <= shard < c.virtualShards) then (c, Err(KeyError))
    else if epoch <= 0 then (c, Err(ValueError))
    else (c.(shardMap := c.shardMap[shard := Route(owner, epoch)]), Ok(()))
  }

  function Write(c: ClusterState, routes: map<int, Route>, key: string, value: string, fencing: bool)
    : (ClusterState, Result<WriteResult>)
    requires c.WellFormed()
  {
    var s := c.ShardOf(key);
    if s !in routes || routes[s].owner !in c.nodes then (c, Err(KeyError))
    else
      var route := routes[s];
      if fencing && route != c.shardMap[s] then
        (c, Ok(WriteResult(false, route.owner, route.epoch, None)))
      else
        var n := c.sequence + 1;
        var record := Record(key, value, n);
        (c.(nodes := c.nodes[route.owner := c.nodes[route.owner][key := record]],
            sequence := n,
            log := c.log + [LogEntry(n, s, route.owner, record)]),
         Ok(WriteResult(true, route.owner, route.epoch, Some(n))))
  }

  function Begin(c: ClusterState, shard: int, target: string): Result<MigrationState>
    requires c.WellFormed()
  {
    if !(0 <= shard < c.virtualShards) || target !in c.nodes then Err(KeyError)
    else if c.shardMap[shard].owner == target then Err(ValueError)
    else Ok(MigrationState(shard, c.shardMap[shard].owner, target, c.shardMap[shard].epoch, 0, 0, PREPARE))
  }

  /** What begin_migration guarantees about the migrations it hands out. */
  ghost predicate Planned(c: ClusterState, m: MigrationState) {
    && m.shard in c.shardMap
    && m.source in c.nodes && m.target in c.nodes && m.source != m.target
  }

  function CopySnapshot(c: ClusterState, m: MigrationState): ((ClusterState, MigrationState), Result<()>)
    requires c.WellFormed() && Planned(c, m)
  {
    if m.phase != PREPARE then ((c, m), Err(ValueError))
    else
      ((c.(nodes := c.nodes[m.target := c.nodes[m.target] + Slice(c, m.source, m.shard)]),
        m.(baseline := c.sequence, replayedThrough := c.sequence, phase := COPY)),
       Ok(()))
  }

  predicate Applies(e: LogEntry, m: MigrationState) {
    e.sequence > m.replayedThrough && e.shard == m.shard && e.owner == m.source
  }

  /** The target's table after the applicable log entries have been applied in log order. */
  function Replay(log: seq<LogEntry>, m: MigrationState, table: map<string, Record>): map<string, Record> {
    if log == [] then table
    else
      var before := Replay(log[..|log| - 1], m, table);
      var e := log[|log| - 1];
      if Applies(e, m) then before[e.record.key := e.record] else before
  }

  function ReplayCount(log: seq<LogEntry>, m: MigrationState): nat {
    if log == [] then 0
    else ReplayCount(log[..|log| - 1], m) + if Applies(log[|log| - 1], m) then 1 else 0
  }

  function CatchUp(c: ClusterState, m: MigrationState): ((ClusterState, MigrationState), Result<nat>)
    requires c.WellFormed() && Planned(c, m)
  {
    if m.phase != COPY && m.phase != CATCH_UP then ((c, m), Err(ValueError))
    else
      ((c.(nodes := c.nodes[m.target := Replay(c.log, m, c.nodes[m.target])]),
        m.(replayedThrough := if m.replayedThrough > c.sequence then m.replayedThrough else c.sequence,
           phase := CATCH_UP)),
       Ok(ReplayCount(c.log, m)))
  }

  function Cutover(c: ClusterState, m: MigrationState, requireCatchUp: bool)
    : ((ClusterState, MigrationState), Result<int>)
    requires c.WellFormed() && Planned(c, m)
  {
    if m.phase != CATCH_UP && (requireCatchUp || m.phase != COPY) then ((c, m), Err(ValueError))
    else if c.shardMap[m.shard] != Route(m.source, m.sourceEpoch) then ((c, m), Err(RuntimeError))
    else
      var epoch := c.shardMap[m.shard].epoch + 1;
      ((c.(shardMap := c.shardMap[m.shard := Route(m.target, epoch)]), m.(phase := CUTOVER)), Ok(epoch))
  }

  function CleanUp(c: ClusterState, m: MigrationState): ((ClusterState, MigrationState), Result<nat>)
    requires c.WellFormed() && Planned(c, m)
  {
    if m.phase != CUTOVER then ((c, m), Err(ValueError))
    else
      var slice := Slice(c, m.source, m.shard);
      ((c.(nodes := c.nodes[m.source := c.nodes[m.source] - slice.Keys]), m.(phase := CLEANUP)), Ok(|slice|))
  }

  // ---- the log ----

  /** The record of the last logged write to a key. */
  function LastWrite(log: seq<LogEntry>, key: string): Option<Record> {
    if log == [] then None
    else if log[|log| - 1].record.key == key then Some(log[|log| - 1].record)
    else LastWrite(log[..|log| - 1], key)
  }

  /** How many logged writes went to a shard. */
  function ShardWrites(log: seq<LogEntry>, shard: int): nat {
    if log == [] then 0
    else ShardWrites(log[..|log| - 1], shard) + if log[|log| - 1].shard == shard then 1 else 0
  }

  /** Every write to the shard since the replay point went to the source of the migration. */
  ghost predicate TailAtSource(log: seq<LogEntry>, m: MigrationState) {
    forall j | m.replayedThrough <= j < |log| && log[j].shard == m.shard :: log[j].owner == m.source
  }

  /** No write to the shard since the replay point: what a caller must arrange before cutover. */
  predicate Quiet(c: ClusterState, m: MigrationState) {
    forall j | 0 <= j < |c.log| :: c.log[j].sequence > m.replayedThrough ==> c.log[j].shard != m.shard
  }

  lemma {:induction false} LastWriteSource(log: seq<LogEntry>, key: string)
    ensures LastWrite(log, key).Some? ==>
              exists j :: 0 <= j < |log| && log[j].record == LastWrite(log, key).value && log[j].record.key == key
    ensures LastWrite(log, key).None? ==> forall j | 0 <= j < |log| :: log[j].record.key != key
  {
    if log != [] {
      LastWriteSource(log[..|log| - 1], key);
    }
  }

  /** Replaying what the migration has not seen turns "agrees with the log up to the replay point"
      into "agrees with the whole log", for every key of the shard. */
  lemma {:induction false} ReplayReachesLog(c: ClusterState, m: MigrationState, n: nat, table: map<string, Record>, key: string)
    requires c.WellFormed() && n <= |c.log| && c.ShardOf(key) == m.shard
    requires m.replayedThrough <= |c.log| && TailAtSource(c.log, m)
    requires Get(table, key) == LastWrite(c.log[..m.replayedThrough], key)
    ensures Get(Replay(c.log[..n], m, table), key)
         == LastWrite(c.log[..if n < m.replayedThrough then m.replayedThrough else n], key)
  {
    if n > 0 {
      assert c.log[..n][..n - 1] == c.log[..n - 1];
      ReplayReachesLog(c, m, n - 1, table, key);
    }
  }

  lemma {:induction false} ReplayFrame(c: ClusterState, m: MigrationState, n: nat, table: map<string, Record>, key: string)
    requires c.WellFormed() && n <= |c.log| && c.ShardOf(key) != m.shard
    ensures Get(Replay(c.log[..n], m, table), key) == Get(table, key)
  {
    if n > 0 {
      assert c.log[..n][..n - 1] == c.log[..n - 1];
      ReplayFrame(c, m, n - 1, table, key);
    }
  }

  lemma {:induction false} ReplayCountIsShardWrites(c: ClusterState, m: MigrationState, n: nat)
    requires c.WellFormed() && n <= |c.log|
    requires m.replayedThrough <= |c.log| && TailAtSource(c.log, m)
    ensures n <= m.replayedThrough ==> ReplayCount(c.log[..n], m) == 0
    ensures n > m.replayedThrough ==>
              ReplayCount(c.log[..n], m) == ShardWrites(c.log[..n], m.shard) - ShardWrites(c.log[..m.replayedThrough], m.shard)
  {
    if n > 0 {
      assert c.log[..n][..n - 1] == c.log[..n - 1];
      ReplayCountIsShardWrites(c, m, n - 1);
    }
  }
}
