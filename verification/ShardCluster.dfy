/**
  The cluster and its migrations as the mutable objects of the lab. Every method is proved to do what
  the step functions of ShardModel say, so the results about runs hold of the objects.
 */
module ShardCluster {
  import opened Results
  import opened ShardModel

  function Restrict(table: map<string, Record>, keys: set<string>): map<string, Record> {
    map k | k in keys && k in table :: table[k]
  }

  lemma RemoveOne(records: map<string, Record>, removed: set<string>, key: string)
    ensures (records - removed) - {key} == records - (removed + {key})
  {
  }

  class Migration {
    const virtualShard: int
    const source: string
    const target: string
    const sourceEpoch: int
    var baselineSequence: nat
    var replayedThrough: nat
    var phase: Phase

    constructor (virtualShard: int, source: string, target: string, sourceEpoch: int)
      ensures State() == MigrationState(virtualShard, source, target, sourceEpoch, 0, 0, PREPARE)
    {
      this.virtualShard, this.source, this.target, this.sourceEpoch := virtualShard, source, target, sourceEpoch;
      baselineSequence, replayedThrough, phase := 0, 0, PREPARE;
    }

    ghost function State(): MigrationState
      reads this
    {
      MigrationState(virtualShard, source, target, sourceEpoch, baselineSequence, replayedThrough, phase)
    }
  }

  class Cluster {
    const virtualShards: int
    const digest: string -> nat
    var nodes: map<string, map<string, Record>>
    var shardMap: map<int, Route>
    var sequence: nat
    var writeLog: seq<LogEntry>

    ghost function State(): ClusterState
      reads this
    {
      ClusterState(nodes, shardMap, sequence, writeLog, virtualShards, digest)
    }

    ghost predicate Valid()
      reads this
    {
      State().WellFormed()
    }

    constructor (names: seq<string>, virtualShards: int, digest: string -> nat)
      requires names != [] && virtualShards > 0
      ensures Valid() && this.digest == digest && this.virtualShards == virtualShards
      ensures nodes == map x | x in names :: map[]
      ensures forall s | 0 <= s < virtualShards :: shardMap[s] == Route(names[s % |names|], 1)
      ensures writeLog == []
    {
      this.virtualShards, this.digest := virtualShards, digest;
      nodes := map x | x in names :: map[];
      shardMap := map s | 0 <= s < virtualShards :: Route(names[s % |names|], 1);
      sequence, writeLog := 0, [];
    }

    /** The construction as callers see it: it raises on no nodes or no shards. */
    static method Create(names: seq<string>, virtualShards: int, digest: string -> nat) returns (r: Result<Cluster>)
      ensures r.Err? <==> names == [] || virtualShards <= 0
      ensures r.Err? ==> r.error == ValueError
      ensures r.Ok? ==>
                && fresh(r.value) && r.value.Valid() && r.value.writeLog == [] && r.value.virtualShards == virtualShards
                && r.value.digest == digest
                && r.value.nodes == (map x | x in names :: map[])
                && forall s | 0 <= s < virtualShards :: r.value.shardMap[s] == Route(names[s % |names|], 1)
    {
      if names == [] || virtualShards <= 0 {
        return Err(ValueError);
      }
      var cluster := new Cluster(names, virtualShards, digest);
      return Ok(cluster);
    }

    function VirtualShardFor(key: string): (s: int)
      requires virtualShards > 0
      ensures 0 <= s < virtualShards
    {
      digest(key) % virtualShards
    }

    method SetOwner(shard: int, owner: string, epoch: int) returns (r: Result<()>)
      requires Valid()
      modifies this`shardMap
      ensures Valid()
      ensures (State(), r) == ShardModel.SetOwner(old(State()), shard, owner, epoch)
    {
      if owner !in nodes || !(0 <= shard < virtualShards) {
        return Err(KeyError);
      }
      if epoch <= 0 {
        return Err(ValueError);
      }
      shardMap := shardMap[shard := Route(owner, epoch)];
      return Ok(());
    }

    method SnapshotRoutes() returns (routes: map<int, Route>)
      ensures routes == shardMap
    {
      routes := map shard | shard in shardMap :: Route(shardMap[shard].owner, shardMap[shard].epoch);
    }

    method Write(routes: map<int, Route>, key: string, value: string, enforceFencing: bool) returns (r: Result<WriteResult>)
      requires Valid()
      modifies this`nodes, this`sequence, this`writeLog
      ensures Valid()
      ensures (State(), r) == ShardModel.Write(old(State()), routes, key, value, enforceFencing)
    {
      var shard := VirtualShardFor(key);
      if shard !in routes {
        return Err(KeyError);
      }
      var route := routes[shard];
      if route.owner !in nodes {
        return Err(KeyError);
      }
      var current := shardMap[shard];
      if enforceFencing && (route.epoch != current.epoch || route.owner != current.owner) {
        return Ok(WriteResult(false, route.owner, route.epoch, None));
      }
      sequence := sequence + 1;
      var record := Record(key, value, sequence);
      nodes := nodes[route.owner := nodes[route.owner][key := record]];
      writeLog := writeLog + [LogEntry(sequence, shard, route.owner, record)];
      return Ok(WriteResult(true, route.owner, route.epoch, Some(sequence)));
    }

    method BeginMigration(shard: int, target: string) returns (r: Result<Migration>)
      requires Valid()
      ensures r.Err? <==> Begin(State(), shard, target).Err?
      ensures r.Err? ==> r.error == Begin(State(), shard, target).error
      ensures r.Ok? ==> fresh(r.value) && r.value.State() == Begin(State(), shard, target).value
      ensures r.Ok? ==> Planned(State(), r.value.State())
    {
      if !(0 <= shard < virtualShards) || target !in nodes {
        return Err(KeyError);
      }
      var entry := shardMap[shard];
      if entry.owner == target {
        return Err(ValueError);
      }
      var migration := new Migration(shard, entry.owner, target, entry.epoch);
      return Ok(migration);
    }

    method CopySnapshot(migration: Migration) returns (r: Result<()>)
      requires Valid() && Planned(State(), migration.State())
      modifies this`nodes, migration
      ensures Valid()
      ensures ((State(), migration.State()), r) == ShardModel.CopySnapshot(old(State()), old(migration.State()))
    {
      if migration.phase != PREPARE {
        return Err(ValueError);
      }
      migration.baselineSequence := sequence;
      migration.replayedThrough := migration.baselineSequence;
      var table := CopyRecords(nodes[migration.source], nodes[migration.target], migration.virtualShard);
      nodes := nodes[migration.target := table];
      migration.phase := COPY;
      return Ok(());
    }

    /** The loop of copy_snapshot, over the source's items in any order, on the target's table. */
    method CopyRecords(records: map<string, Record>, into: map<string, Record>, shard: int)
      returns (table: map<string, Record>)
      requires virtualShards > 0
      ensures table == into + ShardPart(records, digest, virtualShards, shard)
    {
      ghost var part := ShardPart(records, digest, virtualShards, shard);
      ghost var done: set<string> := {};
      var pending := records.Keys;
      table := into;
      while pending != {}
        invariant done !! pending && done + pending == records.Keys
        invariant table == into + Restrict(part, done)
        decreases pending
      {
        var key :| key in pending;
        if VirtualShardFor(key) == shard {
          table := table[key := records[key]];
        }
        pending, done := pending - {key}, done + {key};
      }
      assert part == Restrict(part, done);
    }

    method CatchUp(migration: Migration) returns (r: Result<nat>)
      requires Valid() && Planned(State(), migration.State())
      modifies this`nodes, migration
      ensures Valid()
      ensures ((State(), migration.State()), r) == ShardModel.CatchUp(old(State()), old(migration.State()))
    {
      if migration.phase != COPY && migration.phase != CATCH_UP {
        return Err(ValueError);
      }
      var replayed := ReplayLog(migration);
      if sequence > migration.replayedThrough {
        migration.replayedThrough := sequence;
      }
      migration.phase := CATCH_UP;
      return Ok(replayed);
    }

    /** The loop of catch_up. It moves the replay point while it scans; as the log is numbered upwards,
        every entry is still tested as if against the replay point it started from. */
    method ReplayLog(migration: Migration) returns (replayed: nat)
      requires forall j | 0 <= j < |writeLog| :: writeLog[j].sequence == j + 1
      requires migration.target in nodes
      modifies this`nodes, migration`replayedThrough
      ensures nodes == old(nodes)[migration.target := Replay(writeLog, old(migration.State()), old(nodes)[migration.target])]
      ensures replayed == ReplayCount(writeLog, old(migration.State()))
      ensures old(migration.replayedThrough) <= migration.replayedThrough
      ensures migration.replayedThrough > old(migration.replayedThrough) ==> migration.replayedThrough <= |writeLog|
    {
      ghost var start := migration.State();
      ghost var table := nodes[migration.target];
      var i := 0;
      replayed := 0;
      while i < |writeLog|
        invariant 0 <= i <= |writeLog|
        invariant migration.target in nodes && nodes == old(nodes)[migration.target := table]
        invariant table == Replay(writeLog[..i], start, old(nodes)[migration.target])
        invariant replayed == ReplayCount(writeLog[..i], start)
        invariant start.replayedThrough <= migration.replayedThrough
        invariant migration.replayedThrough > start.replayedThrough ==> migration.replayedThrough <= i
      {
        var e := writeLog[i];
        assert writeLog[..i + 1][..i] == writeLog[..i];
        if e.sequence > migration.replayedThrough && e.shard == migration.virtualShard && e.owner == migration.source {
          nodes := nodes[migration.target := nodes[migration.target][e.record.key := e.record]];
          table := table[e.record.key := e.record];
          replayed := replayed + 1;
          migration.replayedThrough := e.sequence;
        }
        i := i + 1;
      }
      assert writeLog[..i] == writeLog;
    }

    method Cutover(migration: Migration, requireCatchUp: bool) returns (r: Result<int>)
      requires Valid() && Planned(State(), migration.State())
      modifies this`shardMap, migration
      ensures Valid()
      ensures ((State(), migration.State()), r) == ShardModel.Cutover(old(State()), old(migration.State()), requireCatchUp)
    {
      if requireCatchUp && migration.phase != CATCH_UP {
        return Err(ValueError);
      }
      if !requireCatchUp && migration.phase != COPY && migration.phase != CATCH_UP {
        return Err(ValueError);
      }
      var current := shardMap[migration.virtualShard];
      if current.owner != migration.source || current.epoch != migration.sourceEpoch {
        return Err(RuntimeError);
      }
      var newEpoch := current.epoch + 1;
      shardMap := shardMap[migration.virtualShard := Route(migration.target, newEpoch)];
      migration.phase := CUTOVER;
      return Ok(newEpoch);
    }

    method CleanUp(migration: Migration) returns (r: Result<nat>)
      requires Valid() && Planned(State(), migration.State())
      modifies this`nodes, migration
      ensures Valid()
      ensures ((State(), migration.State()), r) == ShardModel.CleanUp(old(State()), old(migration.State()))
    {
      if migration.phase != CUTOVER {
        return Err(ValueError);
      }
      var table, deleted := DeleteRecords(nodes[migration.source], migration.virtualShard);
      nodes := nodes[migration.source := table];
      migration.phase := CLEANUP;
      return Ok(deleted);
    }

    /** The loop of cleanup, over a snapshot of the source's keys, on the source's table. */
    method DeleteRecords(records: map<string, Record>, shard: int) returns (table: map<string, Record>, deleted: nat)
      requires virtualShards > 0
      ensures var part := ShardPart(records, digest, virtualShards, shard);
              table == records - part.Keys && deleted == |part|
    {
      ghost var part := ShardPart(records, digest, virtualShards, shard);
      ghost var removed: set<string> := {};
      var pending := records.Keys;
      table, deleted := records, 0;
      while pending != {}
        invariant removed <= part.Keys && removed !! pending && pending <= records.Keys
        invariant forall k | k in part :: k in removed || k in pending
        invariant table == records - removed
        invariant deleted == |removed|
        decreases pending
      {
        var key :| key in pending;
        if VirtualShardFor(key) == shard {
          RemoveOne(records, removed, key);
          table := table - {key};
          deleted := deleted + 1;
          removed := removed + {key};
        }
        pending := pending - {key};
      }
      assert removed == part.Keys;
    }

    method ReadAuthoritative(key: string) returns (r: Option<Record>)
      requires Valid()
      ensures r == State().Read(key)
    {
      var owner := shardMap[VirtualShardFor(key)].owner;
      r := if key in nodes[owner] then Some(nodes[owner][key]) else None;
    }

    method ReadFrom(owner: string, key: string) returns (r: Result<Option<Record>>)
      ensures r == if owner in nodes then Ok(Get(nodes[owner], key)) else Err(KeyError)
    {
      if owner !in nodes {
        return Err(KeyError);
      }
      return Ok(if key in nodes[owner] then Some(nodes[owner][key]) else None);
    }
  }
}
