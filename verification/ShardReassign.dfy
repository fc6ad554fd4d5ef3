/**
  Reassigning a shard by hand, while writes and migrations go on: exactly when no disciplined future
  loses an acknowledged write.
 */
module ShardReassign {
  import opened ShardModel
  import opened ShardRun
  import opened ShardTheorems
  import opened ShardBystander
  import opened ShardOverlap

  function Reassigned(w: World, shard: int, owner: string, epoch: int): World {
    w.(cluster := SetOwner(w.cluster, shard, owner, epoch).0)
  }

  ghost predicate SlicesAgree(w: World, shard: int, owner: string)
    requires Wf(w) && shard in w.cluster.shardMap && owner in w.cluster.nodes
  {
    Slice(w.cluster, owner, shard) == Slice(w.cluster, w.cluster.shardMap[shard].owner, shard)
  }

  /** A migration of the shard that still has to delete the owner's records. */
  predicate WillDelete(m: MigrationState, shard: int, owner: string) {
    m.shard == shard && m.phase == CUTOVER && m.source == owner
  }

  lemma ReassignedWf(w: World, shard: int, owner: string, epoch: int)
    requires Wf(w) && SetOwner(w.cluster, shard, owner, epoch).1.Ok?
    ensures Wf(Reassigned(w, shard, owner, epoch))
    ensures SafeForever(Reassigned(w, shard, owner, epoch)) ==> ReadsAreLastWrites(Reassigned(w, shard, owner, epoch).cluster)
  {
    if SafeForever(Reassigned(w, shard, owner, epoch)) {
      assert Run(Reassigned(w, shard, owner, epoch), []) == Reassigned(w, shard, owner, epoch);
    }
  }

  lemma ReassignedReads(w: World, shard: int, owner: string, epoch: int)
    requires Inv(w) && SetOwner(w.cluster, shard, owner, epoch).1.Ok?
    ensures Wf(Reassigned(w, shard, owner, epoch))
    ensures ReadsAreLastWrites(Reassigned(w, shard, owner, epoch).cluster) <==> SlicesAgree(w, shard, owner)
  {
    ReassignedWf(w, shard, owner, epoch);
    SetOwnerExact(w.cluster, shard, owner, epoch);
    var c, c' := w.cluster, Reassigned(w, shard, owner, epoch).cluster;
    assert forall key :: c.Read(key) == LastWrite(c.log, key);
    if ReadsAreLastWrites(c') {
      forall key ensures c'.Read(key) == c.Read(key) {
        assert c'.Read(key) == LastWrite(c'.log, key);
      }
    }
  }

  /** Records of the shard are at the new owner, or at the source of a migration that is to be cleaned up. */
  lemma LeftToCleanUp(w: World, i: nat, owner: string, x: string, key: string)
    requires Inv(w) && i < |w.migrations| && w.migrations[i].phase == CUTOVER
    requires owner in w.cluster.nodes && owner != w.migrations[i].source && SlicesAgree(w, w.migrations[i].shard, owner)
    requires x in w.cluster.nodes && key in w.cluster.nodes[x] && w.cluster.ShardOf(key) == w.migrations[i].shard
    ensures x == owner || x == w.migrations[i].source
  {
    OnlyLive(w, i);
    if x == w.cluster.shardMap[w.migrations[i].shard].owner {
      assert key in Slice(w.cluster, x, w.migrations[i].shard);
      assert key in Slice(w.cluster, owner, w.migrations[i].shard);
    }
  }

  /** If the new owner is the target of a migration, nothing is left to copy or to replay. */
  lemma CaughtUp(w: World, i: nat)
    requires Inv(w) && i < |w.migrations| && Early(w.migrations[i])
    requires SlicesAgree(w, w.migrations[i].shard, w.migrations[i].target)
    ensures NothingToMove(w.cluster, w.migrations[i])
  {
    var c, m := w.cluster, w.migrations[i];
    assert Planned(c, m) && MigrationOk(c, m);
    if m.phase == PREPARE {
      forall key | key in c.nodes[m.source] ensures c.ShardOf(key) != m.shard {
        if c.ShardOf(key) == m.shard {
          assert key in Slice(c, m.source, m.shard);
          NothingAtTarget(w, i, key);
        }
      }
    } else {
      forall j | 0 <= j < |c.log| ensures !Applies(c.log[j], m) {
        if Applies(c.log[j], m) {
          NotReplayed(w, i, j);
        }
      }
    }
  }

  lemma NotReplayed(w: World, i: nat, j: nat)
    requires Inv(w) && i < |w.migrations| && (w.migrations[i].phase == COPY || w.migrations[i].phase == CATCH_UP)
    requires j < |w.cluster.log| && Applies(w.cluster.log[j], w.migrations[i])
    ensures !SlicesAgree(w, w.migrations[i].shard, w.migrations[i].target)
  {
    var c, m := w.cluster, w.migrations[i];
    var key := c.log[j].record.key;
    assert MigrationOk(c, m);
    LastWriteAfter(c.log, key, j);
    LastWriteSource(c.log[..m.replayedThrough], key);
    assert c.Read(key) == LastWrite(c.log, key);
    assert Get(c.nodes[m.target], key) == LastWrite(c.log[..m.replayedThrough], key);
    assert key in Slice(c, m.source, m.shard);
  }

  /** The nodes whose records of the shard no longer matter. */
  function Dead(w: World, i: nat, owner: string): set<string>
    requires i < |w.migrations|
  {
    if w.migrations[i].phase == CUTOVER then {w.migrations[i].source} else w.cluster.nodes.Keys - {owner}
  }

  lemma ReassignedTwin(w: World, i: nat, owner: string, epoch: int, w': World)
    requires Inv(w) && i < |w.migrations| && Live(w.migrations[i])
    requires SetOwner(w.cluster, w.migrations[i].shard, owner, epoch).1.Ok? && SlicesAgree(w, w.migrations[i].shard, owner)
    requires w' == Reassigned(w, w.migrations[i].shard, owner, epoch) && !WillDelete(w.migrations[i], w.migrations[i].shard, owner)
    ensures Wf(w') && DeadAside(w', i, Dead(w, i, owner)) && Idle(w', i, Dead(w, i, owner))
    ensures OthersCover(w', i, Dead(w, i, owner))
  {
    var m, dead := w.migrations[i], Dead(w, i, owner);
    ReassignedWf(w, m.shard, owner, epoch);
    OnlyLive(w, i);
    assert Planned(w.cluster, m);
    if Early(m) && owner == m.target {
      CaughtUp(w, i);
    }
    forall x, key | x in w'.cluster.nodes && key in w'.cluster.nodes[x] ensures CoveredBut(w', i, dead, x, key) {
      if w.cluster.ShardOf(key) == m.shard {
        if m.phase == CUTOVER {
          LeftToCleanUp(w, i, owner, x, key);
        }
      } else {
        assert Home(w, x, w.cluster.ShardOf(key));
      }
    }
  }

  lemma ReassignedDecided(w: World, i: nat, owner: string, epoch: int, w': World)
    requires Inv(w) && i < |w.migrations| && Live(w.migrations[i])
    requires SetOwner(w.cluster, w.migrations[i].shard, owner, epoch).1.Ok? && SlicesAgree(w, w.migrations[i].shard, owner)
    requires w' == Reassigned(w, w.migrations[i].shard, owner, epoch) && !WillDelete(w.migrations[i], w.migrations[i].shard, owner)
    requires Early(w.migrations[i]) ==> Route(owner, epoch) != Route(w.migrations[i].source, w.migrations[i].sourceEpoch)
    ensures Wf(w') && Decided(w', i)
  {
    var m, dead := w.migrations[i], Dead(w, i, owner);
    ReassignedTwin(w, i, owner, epoch, w');
    ReassignedReads(w, m.shard, owner, epoch);
    OnlyLive(w, i);
    forall j | 0 <= j < |w'.migrations| && j != i ensures MigrationOk(w'.cluster, w'.migrations[j]) {
      assert Planned(w.cluster, w.migrations[j]) && MigrationOk(w.cluster, w.migrations[j]);
      MigrationFrame(w.cluster, w'.cluster, w.migrations[j]);
    }
    PrunedFollows(w', i, dead);
    PrunedInv(w', i, dead);
    assert Refused(w', i);
  }

  lemma ReassignedInv(w: World, shard: int, owner: string, epoch: int, w': World)
    requires Inv(w) && SetOwner(w.cluster, shard, owner, epoch).1.Ok? && SlicesAgree(w, shard, owner)
    requires forall j | 0 <= j < |w.migrations| && w.migrations[j].shard == shard :: !Live(w.migrations[j])
    requires w' == Reassigned(w, shard, owner, epoch)
    ensures Inv(w')
  {
    ReassignedReads(w, shard, owner, epoch);
    forall j | 0 <= j < |w'.migrations| ensures MigrationOk(w'.cluster, w'.migrations[j]) {
      assert Planned(w.cluster, w.migrations[j]) && MigrationOk(w.cluster, w.migrations[j]);
      MigrationFrame(w.cluster, w'.cluster, w.migrations[j]);
    }
    forall x, key | x in w'.cluster.nodes && key in w'.cluster.nodes[x] ensures Home(w', x, w'.cluster.ShardOf(key)) {
      assert Home(w, x, w.cluster.ShardOf(key));
      if w.cluster.ShardOf(key) == shard {
        assert key in Slice(w.cluster, x, shard) && key in Slice(w.cluster, owner, shard);
        assert Home(w, owner, shard);
      } else if j :| 0 <= j < |w.migrations| && Covers(w.migrations[j], x, w.cluster.ShardOf(key)) {
        assert Covers(w'.migrations[j], x, w.cluster.ShardOf(key));
      }
    }
  }

  lemma ReassignedSafe(w: World, shard: int, owner: string, epoch: int, w': World)
    requires Inv(w) && SetOwner(w.cluster, shard, owner, epoch).1.Ok? && SlicesAgree(w, shard, owner)
    requires w' == Reassigned(w, shard, owner, epoch)
    requires forall j | 0 <= j < |w.migrations| :: !WillDelete(w.migrations[j], shard, owner)
    ensures Wf(w') && SafeForever(w')
  {
    ReassignedWf(w, shard, owner, epoch);
    if i :| 0 <= i < |w.migrations| && w.migrations[i].shard == shard && Live(w.migrations[i]) {
      var m := w.migrations[i];
      assert MigrationOk(w.cluster, m);
      if Early(m) && Route(owner, epoch) == Route(m.source, m.sourceEpoch) {
        assert w'.cluster.shardMap == w.cluster.shardMap;
        InvSafe(w);
      } else {
        ReassignedDecided(w, i, owner, epoch, w');
        DecidedSafe(w', i);
      }
    } else {
      ReassignedInv(w, shard, owner, epoch, w');
      InvSafe(w');
    }
  }

  /** A clean-up still to come deletes what is written to its source. */
  lemma CleanUpLoses(w: World, i: nat, key: string)
    requires Wf(w) && i < |w.migrations| && w.cluster.ShardOf(key) == w.migrations[i].shard
    requires WillDelete(w.migrations[i], w.migrations[i].shard, w.cluster.shardMap[w.migrations[i].shard].owner)
    ensures !SafeForever(w)
  {
    var op := WriteNow(w, key, "");
    LateStepLoses(Step(w, op), i, key, CleanUpOp(i));
    Extend(w, [op], CleanUpOp(i));
    assert !ReadsAreLastWrites(Run(w, [op] + [CleanUpOp(i)]).cluster);
  }

  /** Reassigning a shard is safe for ever exactly if the two nodes hold the same records of it and no
      migration has yet to delete the new owner's. */
  lemma SetOwnerSafeExact(w: World, shard: int, owner: string, epoch: int, key: string)
    requires Inv(w) && SetOwner(w.cluster, shard, owner, epoch).1.Ok? && w.cluster.ShardOf(key) == shard
    ensures Wf(Reassigned(w, shard, owner, epoch))
    ensures SafeForever(Reassigned(w, shard, owner, epoch)) <==>
            SlicesAgree(w, shard, owner) && forall j | 0 <= j < |w.migrations| :: !WillDelete(w.migrations[j], shard, owner)
  {
    var w' := Reassigned(w, shard, owner, epoch);
    ReassignedWf(w, shard, owner, epoch);
    ReassignedReads(w, shard, owner, epoch);
    if i :| 0 <= i < |w.migrations| && WillDelete(w.migrations[i], shard, owner) {
      CleanUpLoses(w', i, key);
    } else if SlicesAgree(w, shard, owner) {
      ReassignedSafe(w, shard, owner, epoch, w');
    }
  }

  /** Handing a shard back to where it came from, just after its cutover, changes no read and is not safe. */
  lemma HandingBackLoses(w: World, i: nat, epoch: int, key: string)
    requires Inv(w) && i < |w.migrations| && w.migrations[i].phase == CATCH_UP && Quiet(w.cluster, w.migrations[i])
    requires epoch > 0 && w.cluster.ShardOf(key) == w.migrations[i].shard
    ensures var w', m := Step(w, CutoverOp(i)), w.migrations[i];
            && Inv(w') && SlicesAgree(w', m.shard, m.source)
            && Wf(Reassigned(w', m.shard, m.source, epoch)) && !SafeForever(Reassigned(w', m.shard, m.source, epoch))
  {
    var w', m := Step(w, CutoverOp(i)), w.migrations[i];
    InvCutover(w, i);
    assert MigrationOk(w.cluster, m);
    forall k ensures Get(Slice(w'.cluster, m.source, m.shard), k) == Get(Slice(w'.cluster, m.target, m.shard), k) {
      assert w.cluster.Read(k) == LastWrite(w.cluster.log, k) && w'.cluster.Read(k) == LastWrite(w'.cluster.log, k);
    }
    SameTable(Slice(w'.cluster, m.source, m.shard), Slice(w'.cluster, m.target, m.shard));
    assert WillDelete(w'.migrations[i], m.shard, m.source);
    SetOwnerSafeExact(w', m.shard, m.source, epoch, key);
  }
}
