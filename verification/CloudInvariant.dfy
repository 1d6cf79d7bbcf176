/** Every step of the Cloud Save store keeps its invariant, whatever has run before. */
module CloudInvariant {
  import opened Digests
  import opened Numbers
  import opened CloudSaves

  lemma ReferencedSurvivesDrop(s: Store, ids: set<string>, key: BlobKey)
    requires Shaped(s) && Referenced(s, key) && key.user !in Owners(s, ids)
    ensures Referenced(Dropped(s, ids), key)
  {
    var id :| id in s.snapshots && s.snapshots[id].user == key.user && id in s.manifests
        && Names(s.manifests[id], key.hash);
    assert id !in ids;
    assert id in Dropped(s, ids).snapshots;
  }

  /** Dropping snapshots and collecting for everyone who lost one keeps the invariant. */
  lemma RemovalKeepsInv(s: Store, ids: set<string>, users: set<string>)
    requires Inv(s) && Owners(s, ids) <= users
    ensures Inv(Collected(Dropped(s, ids), users))
  {
    var d := Dropped(s, ids);
    var c := Collected(d, users);
    forall key | key in d.blobs && key.user !in users
      ensures Referenced(d, key)
    {
      ReferencedSurvivesDrop(s, ids, key);
    }
    forall key | key in c.blobs
      ensures Referenced(c, key)
    {
      SameReferences(d, c, key);
    }
    forall id, i | id in c.snapshots && id in c.manifests && !c.snapshots[id].status.Pending?
      && 0 <= i < |c.manifests[id]|
      ensures FileKept(c, c.snapshots[id].user, c.manifests[id][i])
    {
      var key := BlobKey(c.snapshots[id].user, c.manifests[id][i].hash);
      assert FileKept(s, s.snapshots[id].user, s.manifests[id][i]);
      assert Names(d.manifests[id], key.hash);
      assert Referenced(d, key);
    }
  }

  lemma SameReferences(s: Store, t: Store, key: BlobKey)
    requires s.manifests == t.manifests && s.snapshots.Keys == t.snapshots.Keys
    requires forall id | id in s.snapshots :: s.snapshots[id].user == t.snapshots[id].user
    ensures Referenced(s, key) <==> Referenced(t, key)
  {
  }

  lemma CollectionKeepsInv(s: Store, users: set<string>)
    requires Inv(s)
    ensures Inv(Collected(s, users))
  {
  }

  lemma AdditionKeepsInv(s: Store, id: string, snapshot: Snapshot, files: seq<File>)
    requires Inv(s) && id !in s.snapshots && snapshot.status.Pending? && snapshot.version >= 1
    ensures Inv(Added(s, id, snapshot, files))
  {
    var t := Added(s, id, snapshot, files);
    forall key | key in t.blobs
      ensures Referenced(t, key)
    {
      var other :| other in s.snapshots && s.snapshots[other].user == key.user
                   && other in s.manifests && Names(s.manifests[other], key.hash);
      assert other in t.snapshots;
    }
    forall other, i | other in t.snapshots && other in t.manifests && !t.snapshots[other].status.Pending?
                      && 0 <= i < |t.manifests[other]|
      ensures FileKept(t, t.snapshots[other].user, t.manifests[other][i])
    {
      assert FileKept(s, s.snapshots[other].user, s.manifests[other][i]);
    }
  }

  lemma PrepareKeepsInv(s: Store, user: string, request: PrepareRequest, id: string, now: int, room: bool)
    requires Inv(s)
    ensures Inv(Prepare(s, user, request, id, now, room).0)
  {
    hide Inv, Added, Collected, Dropped, Owners, StaleOf;
    var swept := Swept(s, user, now);
    RemovalKeepsInv(s, StaleOf(s, user, now), Owners(s, StaleOf(s, user, now)));
    if WellFormed(request) && id !in swept.snapshots {
      AdditionKeepsInv(swept, id, Snapshot(user, request.game, request.baseVersion + 1, Pending, now, now),
                       request.files);
    }
  }

  /** Re-landing bytes under a key changes nothing: only one content hashes to it. */
  lemma LandKeepsInv(s: Store, key: BlobKey, bytes: Content)
    requires Inv(s)
    ensures Inv(Land(s, key, bytes).0)
  {
  }

  lemma {:induction false} RegisteredHas(blobs: map<BlobKey, int>, user: string, files: seq<File>, key: BlobKey)
    ensures key in Registered(blobs, user, files) <==> key in blobs || (key.user == user && Names(files, key.hash))
    ensures key in blobs && !(key.user == user && Names(files, key.hash)) ==>
            Registered(blobs, user, files)[key] == blobs[key]
    ensures key in Registered(blobs, user, files) && key.user == user && Names(files, key.hash) ==>
              exists i | 0 <= i < |files| ::
                files[i].hash == key.hash && Registered(blobs, user, files)[key] == files[i].sizeBytes
  {
    if files != [] {
      var n := |files| - 1;
      var init := files[..n];
      RegisteredHas(blobs, user, init, key);
      assert Names(files, key.hash) <==> Names(init, key.hash) || files[n].hash == key.hash by {
        if Names(init, key.hash) {
          var i :| 0 <= i < |init| && init[i].hash == key.hash;
          assert files[i].hash == key.hash;
        }
        if Names(files, key.hash) {
          var i :| 0 <= i < |files| && files[i].hash == key.hash;
          if i < n { assert init[i].hash == key.hash; }
        }
      }
      if key.user == user && Names(init, key.hash) && key != BlobKey(user, files[n].hash) {
        var i :| 0 <= i < |init| && init[i].hash == key.hash && Registered(blobs, user, init)[key] == init[i].sizeBytes;
        assert files[i].hash == key.hash && Registered(blobs, user, files)[key] == files[i].sizeBytes;
      }
      if key == BlobKey(user, files[n].hash) {
        assert files[n].hash == key.hash && Registered(blobs, user, files)[key] == files[n].sizeBytes;
      }
    }
  }

  /** Registering files that have arrived keeps the invariant: their manifest is the reference. */
  lemma RegistrationKeepsInv(s: Store, user: string, id: string, n: nat)
    requires Inv(s)
    requires id in s.snapshots && s.snapshots[id].user == user && n <= |s.manifests[id]|
    requires forall i | 0 <= i < n :: Arrived(s, user, s.manifests[id][i])
    ensures Inv(s.(blobs := Registered(s.blobs, user, s.manifests[id][..n])))
    ensures forall i | 0 <= i < n ::
              FileKept(s.(blobs := Registered(s.blobs, user, s.manifests[id][..n])), user, s.manifests[id][i])
  {
    var files := s.manifests[id][..n];
    var t := s.(blobs := Registered(s.blobs, user, files));
    forall key | key in t.blobs
      ensures key.hash.digest.Sha256? && |key.hash.digest.of| == t.blobs[key] && Referenced(t, key)
      ensures key in s.blobs ==> t.blobs[key] == s.blobs[key]
    {
      RegisteredHas(s.blobs, user, files, key);
      SameReferences(s, t, key);
      if key.user == user && Names(files, key.hash) {
        var i :| 0 <= i < |files| && files[i].hash == key.hash && t.blobs[key] == files[i].sizeBytes;
        assert Arrived(s, user, s.manifests[id][i]);
        assert Names(s.manifests[id], key.hash);
      }
    }
    forall other, i | other in t.snapshots && other in t.manifests && !t.snapshots[other].status.Pending?
                      && 0 <= i < |t.manifests[other]|
      ensures FileKept(t, t.snapshots[other].user, t.manifests[other][i])
    {
      var key := BlobKey(s.snapshots[other].user, s.manifests[other][i].hash);
      assert FileKept(s, s.snapshots[other].user, s.manifests[other][i]);
      RegisteredHas(s.blobs, user, files, key);
    }
    forall i | 0 <= i < n
      ensures FileKept(t, user, s.manifests[id][i])
    {
      var key := BlobKey(user, s.manifests[id][i].hash);
      assert files[i].hash == key.hash;
      RegisteredHas(s.blobs, user, files, key);
      assert Arrived(s, user, s.manifests[id][i]);
    }
  }

  /** The statuses a commit leaves behind. */
  lemma PromotionShape(s: Store, user: string, id: string, now: int, autoDelete: bool)
    requires Shaped(s) && id in s.snapshots && s.snapshots[id].user == user && s.snapshots[id].status.Pending?
    ensures var t := Promoted(s, user, id, now, autoDelete);
            && Shaped(t) && t.blobs == s.blobs && t.disk == s.disk
            && id in t.snapshots && t.snapshots[id].status.Committed?
            && (forall other | other in t.snapshots ::
                  && other in s.snapshots && t.manifests[other] == s.manifests[other]
                  && Belongs(t.snapshots[other], s.snapshots[other].user, s.snapshots[other].game)
                  && t.snapshots[other].version == s.snapshots[other].version
                  && (other != id && t.snapshots[other].status.Committed? ==>
                        s.snapshots[other].status.Committed?
                          && !Belongs(s.snapshots[other], user, s.snapshots[id].game))
                  && (other != id && !t.snapshots[other].status.Pending? ==> !s.snapshots[other].status.Pending?))
  {
  }

  lemma CommitKeepsInv(s: Store, user: string, id: string, now: int, autoDelete: bool)
    requires Inv(s)
    ensures Inv(Commit(s, user, id, now, autoDelete).0)
  {
    if id in s.snapshots && s.snapshots[id].user == user && s.snapshots[id].status.Pending? {
      var files := s.manifests[id];
      var arrived := ArrivedPrefix(s, user, files);
      RegistrationKeepsInv(s, user, id, arrived);
      if arrived == |files| {
        PromotionKeepsInv(s.(blobs := Registered(s.blobs, user, files[..arrived])), user, id, now, autoDelete);
      }
    }
  }

  /** Accounting apart, promotion keeps the invariant; collecting for the owner restores the accounting. */
  lemma PromotionKeepsInv(s: Store, user: string, id: string, now: int, autoDelete: bool)
    requires Inv(s) && id in s.snapshots && s.snapshots[id].user == user && s.snapshots[id].status.Pending?
    requires forall i | 0 <= i < |s.manifests[id]| :: FileKept(s, user, s.manifests[id][i])
    ensures Inv(Collected(Promoted(s, user, id, now, autoDelete), {user}))
  {
    var t := Promoted(s, user, id, now, autoDelete);
    PromotionShape(s, user, id, now, autoDelete);
    PromotionRestorable(s, user, id, now, autoDelete);
    PromotionKeepsOne(s, user, id, now, autoDelete);
    forall key | key in t.blobs && key.user != user
      ensures Referenced(t, key)
    {
      OthersKeepReferences(s, user, id, now, autoDelete, key);
    }
    hide Promoted, Restorable, OneCommitted, Referenced, Collected, Shaped;
    CollectingRestoresAccounting(t, user);
  }

  lemma PromotionRestorable(s: Store, user: string, id: string, now: int, autoDelete: bool)
    requires Shaped(s) && Restorable(s)
    requires id in s.snapshots && s.snapshots[id].user == user && s.snapshots[id].status.Pending?
    requires forall i | 0 <= i < |s.manifests[id]| :: FileKept(s, user, s.manifests[id][i])
    ensures Restorable(Promoted(s, user, id, now, autoDelete))
  {
    var t := Promoted(s, user, id, now, autoDelete);
    PromotionShape(s, user, id, now, autoDelete);
    hide Promoted, FileKept;
    forall other, i | other in t.snapshots && other in t.manifests && !t.snapshots[other].status.Pending?
                      && 0 <= i < |t.manifests[other]|
      ensures FileKept(t, t.snapshots[other].user, t.manifests[other][i])
    {
      assert FileKept(s, s.snapshots[other].user, s.manifests[other][i]);
      SameRowsKeep(s, t, s.snapshots[other].user, s.manifests[other][i]);
    }
  }

  lemma PromotionKeepsOne(s: Store, user: string, id: string, now: int, autoDelete: bool)
    requires Shaped(s) && OneCommitted(s)
    requires id in s.snapshots && s.snapshots[id].user == user && s.snapshots[id].status.Pending?
    ensures OneCommitted(Promoted(s, user, id, now, autoDelete))
  {
    PromotionShape(s, user, id, now, autoDelete);
    hide Promoted;
  }

  lemma OthersKeepReferences(s: Store, user: string, id: string, now: int, autoDelete: bool, key: BlobKey)
    requires Shaped(s) && id in s.snapshots && s.snapshots[id].user == user && s.snapshots[id].status.Pending?
    requires Referenced(s, key) && key.user != user
    ensures Referenced(Promoted(s, user, id, now, autoDelete), key)
  {
    var other :| other in s.snapshots && s.snapshots[other].user == key.user
                 && other in s.manifests && Names(s.manifests[other], key.hash);
    assert other in Promoted(s, user, id, now, autoDelete).snapshots;
  }

  lemma CollectingRestoresAccounting(t: Store, user: string)
    requires Shaped(t) && ContentAddressed(t) && Sized(t) && Restorable(t) && OneCommitted(t)
    requires forall key | key in t.blobs && key.user != user :: Referenced(t, key)
    ensures Inv(Collected(t, {user}))
  {
  }

  /** A swap touches only statuses, versions and times. */
  lemma SwapShape(s: Store, user: string, id: string, version: int, now: int)
    requires Shaped(s) && id in s.snapshots && s.snapshots[id].user == user
    ensures var t := Swapped(s, user, id, version, now);
            && t.snapshots.Keys == s.snapshots.Keys && t.manifests == s.manifests && t.blobs == s.blobs
               && t.disk == s.disk
            && forall other | other in s.snapshots ::
                 && t.snapshots[other].user == s.snapshots[other].user
                    && t.snapshots[other].game == s.snapshots[other].game
                 && (t.snapshots[other].status.Pending? ==> s.snapshots[other].status.Pending?)
                 && (t.snapshots[other].version == s.snapshots[other].version
                     || (other == id && t.snapshots[other].version == version))
  {
  }

  lemma SwapKeepsOne(s: Store, user: string, id: string, version: int, now: int)
    requires OneCommitted(s) && id in s.snapshots && s.snapshots[id].user == user
    ensures OneCommitted(Swapped(s, user, id, version, now))
  {
  }

  lemma SwapKeepsInv(s: Store, user: string, id: string, version: int, now: int)
    requires Inv(s) && version >= 1
    requires id in s.snapshots && s.snapshots[id].user == user && s.snapshots[id].status.Superseded?
    ensures Inv(Swapped(s, user, id, version, now))
  {
    var t := Swapped(s, user, id, version, now);
    SwapShape(s, user, id, version, now);
    SwapKeepsOne(s, user, id, version, now);
    SwapRestorable(s, user, id, version, now);
    hide Swapped, Referenced, OneCommitted, Restorable;
    forall key | key in t.blobs
      ensures Referenced(t, key)
    {
      SameReferences(s, t, key);
    }
  }

  lemma SwapRestorable(s: Store, user: string, id: string, version: int, now: int)
    requires Shaped(s) && Restorable(s)
    requires id in s.snapshots && s.snapshots[id].user == user && s.snapshots[id].status.Superseded?
    ensures Restorable(Swapped(s, user, id, version, now))
  {
    var t := Swapped(s, user, id, version, now);
    SwapShape(s, user, id, version, now);
    hide Swapped, FileKept;
    forall other, i | other in t.snapshots && other in t.manifests && !t.snapshots[other].status.Pending?
                      && 0 <= i < |t.manifests[other]|
      ensures FileKept(t, t.snapshots[other].user, t.manifests[other][i])
    {
      assert FileKept(s, s.snapshots[other].user, s.manifests[other][i]);
      SameRowsKeep(s, t, s.snapshots[other].user, s.manifests[other][i]);
    }
  }

  lemma SameRowsKeep(s: Store, t: Store, user: string, file: File)
    requires s.blobs == t.blobs
    ensures FileKept(s, user, file) == FileKept(t, user, file)
  {
  }

  lemma RestoreKeepsInv(s: Store, user: string, id: string, now: int)
    requires Inv(s)
    ensures Inv(Restore(s, user, id, now).0)
  {
    hide Inv, Swapped, Versions;
    if id in s.snapshots && s.snapshots[id].user == user && s.snapshots[id].status.Superseded? {
      SwapKeepsInv(s, user, id, Greatest(Versions(s, user, s.snapshots[id].game)) + 1, now);
    }
  }

  lemma OrphanFilesKeepInv(s: Store, texts: seq<string>, write: Writing)
    requires Inv(s)
    ensures Inv(DeleteOrphanFiles(s, texts, write))
  {
  }

  lemma StepKeepsInv(s: Store, op: Op)
    requires Inv(s)
    ensures Inv(Step(s, op).0)
  {
    hide Inv, Prepare, Commit, Restore, Collected, Dropped, Owners, DeleteOrphanFiles, Land;
    match op
    case PrepareOp(user, request, id, now, room) => PrepareKeepsInv(s, user, request, id, now, room);
    case LandOp(key, bytes) => LandKeepsInv(s, key, bytes);
    case CommitOp(user, id, now, autoDelete) => CommitKeepsInv(s, user, id, now, autoDelete);
    case RestoreOp(user, id, now) => RestoreKeepsInv(s, user, id, now);
    case DeleteGameOp(user, game) =>
      OwnersOfGame(s, user, game);
      RemovalKeepsInv(s, OfGame(s, user, game), {user});
    case DeleteRetainedOp(user, id) => RemovalKeepsInv(s, {id}, Owners(s, {id}));
    case AdminDeleteOp(id) => RemovalKeepsInv(s, {id}, Owners(s, {id}));
    case SweepPendingOp(now) => RemovalKeepsInv(s, Stale(s, now), Owners(s, Stale(s, now)));
    case GcBlobsOp => CollectionKeepsInv(s, set key | key in s.blobs :: key.user);
    case DeleteRetainedVersionsOp => RemovalKeepsInv(s, AllSuperseded(s), Owners(s, AllSuperseded(s)));
    case DeleteOrphanFilesOp(texts, write) => OrphanFilesKeepInv(s, texts, write);
  }

  lemma OwnersOfGame(s: Store, user: string, game: Game)
    ensures Owners(s, OfGame(s, user, game)) <= {user}
  {
  }

  /** Every state reached from the empty store by any sequence of steps satisfies the invariant. */
  lemma {:induction false} ReachableInv(s: Store, ops: seq<Op>)
    requires Inv(s)
    ensures Inv(After(s, ops))
    decreases |ops|
  {
    hide Inv, Step;
    if ops != [] {
      StepKeepsInv(s, ops[0]);
      ReachableInv(Step(s, ops[0]).0, ops[1..]);
    }
  }

  /** Blob rows are exactly accounted: each is referenced by a snapshot of its owner, and every hash of a
      committed or kept manifest has one. */
  lemma RowsAreAccounted(ops: seq<Op>)
    ensures var s := After(EMPTY, ops);
            && s.manifests.Keys == s.snapshots.Keys
            && (forall key | key in s.blobs :: Referenced(s, key))
            && (forall id, i | id in s.snapshots && id in s.manifests && !s.snapshots[id].status.Pending?
                               && 0 <= i < |s.manifests[id]| ::
                  BlobKey(s.snapshots[id].user, s.manifests[id][i].hash) in s.blobs)
  {
    hide After;
    var s := After(EMPTY, ops);
    ReachableInv(EMPTY, ops);
    forall id, i | id in s.snapshots && id in s.manifests && !s.snapshots[id].status.Pending?
      && 0 <= i < |s.manifests[id]|
      ensures BlobKey(s.snapshots[id].user, s.manifests[id][i].hash) in s.blobs
    {
      assert FileKept(s, s.snapshots[id].user, s.manifests[id][i]);
    }
  }
}
