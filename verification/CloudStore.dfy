/** The Cloud Save handlers as the server runs them: one method per handler, changing the tables and the disk
    row by row. Each is proved to leave the state, and send the reply, that its specification in CloudSaves
    gives. */
module CloudStore {
  import opened Digests
  import opened Numbers
  import opened Paths
  import opened CloudSaves
  import opened CloudInvariant

  class Server {
    var snapshots: map<string, Snapshot>
    var manifests: map<string, seq<File>>
    var blobs: map<BlobKey, int>
    var disk: map<BlobKey, Content>

    function State(): Store
      reads this
    {
      Store(snapshots, manifests, blobs, disk)
    }

    ghost predicate Valid()
      reads this
    {
      Inv(State())
    }

    constructor ()
      ensures State() == EMPTY && Valid()
    {
      snapshots, manifests, blobs, disk := map[], map[], map[], map[];
    }

    /** DELETE FROM the two snapshot tables, one id at a time. */
    method DropRows(ids: set<string>)
      modifies this`snapshots, this`manifests
      ensures State() == Dropped(old(State()), ids)
    {
      var left := ids;
      while left != {}
        invariant left <= ids
        invariant snapshots == old(snapshots) - (ids - left)
        invariant manifests == old(manifests) - (ids - left)
      {
        var id :| id in left;
        manifests := manifests - {id};
        snapshots := snapshots - {id};
        assert ids - (left - {id}) == (ids - left) + {id};
        left := left - {id};
      }
      assert ids - left == ids;
    }

    /** collect_orphan_blobs: the file first, then the row. */
    method CollectOrphanBlobs(user: string)
      modifies this`blobs, this`disk
      ensures State() == Collected(old(State()), {user})
    {
      var orphans := set key | key in blobs && key.user == user && !Referenced(State(), key);
      assert orphans == Orphans(State(), {user});
      var left := orphans;
      while left != {}
        invariant left <= orphans
        invariant blobs == old(blobs) - (orphans - left)
        invariant disk == old(disk) - (orphans - left)
      {
        var key :| key in left;
        disk := disk - {key};
        blobs := blobs - {key};
        assert orphans - (left - {key}) == (orphans - left) + {key};
        left := left - {key};
      }
      assert orphans - left == orphans;
    }

    /** The collector, for one owner after another. */
    method CollectFor(users: set<string>)
      modifies this`blobs, this`disk
      ensures State() == Collected(old(State()), users)
    {
      var left := users;
      assert Orphans(State(), {}) == {};
      while left != {}
        invariant left <= users
        invariant State() == Collected(old(State()), users - left)
      {
        var user :| user in left;
        CollectOrphanBlobs(user);
        CollectTwice(old(State()), users - left, user);
        assert users - (left - {user}) == (users - left) + {user};
        left := left - {user};
      }
      assert users - left == users;
    }

    method SweepStalePending(user: string, now: int)
      modifies this
      ensures State() == Swept(old(State()), user, now)
    {
      var stale := set id | id in snapshots && snapshots[id].status.Pending?
                            && snapshots[id].createdAt < now - PENDING_SNAPSHOT_TTL_SECONDS
                               && snapshots[id].user == user;
      assert stale == StaleOf(State(), user, now);
      DropRows(stale);
      if stale != {} {
        CollectOrphanBlobs(user);
        assert Owners(old(State()), stale) == {user} by {
          var id :| id in stale;
          assert id in old(snapshots);
        }
      } else {
        assert Owners(old(State()), stale) == {};
        assert Orphans(State(), {}) == {};
      }
    }

    method PrepareSnapshot(user: string, request: PrepareRequest, id: string, now: int, room: bool)
      returns (reply: Reply)
      requires Valid()
      modifies this
      ensures Valid()
      ensures (State(), reply) == Prepare(old(State()), user, request, id, now, room)
    {
      hide Inv, Swept;
      PrepareKeepsInv(State(), user, request, id, now, room);
      var game, files := request.game, request.files;
      if !ValidShop(game.shop) || game.objectId == "" || !request.shaped || request.baseVersion < 0 {
        return BadRequest;
      }
      var seen: set<(string, string, string)> := {};
      for i := 0 to |files|
        invariant seen == set j | 0 <= j < i :: Identity(files[j])
        invariant forall j | 0 <= j < i ::
                    files[j].sizeBytes >= 0 && files[j].rawPath != "" && files[j].relativePath != ""
        invariant forall j, k | 0 <= j < k < i :: !SameIdentity(files[j], files[k])
        invariant State() == old(State())
      {
        if files[i].sizeBytes < 0 || files[i].rawPath == "" || files[i].relativePath == "" {
          return BadRequest;
        }
        if Identity(files[i]) in seen {
          return BadRequest;
        }
        seen := seen + {Identity(files[i])};
      }
      assert WellFormed(request);

      SweepStalePending(user, now);
      label swept:
      SweptKeepsInv(old(State()), user, now);
      var current := WithStatus(State(), user, game, Committed);
      var currentVersion := 0;
      if current != {} {
        var other :| other in current;
        currentVersion := snapshots[other].version;
      }
      CurrentVersionIs(State(), user, game, currentVersion);
      if request.baseVersion != currentVersion {
        return Conflict;
      }
      var plans := [];
      for i := 0 to |files|
        invariant State() == old@swept(State())
        invariant |plans| == i
        invariant forall j | 0 <= j < i ::
                    plans[j] == if Stored(State(), user, files[j]) then Skip(files[j]) else Upload(files[j])
      {
        var key := BlobKey(user, files[i].hash);
        plans := plans + [if key in blobs && key in disk then Skip(files[i]) else Upload(files[i])];
      }
      assert plans == Plans(State(), user, files);
      if !room {
        return QuotaExceeded;
      }
      if id in snapshots {
        return Failed;
      }
      snapshots := snapshots[id := Snapshot(user, game, currentVersion + 1, Pending, now, now)];
      manifests := manifests[id := files];
      return Prepared(id, plans);
    }

    method LandBlob(key: BlobKey, bytes: Content) returns (reply: Reply)
      requires Valid()
      modifies this`disk
      ensures Valid()
      ensures (State(), reply) == Land(old(State()), key, bytes)
    {
      LandKeepsInv(State(), key, bytes);
      if Sha256(bytes) != key.hash.digest {
        return BadRequest;
      }
      disk := disk[key := bytes];
      return Done;
    }

    method CommitSnapshot(user: string, id: string, now: int, autoDelete: bool) returns (reply: Reply)
      requires Valid()
      modifies this
      ensures Valid()
      ensures (State(), reply) == Commit(old(State()), user, id, now, autoDelete)
    {
      hide Inv;
      CommitKeepsInv(State(), user, id, now, autoDelete);
      if id !in snapshots || id !in manifests || snapshots[id].user != user || !snapshots[id].status.Pending? {
        return NotFound;
      }
      var version, files := snapshots[id].version, manifests[id];
      var i := 0;
      while i < |files|
        invariant 0 <= i <= |files|
        invariant forall j | 0 <= j < i :: Arrived(old(State()), user, files[j])
        invariant State() == old(State()).(blobs := Registered(old(blobs), user, files[..i]))
      {
        var key := BlobKey(user, files[i].hash);
        if key !in disk || |disk[key]| != files[i].sizeBytes {
          ArrivedPrefixIs(old(State()), user, files, i);
          return Incomplete;
        }
        blobs := blobs[key := files[i].sizeBytes];
        assert files[..i + 1][..i] == files[..i];
        i := i + 1;
      }
      ArrivedPrefixIs(old(State()), user, files, i);
      label registered:
      Promote(user, id, now, autoDelete);
      CollectOrphanBlobs(user);
      return CommittedAs(id, version);
    }

    /** The commit transaction. */
    method Promote(user: string, id: string, now: int, autoDelete: bool)
      requires id in snapshots && snapshots[id].user == user && snapshots[id].status.Pending?
      modifies this`snapshots, this`manifests
      ensures State() == Promoted(old(State()), user, id, now, autoDelete)
    {
      var game := snapshots[id].game;
      var superseded := WithStatus(State(), user, game, Committed);
      if autoDelete {
        var kept := WithStatus(State(), user, game, Superseded);
        DropRows(superseded + kept);
      } else {
        Mark(superseded, Superseded, now);
      }
      assert id in snapshots;
      Mark({id}, Committed, now);
    }

    /** UPDATE status, one id at a time. */
    method Mark(ids: set<string>, status: Status, now: int)
      requires ids <= snapshots.Keys
      modifies this`snapshots
      ensures State() == Marked(old(State()), ids, status, now)
    {
      var left := ids;
      while left != {}
        invariant left <= ids
        invariant State() == Marked(old(State()), ids - left, status, now)
      {
        var id :| id in left;
        snapshots := snapshots[id := snapshots[id].(status := status, updatedAt := now)];
        left := left - {id};
      }
      assert ids - left == ids;
    }

    method RestoreSnapshot(user: string, id: string, now: int) returns (reply: Reply)
      requires Valid()
      modifies this`snapshots
      ensures Valid()
      ensures (State(), reply) == Restore(old(State()), user, id, now)
    {
      hide Inv;
      RestoreKeepsInv(State(), user, id, now);
      if id !in snapshots || snapshots[id].user != user {
        return NotFound;
      }
      if !snapshots[id].status.Superseded? {
        return BadRequest;
      }
      var game := snapshots[id].game;
      var nextVersion := Greatest(Versions(State(), user, game)) + 1;
      Mark(WithStatus(State(), user, game, Committed), Superseded, now);
      snapshots := snapshots[id := snapshots[id].(status := Committed, version := nextVersion, updatedAt := now)];
      return CommittedAs(id, nextVersion);
    }

    method DeleteSnapshots(user: string, game: Game) returns (reply: Reply)
      requires Valid()
      modifies this
      ensures Valid()
      ensures (State(), reply) == DeleteGame(old(State()), user, game)
    {
      hide Inv, Referenced, Owners, Orphans;
      StepKeepsInv(State(), DeleteGameOp(user, game));
      if !ValidShop(game.shop) {
        return BadRequest;
      }
      DropRows(OfGame(State(), user, game));
      CollectOrphanBlobs(user);
      return Done;
    }

    method DeleteSnapshot(user: string, id: string) returns (reply: Reply)
      requires Valid()
      modifies this
      ensures Valid()
      ensures (State(), reply) == DeleteRetained(old(State()), user, id)
    {
      hide Inv, Referenced, Owners, Orphans;
      StepKeepsInv(State(), DeleteRetainedOp(user, id));
      if id !in snapshots || snapshots[id].user != user {
        return NotFound;
      }
      if !snapshots[id].status.Superseded? {
        return BadRequest;
      }
      OwnerOf(State(), id);
      DropRows({id});
      CollectOrphanBlobs(user);
      return Done;
    }

    /** The sweep-pending job, for every owner at once. */
    method SweepAllPending(now: int)
      requires Valid()
      modifies this
      ensures Valid()
      ensures State() == SweepPending(old(State()), now)
    {
      hide Inv, Referenced, Owners, Orphans;
      StepKeepsInv(State(), SweepPendingOp(now));
      var stale := Stale(State(), now);
      var owners := Owners(State(), stale);
      DropRows(stale);
      CollectFor(owners);
    }

    /** The gc-blobs job. */
    method CollectAll()
      requires Valid()
      modifies this
      ensures Valid()
      ensures State() == GcBlobs(old(State()))
    {
      hide Inv, Referenced, Owners, Orphans;
      StepKeepsInv(State(), GcBlobsOp);
      CollectFor(set key | key in blobs :: key.user);
    }

    /** The delete-retained-versions job. */
    method DeleteAllRetained()
      requires Valid()
      modifies this
      ensures Valid()
      ensures State() == DeleteRetainedVersions(old(State()))
    {
      hide Inv, Referenced, Owners, Orphans;
      StepKeepsInv(State(), DeleteRetainedVersionsOp);
      var superseded := AllSuperseded(State());
      var owners := Owners(State(), superseded);
      DropRows(superseded);
      CollectFor(owners);
    }

    /** The admin panel's file deletion: each text is looked up among the rows just before its file goes. */
    method DeleteFiles(texts: seq<string>, write: Writing)
      requires Valid()
      modifies this`disk
      ensures Valid()
      ensures State() == DeleteOrphanFiles(old(State()), texts, write)
    {
      hide Inv, Takes;
      OrphanFilesKeepInv(State(), texts, write);
      ghost var before := State();
      NoneTaken(before, write);
      for i := 0 to |texts|
        invariant State() == DeleteOrphanFiles(before, texts[..i], write)
      {
        OneMoreTaken(before, texts, i, write);
        var text := texts[i];
        if Deletable(State(), text, write) {
          disk := map key | key in disk && PathOf(TextOf(key, write)) != PathOf(text) :: disk[key];
        }
      }
      assert texts[..|texts|] == texts;
    }
  }

  lemma NoneTaken(s: Store, write: Writing)
    ensures DeleteOrphanFiles(s, [], write) == s
  {
  }

  lemma OneMoreTaken(s: Store, texts: seq<string>, i: nat, write: Writing)
    requires i < |texts|
    ensures var t, text := DeleteOrphanFiles(s, texts[..i], write), texts[i];
            DeleteOrphanFiles(s, texts[..i + 1], write).disk
            == if Deletable(t, text, write)
               then map key | key in t.disk && PathOf(TextOf(key, write)) != PathOf(text) :: t.disk[key]
               else t.disk
  {
    var t, text := DeleteOrphanFiles(s, texts[..i], write), texts[i];
    assert Deletable(t, text, write) == Deletable(s, text, write);
    assert texts[..i + 1] == texts[..i] + [text];
    TakenByOneMore(s, texts[..i], text, write);
    hide Deletable, PathOf, TextOf;
  }

  lemma TakenByOneMore(s: Store, texts: seq<string>, text: string, write: Writing)
    ensures DeleteOrphanFiles(s, texts + [text], write).disk
            == map key | key in DeleteOrphanFiles(s, texts, write).disk && !Takes(s, text, write, key) :: s.disk[key]
  {
    hide Takes;
    assert forall x :: x in texts + [text] <==> x in texts || x == text;
    assert text in texts + [text];
  }

  function Identity(file: File): (string, string, string) {
    (file.variantId, file.rawPath, file.relativePath)
  }

  lemma SweptKeepsInv(s: Store, user: string, now: int)
    requires Inv(s)
    ensures Inv(Swept(s, user, now))
  {
    hide Inv, Collected, Dropped, Owners;
    RemovalKeepsInv(s, StaleOf(s, user, now), Owners(s, StaleOf(s, user, now)));
  }

  /** With one committed snapshot at most, any of them gives the version. */
  lemma CurrentVersionIs(s: Store, user: string, game: Game, version: int)
    requires Inv(s)
    requires var committed := WithStatus(s, user, game, Committed);
             if committed == {} then version == 0 else exists id | id in committed :: s.snapshots[id].version == version
    ensures CurrentVersion(s, user, game) == version
  {
  }

  lemma OwnerOf(s: Store, id: string)
    requires id in s.snapshots
    ensures Owners(s, {id}) == {s.snapshots[id].user}
  {
  }

  lemma CollectTwice(s: Store, users: set<string>, user: string)
    ensures Collected(Collected(s, users), {user}) == Collected(s, users + {user})
  {
    var c := Collected(s, users);
    forall key
      ensures Referenced(s, key) <==> Referenced(c, key)
    {
      SameReferences(s, c, key);
    }
    assert Orphans(s, users) + Orphans(c, {user}) == Orphans(s, users + {user});
  }

  lemma {:induction false} ArrivedPrefixIs(s: Store, user: string, files: seq<File>, n: nat)
    requires n <= |files|
    requires forall i | 0 <= i < n :: Arrived(s, user, files[i])
    requires n < |files| ==> !Arrived(s, user, files[n])
    ensures ArrivedPrefix(s, user, files) == n
  {
  }
}
