/** What becomes of every snapshot, row and file at every step of the Cloud Save store, said on the tables themselves:
    which snapshots go, which change and how, and which rows and files are there afterwards. */
module CloudHistory {
  import opened Digests
  import opened Numbers
  import opened CloudSaves
  import opened CloudInvariant
  import opened CloudRuns
  import opened CloudBacking

  // ---------------------------------------------------------------------------
  // Answers
  // ---------------------------------------------------------------------------

  /** A pending snapshot of the user, all of whose files are on disk with the sizes they declared. */
  ghost predicate Committable(s: Store, user: string, id: string) {
    && id in s.snapshots && id in s.manifests && s.snapshots[id].user == user && s.snapshots[id].status.Pending?
    && forall file | file in s.manifests[id] ::
         var key := BlobKey(user, file.hash);
         key in s.disk && |s.disk[key]| == file.sizeBytes
  }

  /** A commit goes through exactly for such a snapshot, and is otherwise incomplete exactly if it is one's own pending
      one. */
  lemma CommitAnswersExactly(s: Store, user: string, id: string, now: int, autoDelete: bool)
    requires Inv(s)
    ensures var reply := Commit(s, user, id, now, autoDelete).1;
            && (reply.CommittedAs? <==> Committable(s, user, id))
            && (reply.CommittedAs? ==> reply == CommittedAs(id, s.snapshots[id].version))
            && (reply.Incomplete? <==>
                  id in s.snapshots && s.snapshots[id].user == user && s.snapshots[id].status.Pending?
                  && !Committable(s, user, id))
            && (!reply.CommittedAs? && !reply.Incomplete? ==>
                  reply.NotFound? && Commit(s, user, id, now, autoDelete).0 == s)
  {
    hide Registered, Promoted, Collected;
    if id in s.snapshots && s.snapshots[id].user == user && s.snapshots[id].status.Pending? {
      var files := s.manifests[id];
      var n := ArrivedPrefix(s, user, files);
      if n == |files| {
        forall file | file in files
          ensures Arrived(s, user, file)
        {
          var i :| 0 <= i < |files| && files[i] == file;
        }
      } else {
        assert files[n] in files;
      }
      hide ArrivedPrefix;
    }
  }

  predicate SameIdentities(files: seq<File>) {
    exists i, j :: 0 <= i < j < |files| && files[i].variantId == files[j].variantId
      && files[i].rawPath == files[j].rawPath && files[i].relativePath == files[j].relativePath
  }

  /** What makes a prepare a bad request. */
  predicate Improper(request: PrepareRequest) {
    || request.game.shop !in {"steam", "epic", "launchbox"} || request.game.objectId == ""
    || !request.shaped || request.baseVersion < 0
    || (exists file | file in request.files :: file.sizeBytes < 0 || file.rawPath == "" || file.relativePath == "")
    || SameIdentities(request.files)
  }

  lemma ImproperExactly(request: PrepareRequest)
    ensures WellFormed(request) <==> !Improper(request)
  {
    var files := request.files;
    if WellFormed(request) {
      forall file | file in files
        ensures file.sizeBytes >= 0 && file.rawPath != "" && file.relativePath != ""
      {
        var i :| 0 <= i < |files| && files[i] == file;
      }
      forall i, j | 0 <= i < j < |files|
        ensures !(files[i].variantId == files[j].variantId && files[i].rawPath == files[j].rawPath
                  && files[i].relativePath == files[j].relativePath)
      {
        assert !SameIdentity(files[i], files[j]);
      }
    }
    if !Improper(request) {
      forall i | 0 <= i < |files|
        ensures files[i].sizeBytes >= 0 && files[i].rawPath != "" && files[i].relativePath != ""
      {
        assert files[i] in files;
      }
    }
  }

  /** The version the launcher has to have started from: the committed one's, or zero where there is none. */
  ghost predicate StartsFrom(s: Store, user: string, game: Game, version: int) {
    && (forall id | id in s.snapshots && Belongs(s.snapshots[id], user, game) && s.snapshots[id].status.Committed? ::
          s.snapshots[id].version == version)
    && ((forall id | id in s.snapshots && Belongs(s.snapshots[id], user, game) ::
           !s.snapshots[id].status.Committed?) ==> version == 0)
  }

  lemma StartsFromCurrent(s: Store, user: string, game: Game, version: int)
    requires OneCommitted(s)
    ensures StartsFrom(s, user, game, version) <==> version == CurrentVersion(s, user, game)
  {
    var committed := WithStatus(s, user, game, Committed);
    forall id | id in s.snapshots && Belongs(s.snapshots[id], user, game) && s.snapshots[id].status.Committed?
      ensures id in committed
    {
    }
    if id :| id in committed {
      assert Belongs(s.snapshots[id], user, game);
    }
  }

  /** The sweep that a prepare begins with leaves the committed ones alone. */
  lemma SweepKeepsCurrent(s: Store, user: string, now: int, game: Game)
    requires Inv(s)
    ensures CurrentVersion(Swept(s, user, now), user, game) == CurrentVersion(s, user, game)
  {
    var t := Swept(s, user, now);
    assert WithStatus(t, user, game, Committed) == WithStatus(s, user, game, Committed);
    hide Orphans;
  }

  /** A prepare's answers: a bad request exactly if improper, a conflict exactly if it started from another version,
      and otherwise what the quota says; with one plan for each file. */
  lemma PrepareAnswersExactly(s: Store, user: string, request: PrepareRequest, id: string, now: int, room: bool)
    requires Inv(s) && id !in s.snapshots
    ensures var reply := Prepare(s, user, request, id, now, room).1;
            && (reply.BadRequest? <==> Improper(request))
            && (reply.Conflict? <==> !Improper(request) && !StartsFrom(s, user, request.game, request.baseVersion))
            && (reply.QuotaExceeded? <==>
                  !Improper(request) && StartsFrom(s, user, request.game, request.baseVersion) && !room)
            && (reply.Prepared? <==>
                  !Improper(request) && StartsFrom(s, user, request.game, request.baseVersion) && room)
  {
    ImproperExactly(request);
    StartsFromCurrent(s, user, request.game, request.baseVersion);
    SweepKeepsCurrent(s, user, now, request.game);
    hide Improper, WellFormed, StartsFrom, CurrentVersion, Swept;
    assert id !in Swept(s, user, now).snapshots by { SweptAreThere(s, user, now, id); }
  }

  lemma SweptAreThere(s: Store, user: string, now: int, id: string)
    requires id !in s.snapshots
    ensures id !in Swept(s, user, now).snapshots
  {
  }

  /** What a prepare leaves and answers: the snapshot it asks for, pending and one past its base, its files as the
      manifest, and for each in turn `skip` exactly if its row and its bytes are there. */
  lemma PrepareRecords(s: Store, user: string, request: PrepareRequest, id: string, now: int, room: bool)
    requires Prepare(s, user, request, id, now, room).1.Prepared?
    ensures var (t, reply) := Prepare(s, user, request, id, now, room);
            && t.snapshots[id] == Snapshot(user, request.game, request.baseVersion + 1, Pending, now, now)
            && t.manifests[id] == request.files && reply.id == id && |reply.plans| == |request.files|
            && forall i | 0 <= i < |request.files| ::
                 var key := BlobKey(user, request.files[i].hash);
                 reply.plans[i]
                 == if key in t.blobs && key in t.disk then Skip(request.files[i]) else Upload(request.files[i])
  {
    hide Swept, CurrentVersion, WellFormed;
  }

  /** Every other answer: a file is refused exactly if it does not hash to its key, a restore or deletion is not found
      exactly if the user has no such snapshot, and is a bad request exactly for one that is not superseded, or a shop
      that is none. What is refused changes nothing. */
  lemma OthersAnswerExactly(s: Store, op: Op)
    requires Inv(s) && !op.PrepareOp? && !op.CommitOp?
    ensures var (t, reply) := Step(s, op);
            var owned := (op.RestoreOp? || op.DeleteRetainedOp?)
                         && op.id in s.snapshots && s.snapshots[op.id].user == op.user;
            && (reply.NotFound? <==>
                  ((op.RestoreOp? || op.DeleteRetainedOp?) && !owned) || (op.AdminDeleteOp? && op.id !in s.snapshots))
            && (reply.BadRequest? <==>
                  || (op.LandOp? && Sha256(op.bytes) != op.key.hash.digest)
                  || (op.DeleteGameOp? && op.game.shop !in {"steam", "epic", "launchbox"})
                  || (owned && !s.snapshots[op.id].status.Superseded?))
            && (reply.CommittedAs? || reply.Done? || ((reply.NotFound? || reply.BadRequest?) && t == s))
            && (reply.CommittedAs? ==> op.RestoreOp?) && (reply.Done? ==> !op.RestoreOp?)
  {
    hide Inv, Versions, Removed, Collected, Dropped, OfGame, Swapped, SweepPending, GcBlobs, DeleteRetainedVersions,
         DeleteOrphanFiles;
  }

  // ---------------------------------------------------------------------------
  // Which snapshots go
  // ---------------------------------------------------------------------------

  predicate Abandoned(snapshot: Snapshot, now: int) {
    snapshot.status.Pending? && snapshot.createdAt < now - 86_400
  }

  /** Another snapshot of the same user's game. */
  predicate Beside(s: Store, id: string, other: string) {
    && id in s.snapshots && other in s.snapshots && id != other
    && s.snapshots[other].user == s.snapshots[id].user && s.snapshots[other].game == s.snapshots[id].game
  }

  /** The step asks for this snapshot to go, or sweeps it, or replaces it with auto-delete on. */
  ghost predicate Drops(s: Store, op: Op, id: string)
    requires id in s.snapshots
  {
    match op
    case PrepareOp(user, request, _, now, _) =>
      !Improper(request) && s.snapshots[id].user == user && Abandoned(s.snapshots[id], now)
    case CommitOp(user, pending, _, autoDelete) =>
      autoDelete && Committable(s, user, pending) && Beside(s, pending, id) && !s.snapshots[id].status.Pending?
    case DeleteGameOp(user, game) =>
      game.shop in {"steam", "epic", "launchbox"} && s.snapshots[id].user == user && s.snapshots[id].game == game
    case DeleteRetainedOp(user, kept) =>
      id == kept && s.snapshots[id].user == user && s.snapshots[id].status.Superseded?
    case AdminDeleteOp(dropped) => id == dropped
    case SweepPendingOp(now) => Abandoned(s.snapshots[id], now)
    case DeleteRetainedVersionsOp => s.snapshots[id].status.Superseded?
    case _ => false
  }

  /** No step loses a snapshot otherwise. */
  lemma StepDropsExactly(s: Store, op: Op, id: string)
    requires Inv(s) && id in s.snapshots && NotReused(op, id)
    ensures id !in Step(s, op).0.snapshots <==> Drops(s, op, id)
  {
    hide Inv, Orphans, Registered, CurrentVersion, Committable, Improper, WellFormed, Commit, Versions;
    if op.PrepareOp? {
      ImproperExactly(op.request);
    } else if op.CommitOp? {
      CommitAnswersExactly(s, op.user, op.id, op.now, op.autoDelete);
      CommitMoves(s, op.user, op.id, op.now, op.autoDelete, id);
    }
  }

  /** What a commit does to any snapshot that was there. */
  lemma CommitMoves(s: Store, user: string, id: string, now: int, autoDelete: bool, other: string)
    requires Inv(s) && other in s.snapshots
    ensures var (t, reply) := Commit(s, user, id, now, autoDelete);
            if !reply.CommittedAs? then other in t.snapshots && t.snapshots[other] == s.snapshots[other]
            else if other == id then
              other in t.snapshots && t.snapshots[other] == s.snapshots[other].(status := Committed, updatedAt := now)
            else if !Beside(s, id, other) || s.snapshots[other].status.Pending? then
              other in t.snapshots && t.snapshots[other] == s.snapshots[other]
            else if autoDelete then other !in t.snapshots
            else
              && other in t.snapshots
              && t.snapshots[other]
                 == if s.snapshots[other].status.Committed?
                    then s.snapshots[other].(status := Superseded, updatedAt := now) else s.snapshots[other]
  {
    hide ContentAddressed, Sized, Accounted, Restorable, OneCommitted, Registered, Orphans, ArrivedPrefix;
  }

  // ---------------------------------------------------------------------------
  // Which snapshots change
  // ---------------------------------------------------------------------------

  /** The step puts the snapshot in its game's first place. */
  ghost predicate Promotes(s: Store, op: Op, id: string) {
    || (op.CommitOp? && op.id == id && Committable(s, op.user, id))
    || (op.RestoreOp? && op.id == id && id in s.snapshots && s.snapshots[id].user == op.user
        && s.snapshots[id].status.Superseded?)
  }

  /** The time of a commit or restore. */
  function TimeOf(op: Op): int
    requires op.CommitOp? || op.RestoreOp?
  {
    op.now
  }

  /** One past the greatest version of the game. */
  ghost predicate NextVersion(s: Store, id: string, version: int)
    requires id in s.snapshots
  {
    var all := set other | other in s.snapshots && (other == id || Beside(s, id, other)) :: s.snapshots[other].version;
    version - 1 in all && forall v | v in all :: v < version
  }

  lemma RestoreTakesNext(s: Store, user: string, id: string, now: int)
    requires Shaped(s) && Restore(s, user, id, now).1.CommittedAs?
    ensures NextVersion(s, id, Restore(s, user, id, now).1.version)
  {
    var game := s.snapshots[id].game;
    var all := set other | other in s.snapshots && (other == id || Beside(s, id, other)) :: s.snapshots[other].version;
    assert all == Versions(s, user, game) by {
      forall v
        ensures v in all <==> v in Versions(s, user, game)
      {
        if v in all {
          var other :| other in s.snapshots && (other == id || Beside(s, id, other)) && s.snapshots[other].version == v;
          assert other in OfGame(s, user, game);
        }
        if v in Versions(s, user, game) {
          var other :| other in OfGame(s, user, game) && s.snapshots[other].version == v;
        }
      }
    }
    assert s.snapshots[id].version in all;
  }

  /** What a restore does to any snapshot. */
  lemma RestoreMoves(s: Store, user: string, id: string, now: int, other: string)
    requires Inv(s) && other in s.snapshots
    ensures var (t, reply) := Restore(s, user, id, now);
            && (reply.CommittedAs? <==>
                  id in s.snapshots && s.snapshots[id].user == user && s.snapshots[id].status.Superseded?)
            && (reply.CommittedAs? ==> reply.id == id && NextVersion(s, id, reply.version))
            && t == s.(snapshots := t.snapshots) && t.snapshots.Keys == s.snapshots.Keys
            && t.snapshots[other]
               == if !reply.CommittedAs? then s.snapshots[other]
                  else if other == id then
                    s.snapshots[other].(status := Committed, version := reply.version, updatedAt := now)
                  else if Beside(s, id, other) && s.snapshots[other].status.Committed? then
                    s.snapshots[other].(status := Superseded, updatedAt := now)
                  else s.snapshots[other]
  {
    hide ContentAddressed, Sized, Accounted, Restorable, OneCommitted, Versions, NextVersion;
    if Restore(s, user, id, now).1.CommittedAs? {
      RestoreTakesNext(s, user, id, now);
    }
  }

  /** A snapshot that stays is as it was, unless it is committed or restored, or stands first when another one of its
      game is: then it is kept as superseded. */
  lemma StepChangesExactly(s: Store, op: Op, id: string)
    requires Inv(s) && id in s.snapshots && id in Step(s, op).0.snapshots && NotReused(op, id)
    ensures var was, now := s.snapshots[id], Step(s, op).0.snapshots[id];
            if Promotes(s, op, id) then
              if op.CommitOp? then now == was.(status := Committed, updatedAt := op.now)
              else
                && now == was.(status := Committed, updatedAt := op.now, version := now.version)
                && NextVersion(s, id, now.version)
            else if was.status.Committed? && exists other :: Beside(s, other, id) && Promotes(s, op, other) then
              now == was.(status := Superseded, updatedAt := TimeOf(op))
            else now == was
  {
    hide Inv, Committable, Commit, Restore, NextVersion;
    if op.CommitOp? {
      CommitAnswersExactly(s, op.user, op.id, op.now, op.autoDelete);
      CommitMoves(s, op.user, op.id, op.now, op.autoDelete, id);
      CommittableIsTheirs(s, op.user, op.id);
    } else if op.RestoreOp? {
      RestoreMoves(s, op.user, op.id, op.now, id);
    } else {
      OthersChangeNothing(s, op, id);
    }
  }

  lemma CommittableIsTheirs(s: Store, user: string, id: string)
    ensures Committable(s, user, id) ==> id in s.snapshots && s.snapshots[id].status.Pending?
  {
  }

  lemma OthersChangeNothing(s: Store, op: Op, id: string)
    requires !op.CommitOp? && !op.RestoreOp? && NotReused(op, id)
    requires id in s.snapshots && id in Step(s, op).0.snapshots
    ensures Step(s, op).0.snapshots[id] == s.snapshots[id]
  {
    hide Orphans, WellFormed, CurrentVersion;
  }

  /** Manifests never change. */
  lemma ManifestsStay(s: Store, op: Op, id: string)
    requires Inv(s) && id in s.snapshots && id in Step(s, op).0.snapshots && NotReused(op, id)
    ensures Step(s, op).0.manifests[id] == s.manifests[id]
  {
    hide Inv, Step;
    StepPreserves(s, op, id);
  }

  // ---------------------------------------------------------------------------
  // Rows and files
  // ---------------------------------------------------------------------------

  /** A snapshot that was there and stays lists the key. */
  ghost predicate StaysListed(s: Store, t: Store, key: BlobKey) {
    exists id :: id in s.snapshots && id in t.snapshots && id in s.manifests && s.snapshots[id].user == key.user
                 && exists file | file in s.manifests[id] :: file.hash == key.hash
  }

  /** A commit finds the key's file with the size it declared, and the ones before it too. */
  ghost predicate Registers(s: Store, op: Op, key: BlobKey) {
    && op.CommitOp? && op.id in s.snapshots && op.id in s.manifests
    && s.snapshots[op.id].user == op.user && s.snapshots[op.id].status.Pending?
    && exists n :: 0 <= n < |s.manifests[op.id]| && key == BlobKey(op.user, s.manifests[op.id][n].hash)
         && forall file | file in s.manifests[op.id][..n + 1] ::
              var other := BlobKey(op.user, file.hash); other in s.disk && |s.disk[other]| == file.sizeBytes
  }

  lemma ListedIsReferenced(s: Store, key: BlobKey)
    ensures Referenced(s, key) <==> StaysListed(s, s, key)
  {
    if Referenced(s, key) {
      var id :| id in s.snapshots && s.snapshots[id].user == key.user && id in s.manifests
          && Names(s.manifests[id], key.hash);
      var i :| 0 <= i < |s.manifests[id]| && s.manifests[id][i].hash == key.hash;
      assert s.manifests[id][i] in s.manifests[id];
    }
    if StaysListed(s, s, key) {
      var id :| id in s.snapshots && id in s.manifests && s.snapshots[id].user == key.user
          && exists file | file in s.manifests[id] :: file.hash == key.hash;
      var file :| file in s.manifests[id] && file.hash == key.hash;
      var i :| 0 <= i < |s.manifests[id]| && s.manifests[id][i] == file;
      assert Names(s.manifests[id], key.hash);
    }
  }

  /** The table of rows once some snapshots are gone and the collector has run for their owners. */
  lemma RemovalRows(s: Store, ids: set<string>, users: set<string>, key: BlobKey)
    requires Inv(s) && Owners(s, ids) <= users
    ensures var t := Collected(Dropped(s, ids), users);
            && (key in t.blobs <==> key in s.blobs && StaysListed(s, t, key))
            && (key in t.disk <==> key in s.disk && !(key in s.blobs && key !in t.blobs))
            && (key in t.disk ==> t.disk[key] == s.disk[key])
  {
    var d := Dropped(s, ids);
    var t := Collected(d, users);
    ListedIsReferenced(d, key);
    assert StaysListed(d, d, key) <==> StaysListed(s, t, key) by {
      hide Orphans;
    }
    if key in s.blobs && key.user !in users {
      ReferencedSurvivesDrop(s, ids, key);
    }
    hide StaysListed, Referenced, ContentAddressed, Sized, Restorable, OneCommitted;
  }

  lemma RegistersExactly(s: Store, op: Op, key: BlobKey)
    requires op.CommitOp? && op.id in s.snapshots && op.id in s.manifests
    requires s.snapshots[op.id].user == op.user && s.snapshots[op.id].status.Pending?
    ensures var files := s.manifests[op.id];
            Registers(s, op, key)
            <==> key.user == op.user && Names(files[..ArrivedPrefix(s, op.user, files)], key.hash)
  {
    var files := s.manifests[op.id];
    var n := ArrivedPrefix(s, op.user, files);
    if Registers(s, op, key) {
      var m :| 0 <= m < |files| && key == BlobKey(op.user, files[m].hash) && forall file | file in files[..m + 1] ::
                 var other := BlobKey(op.user, file.hash); other in s.disk && |s.disk[other]| == file.sizeBytes;
      forall i | 0 <= i <= m
        ensures Arrived(s, op.user, files[i])
      {
        assert files[..m + 1][i] == files[i];
        assert files[..m + 1][i] in files[..m + 1];
      }
      assert n > m;
      assert files[..n][m].hash == key.hash;
    }
    if key.user == op.user && Names(files[..n], key.hash) {
      var m :| 0 <= m < n && files[..n][m].hash == key.hash;
      forall file | file in files[..m + 1]
        ensures Arrived(s, op.user, file)
      {
        var i :| 0 <= i <= m && files[..m + 1][i] == file;
        assert Arrived(s, op.user, files[i]);
      }
    }
    hide ArrivedPrefix;
  }

  /** Promotion lists nothing anew, and loses only what it drops. */
  lemma PromotionRows(s: Store, user: string, id: string, now: int, autoDelete: bool, key: BlobKey)
    requires Inv(s) && id in s.snapshots && s.snapshots[id].user == user && s.snapshots[id].status.Pending?
    ensures var t := Collected(Promoted(s, user, id, now, autoDelete), {user});
            && (key in t.blobs <==> key in s.blobs && StaysListed(s, t, key))
            && (key in t.disk <==> key in s.disk && !(key in s.blobs && key !in t.blobs))
            && (key in t.disk ==> t.disk[key] == s.disk[key])
  {
    var p := Promoted(s, user, id, now, autoDelete);
    PromotionShape(s, user, id, now, autoDelete);
    ListedIsReferenced(p, key);
    assert StaysListed(p, p, key) <==> StaysListed(s, Collected(p, {user}), key) by {
      hide Orphans, Promoted;
    }
    if key in s.blobs && key.user != user {
      OthersKeepReferences(s, user, id, now, autoDelete, key);
    }
    hide StaysListed, Referenced, ContentAddressed, Sized, Restorable, OneCommitted, Promoted;
  }

  lemma CommitRows(s: Store, op: Op, key: BlobKey)
    requires Inv(s) && op.CommitOp?
    ensures var t := Step(s, op).0;
            && (key in t.blobs <==> (key in s.blobs || Registers(s, op, key)) && StaysListed(s, t, key))
            && (key in t.disk <==> key in s.disk && !(key in s.blobs && key !in t.blobs))
            && (key in t.disk ==> t.disk[key] == s.disk[key])
  {
    hide ArrivedPrefix, Registered, Promoted, Orphans, Registers, StaysListed, Inv;
    if Unpromising(s, op) {
      ListedIsReferenced(s, key);
      StillReferencedHere(s, key);
      NothingRegistered(s, op, key);
    } else {
      var files := s.manifests[op.id];
      var n := ArrivedPrefix(s, op.user, files);
      var r := s.(blobs := Registered(s.blobs, op.user, files[..n]));
      RegisteredHas(s.blobs, op.user, files[..n], key);
      RegistersExactly(s, op, key);
      RegistrationKeepsInv(s, op.user, op.id, n);
      if n < |files| {
        ListedIsReferenced(r, key);
        StillReferencedHere(r, key);
        SameListed(s, r, r, key);
      } else {
        PromotionRows(r, op.user, op.id, op.now, op.autoDelete, key);
        SameListed(s, r, Collected(Promoted(r, op.user, op.id, op.now, op.autoDelete), {op.user}), key);
        if Registers(s, op, key) {
          CommitMoves(s, op.user, op.id, op.now, op.autoDelete, op.id);
          RegisteredStays(s, Step(s, op).0, op, key);
        }
      }
    }
  }

  predicate Unpromising(s: Store, op: Op)
    requires op.CommitOp?
  {
    op.id !in s.snapshots || op.id !in s.manifests || s.snapshots[op.id].user != op.user
    || !s.snapshots[op.id].status.Pending?
  }

  lemma NothingRegistered(s: Store, op: Op, key: BlobKey)
    requires op.CommitOp? && Unpromising(s, op)
    ensures !Registers(s, op, key)
  {
  }

  lemma StillReferencedHere(s: Store, key: BlobKey)
    requires Inv(s)
    ensures key in s.blobs ==> Referenced(s, key)
  {
  }

  lemma SameListed(s: Store, r: Store, t: Store, key: BlobKey)
    requires s.snapshots == r.snapshots && s.manifests == r.manifests
    ensures StaysListed(s, t, key) <==> StaysListed(r, t, key)
    ensures t == r ==> (StaysListed(s, t, key) <==> StaysListed(r, r, key))
  {
  }

  lemma RegisteredStays(s: Store, t: Store, op: Op, key: BlobKey)
    requires Registers(s, op, key) && op.id in t.snapshots
    ensures StaysListed(s, t, key)
  {
    var files := s.manifests[op.id];
    var n :| 0 <= n < |files| && key == BlobKey(op.user, files[n].hash);
    assert files[n] in files;
  }

  /** After any step, the rows are those that were there, or that a commit found arrived, and that a snapshot which
      stays still lists. */
  lemma StepKeepsRowsExactly(s: Store, op: Op, key: BlobKey)
    requires Inv(s) && (op.PrepareOp? ==> op.id !in s.snapshots)
    ensures var t := Step(s, op).0;
            key in t.blobs <==> (key in s.blobs || Registers(s, op, key)) && StaysListed(s, t, key)
  {
    StepRows(s, op, key);
    hide Step, Inv, Registers, StaysListed;
  }

  /** And the files are those that were there or were sent, without those whose rows went; deletions by hand apart. */
  lemma StepKeepsFilesExactly(s: Store, op: Op, key: BlobKey)
    requires Inv(s) && (op.PrepareOp? ==> op.id !in s.snapshots) && !op.DeleteOrphanFilesOp?
    ensures var t := Step(s, op).0;
            && (key in t.disk <==> Uploads(op, key) || (key in s.disk && !(key in s.blobs && key !in t.blobs)))
            && (key in t.disk && !Uploads(op, key) ==> t.disk[key] == s.disk[key])
            && (Uploads(op, key) ==> key in t.disk && t.disk[key] == op.bytes)
  {
    StepRows(s, op, key);
    hide Step, Inv, Registers, StaysListed;
  }

  ghost predicate RowsFollow(s: Store, op: Op, t: Store, key: BlobKey) {
    && (key in t.blobs <==> (key in s.blobs || Registers(s, op, key)) && StaysListed(s, t, key))
    && (!op.DeleteOrphanFilesOp? ==>
          && (key in t.disk <==> Uploads(op, key) || (key in s.disk && !(key in s.blobs && key !in t.blobs)))
          && (key in t.disk && !Uploads(op, key) ==> t.disk[key] == s.disk[key])
          && (Uploads(op, key) ==> key in t.disk && t.disk[key] == op.bytes))
  }

  lemma StepRows(s: Store, op: Op, key: BlobKey)
    requires Inv(s) && (op.PrepareOp? ==> op.id !in s.snapshots)
    ensures RowsFollow(s, op, Step(s, op).0, key)
  {
    hide Inv, Step, RowsFollow;
    match op
    case PrepareOp(_, _, _, _, _) => PrepareRows(s, op, key);
    case CommitOp(_, _, _, _) => CommitFollows(s, op, key);
    case LandOp(_, _) => TablesStay(s, op, key);
    case RestoreOp(_, _, _) => TablesStay(s, op, key);
    case DeleteOrphanFilesOp(_, _) => TablesStay(s, op, key);
    case _ => DeletionRows(s, op, key);
  }

  lemma CommitFollows(s: Store, op: Op, key: BlobKey)
    requires Inv(s) && op.CommitOp?
    ensures RowsFollow(s, op, Step(s, op).0, key)
  {
    CommitRows(s, op, key);
    hide Step, Inv, Registers, StaysListed;
  }

  lemma TablesStay(s: Store, op: Op, key: BlobKey)
    requires Inv(s) && (op.LandOp? || op.RestoreOp? || op.DeleteOrphanFilesOp?)
    ensures RowsFollow(s, op, Step(s, op).0, key)
  {
    TablesSame(s, op, key);
    ListedIsReferenced(s, key);
    StillReferencedHere(s, key);
    hide Inv, StaysListed, Referenced, Step, Registers;
    SameTables(s, Step(s, op).0, key);
    NeverRegisters(s, op, key);
  }

  lemma NeverRegisters(s: Store, op: Op, key: BlobKey)
    requires !op.CommitOp?
    ensures !Registers(s, op, key)
  {
  }

  lemma TablesSame(s: Store, op: Op, key: BlobKey)
    requires op.LandOp? || op.RestoreOp? || op.DeleteOrphanFilesOp?
    ensures var t := Step(s, op).0;
            && t.snapshots.Keys == s.snapshots.Keys && t.blobs == s.blobs
            && (!op.DeleteOrphanFilesOp? ==>
                  if Uploads(op, key) then key in t.disk && t.disk[key] == op.bytes
                  else (key in t.disk <==> key in s.disk) && (key in s.disk ==> t.disk[key] == s.disk[key]))
  {
    hide Takes, Versions;
  }

  /** Where only snapshots went and the collector ran. */
  lemma RemovalFollows(s: Store, op: Op, ids: set<string>, users: set<string>, key: BlobKey)
    requires Inv(s) && Owners(s, ids) <= users && !op.CommitOp? && !op.LandOp?
    ensures RowsFollow(s, op, Collected(Dropped(s, ids), users), key)
  {
    RemovalRows(s, ids, users, key);
    NeverRegisters(s, op, key);
    hide Inv, StaysListed, Collected, Dropped, Owners, Registers;
  }

  lemma UnchangedFollows(s: Store, op: Op, key: BlobKey)
    requires Inv(s) && !op.CommitOp? && !op.LandOp?
    ensures RowsFollow(s, op, s, key)
  {
    ListedIsReferenced(s, key);
    StillReferencedHere(s, key);
    NeverRegisters(s, op, key);
    hide Inv, StaysListed, Referenced, Registers;
  }

  lemma PrepareRows(s: Store, op: Op, key: BlobKey)
    requires Inv(s) && op.PrepareOp? && op.id !in s.snapshots
    ensures RowsFollow(s, op, Step(s, op).0, key)
  {
    var ids, t := StaleOf(s, op.user, op.now), Step(s, op).0;
    hide Inv, WellFormed, CurrentVersion, Plans, StaleOf, RowsFollow;
    if WellFormed(op.request) {
      PrepareIsSweep(s, op);
      RemovalFollows(s, op, ids, Owners(s, ids), key);
      hide Step;
      SameFollows(s, op, Swept(s, op.user, op.now), t, key);
    } else {
      UnchangedFollows(s, op, key);
    }
  }

  lemma PrepareIsSweep(s: Store, op: Op)
    requires op.PrepareOp? && WellFormed(op.request)
    ensures var t, swept := Step(s, op).0, Swept(s, op.user, op.now);
            && t.blobs == swept.blobs && t.disk == swept.disk
            && (t.snapshots.Keys == swept.snapshots.Keys || t.snapshots.Keys == swept.snapshots.Keys + {op.id})
  {
    hide Swept, CurrentVersion, Plans, WellFormed;
  }

  lemma SameFollows(s: Store, op: Op, swept: Store, t: Store, key: BlobKey)
    requires op.PrepareOp? && op.id !in s.snapshots && RowsFollow(s, op, swept, key)
    requires t.blobs == swept.blobs && t.disk == swept.disk
    requires t.snapshots.Keys == swept.snapshots.Keys || t.snapshots.Keys == swept.snapshots.Keys + {op.id}
    ensures RowsFollow(s, op, t, key)
  {
    PreparedLists(s, swept, t, op.id, key);
    hide StaysListed, Registers;
  }

  lemma DeletionRows(s: Store, op: Op, key: BlobKey)
    requires Inv(s)
    requires op.DeleteGameOp? || op.DeleteRetainedOp? || op.AdminDeleteOp? || op.SweepPendingOp? || op.GcBlobsOp?
             || op.DeleteRetainedVersionsOp?
    ensures RowsFollow(s, op, Step(s, op).0, key)
  {
    hide Inv, RowsFollow, Collected, Dropped, OfGame, Stale, AllSuperseded;
    UnchangedFollows(s, op, key);
    match op
    case DeleteGameOp(user, game) =>
      OwnersOfGame(s, user, game);
      RemovalFollows(s, op, OfGame(s, user, game), {user}, key);
    case DeleteRetainedOp(user, id) => RemovalFollows(s, op, {id}, Owners(s, {id}), key);
    case AdminDeleteOp(id) => RemovalFollows(s, op, {id}, Owners(s, {id}), key);
    case SweepPendingOp(now) => RemovalFollows(s, op, Stale(s, now), Owners(s, Stale(s, now)), key);
    case GcBlobsOp =>
      RemovalFollows(s, op, {}, set other | other in s.blobs :: other.user, key);
      NothingDropped(s);
    case DeleteRetainedVersionsOp => RemovalFollows(s, op, AllSuperseded(s), Owners(s, AllSuperseded(s)), key);
  }

  lemma NothingDropped(s: Store)
    ensures Dropped(s, {}) == s && Owners(s, {}) == {}
  {
  }

  lemma SameTables(s: Store, t: Store, key: BlobKey)
    requires s.snapshots.Keys == t.snapshots.Keys
    ensures StaysListed(s, s, key) <==> StaysListed(s, t, key)
  {
  }

  /** The new snapshot was not there, and so lists nothing that stays. */
  lemma PreparedLists(s: Store, swept: Store, t: Store, id: string, key: BlobKey)
    requires id !in s.snapshots
    requires t.snapshots.Keys == swept.snapshots.Keys || t.snapshots.Keys == swept.snapshots.Keys + {id}
    ensures StaysListed(s, swept, key) <==> StaysListed(s, t, key)
  {
  }

  // ---------------------------------------------------------------------------
  // What a commit leaves of the saves before it
  // ---------------------------------------------------------------------------

  /** A commit that goes through makes its snapshot the game's current one. With auto-delete off every other snapshot
      of the game is still there, the one it displaces as superseded; with auto-delete on exactly the committed and
      superseded ones are gone. Nobody else's snapshots change, and no manifest does. */
  lemma CommitLeavesExactly(s: Store, user: string, id: string, now: int, autoDelete: bool)
    requires Inv(s) && Commit(s, user, id, now, autoDelete).1.CommittedAs?
    ensures var t := Commit(s, user, id, now, autoDelete).0;
            && id in s.snapshots && id in t.snapshots && t.snapshots.Keys <= s.snapshots.Keys
            && t.snapshots[id] == s.snapshots[id].(status := Committed, updatedAt := now)
            && (forall other | other in s.snapshots && other != id && !Beside(s, id, other) ::
                  other in t.snapshots && t.snapshots[other] == s.snapshots[other])
            && (forall other | Beside(s, id, other) ::
                  other in t.snapshots <==> !autoDelete || s.snapshots[other].status.Pending?)
            && (forall other | Beside(s, id, other) && other in t.snapshots ::
                  t.snapshots[other]
                  == if s.snapshots[other].status.Committed?
                     then s.snapshots[other].(status := Superseded, updatedAt := now) else s.snapshots[other])
            && (forall other | other in t.snapshots :: t.manifests[other] == s.manifests[other])
  {
    var t := Commit(s, user, id, now, autoDelete).0;
    CommitAnswersExactly(s, user, id, now, autoDelete);
    CommitKeepsInv(s, user, id, now, autoDelete);
    CommitLosesAndAddsNone(s, user, id, now, autoDelete);
    hide Inv, Commit, Committable;
    CommittableIsOnesOwn(s, user, id);
    forall other | other in s.snapshots
      ensures CommitTreats(s, t, id, now, autoDelete, other)
    {
      CommitMoves(s, user, id, now, autoDelete, other);
    }
  }

  lemma CommitLosesAndAddsNone(s: Store, user: string, id: string, now: int, autoDelete: bool)
    requires Inv(s)
    ensures var t := Commit(s, user, id, now, autoDelete).0;
            && t.snapshots.Keys <= s.snapshots.Keys
            && forall other | other in t.snapshots ::
                 other in t.manifests && other in s.manifests && t.manifests[other] == s.manifests[other]
  {
    var op := CommitOp(user, id, now, autoDelete);
    var t := Commit(s, user, id, now, autoDelete).0;
    hide Inv, Commit, Preserves;
    forall other | other in t.snapshots
      ensures other in s.snapshots && other in s.manifests
      ensures other in t.manifests && t.manifests[other] == s.manifests[other]
    {
      NewcomerIsPrepared(s, op, other);
      CommitPreserves(s, user, id, now, autoDelete, other);
      SameKept(s, t, other);
    }
  }

  lemma SameKept(s: Store, t: Store, id: string)
    requires Preserves(s, t, id, true)
    ensures id in t.manifests && id in s.manifests && t.manifests[id] == s.manifests[id]
  {
  }

  predicate CommitTreats(s: Store, t: Store, id: string, now: int, autoDelete: bool, other: string)
    requires other in s.snapshots
  {
    if other == id then
      other in t.snapshots && t.snapshots[other] == s.snapshots[other].(status := Committed, updatedAt := now)
    else if !Beside(s, id, other) || s.snapshots[other].status.Pending? then
      other in t.snapshots && t.snapshots[other] == s.snapshots[other]
    else if autoDelete then other !in t.snapshots
    else
      && other in t.snapshots
      && t.snapshots[other]
         == if s.snapshots[other].status.Committed? then s.snapshots[other].(status := Superseded, updatedAt := now)
            else s.snapshots[other]
  }

  lemma {:induction false} AfterJoined(s: Store, a: seq<Op>, b: seq<Op>)
    ensures After(s, a + b) == After(After(s, a), b)
    decreases |a|
  {
    hide Step;
    if a == [] {
      assert a + b == b;
    } else {
      assert (a + b)[1..] == a[1..] + b;
      AfterJoined(Step(s, a[0]).0, a[1..], b);
    }
  }

  lemma AfterOne(s: Store, op: Op, more: seq<Op>)
    ensures After(s, [op] + more) == After(Step(s, op).0, more)
  {
    hide Step;
    assert ([op] + more)[1..] == more;
  }

  /** So a save that a commit replaced with auto-delete off can be put back: along every run that leaves the snapshot in
      place, restoring it goes through unless it stands first already, and each of its files can be downloaded if no
      deletion by hand ever lists a second spelling of its key. */
  lemma ReplacedSaveCanBeRestored(ops: seq<Op>, commit: Op, later: seq<Op>, former: string, at: int)
    requires commit.CommitOp? && !commit.autoDelete && Step(After(EMPTY, ops), commit).1.CommittedAs?
    requires Beside(After(EMPTY, ops), commit.id, former) && After(EMPTY, ops).snapshots[former].status.Committed?
    requires Survives(Step(After(EMPTY, ops), commit).0, later, former)
    ensures var run := ops + ([commit] + later);
            var end := After(EMPTY, run);
            && former in end.snapshots && former in end.manifests && former in After(EMPTY, ops).manifests
            && end.manifests[former] == After(EMPTY, ops).manifests[former]
            && (Restore(end, commit.user, former, at).1.CommittedAs? <==> !end.snapshots[former].status.Committed?)
            && forall i | 0 <= i < |end.manifests[former]| && NeverListed(run, KeptKey(end, former, i)) ::
                 CanRestore(end, former, i)
  {
    var run, s, t := ops + ([commit] + later), After(EMPTY, ops), Step(After(EMPTY, ops), commit).0;
    var end := After(EMPTY, run);
    ReplacedStays(ops, commit, later, former);
    hide Inv, Step, After, Restore, NeverListed, CanRestore, Survives, KeptKey, Preserves;
    StaysRestorable(t, end, former, commit.user, at);
    SameManifest(t, end, former);
    forall i | 0 <= i < |end.manifests[former]| && NeverListed(run, KeptKey(end, former, i))
      ensures CanRestore(end, former, i)
    {
      StaysKept(t, end, former, i);
      KeptFileRestores(run, end, former, i);
    }
  }

  lemma ReplacedStays(ops: seq<Op>, commit: Op, later: seq<Op>, former: string)
    requires commit.CommitOp? && !commit.autoDelete && Step(After(EMPTY, ops), commit).1.CommittedAs?
    requires Beside(After(EMPTY, ops), commit.id, former) && After(EMPTY, ops).snapshots[former].status.Committed?
    requires Survives(Step(After(EMPTY, ops), commit).0, later, former)
    ensures var s, end := After(EMPTY, ops), After(EMPTY, ops + ([commit] + later));
            var t := Step(s, commit).0;
            && Inv(end) && Preserves(t, end, former, false)
            && former in s.manifests && t.manifests[former] == s.manifests[former]
            && t.snapshots[former].status.Superseded? && t.snapshots[former].user == commit.user
  {
    var s := After(EMPTY, ops);
    ReachableInv(EMPTY, ops);
    AfterThree(EMPTY, ops, commit, later);
    hide Inv, Step, After, Survives, Preserves, Beside;
    ReplacedIsKept(s, commit, former);
    RunPreserves(Step(s, commit).0, later, former, false);
  }

  lemma AfterThree(s: Store, ops: seq<Op>, op: Op, later: seq<Op>)
    ensures After(s, ops + ([op] + later)) == After(Step(After(s, ops), op).0, later)
  {
    AfterJoined(s, ops, [op] + later);
    AfterOne(After(s, ops), op, later);
    hide After, Step;
  }

  /** No deletion by hand lists a second spelling of the key. */
  ghost predicate NeverListed(ops: seq<Op>, key: BlobKey) {
    PlainlyWritten(ops, key) && forall op | op in ops :: !Lists(op, key)
  }

  lemma KeptFileRestores(ops: seq<Op>, end: Store, id: string, i: nat)
    requires end == After(EMPTY, ops) && Kept(end, id, i) && NeverListed(ops, KeptKey(end, id, i))
    ensures CanRestore(end, id, i)
  {
    hide After, CanRestore, Lists, PlainlyWritten, KeptKey;
    EverySaveRestores(ops, id, i);
  }

  lemma ReplacedIsKept(s: Store, commit: Op, former: string)
    requires Inv(s) && commit.CommitOp? && !commit.autoDelete && Step(s, commit).1.CommittedAs?
    requires Beside(s, commit.id, former) && s.snapshots[former].status.Committed?
    ensures var t := Step(s, commit).0;
            && Inv(t) && former in t.snapshots && former in t.manifests && former in s.manifests
            && t.manifests[former] == s.manifests[former]
            && t.snapshots[former].status.Superseded? && t.snapshots[former].user == commit.user
  {
    StepKeepsInv(s, commit);
    hide ContentAddressed, Sized, Accounted, Restorable, OneCommitted, Commit, Committable;
    CommitLeavesExactly(s, commit.user, commit.id, commit.now, false);
    CommitAnswersExactly(s, commit.user, commit.id, commit.now, false);
    CommittableIsOnesOwn(s, commit.user, commit.id);
  }

  lemma SameManifest(t: Store, end: Store, id: string)
    requires Preserves(t, end, id, false)
    ensures id in t.manifests && id in end.snapshots && id in end.manifests && end.manifests[id] == t.manifests[id]
  {
  }

  lemma StaysRestorable(t: Store, end: Store, id: string, user: string, at: int)
    requires Inv(end) && Preserves(t, end, id, false)
    requires !t.snapshots[id].status.Pending? && t.snapshots[id].user == user
    ensures Restore(end, user, id, at).1.CommittedAs? <==> !end.snapshots[id].status.Committed?
  {
    RestoreMoves(end, user, id, at, id);
    hide Inv, Restore, NextVersion;
  }

  lemma CommittableIsOnesOwn(s: Store, user: string, id: string)
    requires Committable(s, user, id)
    ensures id in s.snapshots && s.snapshots[id].user == user && s.snapshots[id].status.Pending?
  {
  }

  lemma StaysKept(t: Store, end: Store, id: string, i: nat)
    requires Preserves(t, end, id, false) && !t.snapshots[id].status.Pending? && i < |end.manifests[id]|
    ensures Kept(end, id, i)
  {
  }
}
