/** What a launcher can rely on over whole runs of the Cloud Save store: the answers it was given hold, a
    commit it has earned succeeds, versions move forward when saves are serialised, and a restore can be
    undone. */
module CloudRuns {
  import opened Digests
  import opened Numbers
  import opened CloudSaves
  import opened CloudInvariant

  function KeyOf(user: string, file: File): BlobKey {
    BlobKey(user, file.hash)
  }

  predicate Listed(s: Store, id: string, key: BlobKey) {
    id in s.snapshots && id in s.manifests && s.snapshots[id].user == key.user && Names(s.manifests[id], key.hash)
  }

  /** Identifiers are fresh: no later prepare is handed one that is in use or was. */
  predicate NotReused(op: Op, id: string) {
    op.PrepareOp? ==> op.id != id
  }

  // ---------------------------------------------------------------------------
  // One step, seen from one snapshot
  // ---------------------------------------------------------------------------

  /** `t` still has the snapshot as `s` had it, its rows, and - unless files were deleted by hand - its bytes. */
  ghost predicate Preserves(s: Store, t: Store, id: string, filesToo: bool) {
    && id in s.snapshots && id in t.snapshots && id in s.manifests && id in t.manifests
    && t.manifests[id] == s.manifests[id]
    && Belongs(t.snapshots[id], s.snapshots[id].user, s.snapshots[id].game)
    && (t.snapshots[id].status.Pending? ==> t.snapshots[id] == s.snapshots[id])
    && (forall key | Listed(s, id, key) && key in s.blobs :: key in t.blobs)
    && (filesToo ==> forall key | Listed(s, id, key) && key in s.disk :: key in t.disk && t.disk[key] == s.disk[key])
  }

  lemma PreservesTransitive(s: Store, t: Store, u: Store, id: string, filesToo: bool)
    requires Preserves(s, t, id, filesToo) && Preserves(t, u, id, filesToo)
    ensures Preserves(s, u, id, filesToo)
  {
  }

  lemma RemovalPreserves(s: Store, ids: set<string>, users: set<string>, id: string)
    requires Inv(s) && id in s.snapshots && id !in ids
    ensures Preserves(s, Collected(Dropped(s, ids), users), id, true)
  {
  }

  lemma PromotionPreserves(s: Store, user: string, id: string, now: int, autoDelete: bool, other: string)
    requires Inv(s) && id in s.snapshots && s.snapshots[id].user == user && s.snapshots[id].status.Pending?
    requires other in Promoted(s, user, id, now, autoDelete).snapshots
    ensures Preserves(s, Collected(Promoted(s, user, id, now, autoDelete), {user}), other, true)
  {
    var t := Promoted(s, user, id, now, autoDelete);
    PromotionShape(s, user, id, now, autoDelete);
    forall key | Listed(s, other, key)
      ensures Referenced(t, key)
    {
    }
    assert t.snapshots[other].status.Pending? ==> t.snapshots[other] == s.snapshots[other];
  }

  lemma {:induction false} RegistrationPreserves(s: Store, user: string, files: seq<File>, id: string)
    requires Inv(s) && id in s.snapshots
    ensures Preserves(s, s.(blobs := Registered(s.blobs, user, files)), id, true)
  {
    if files != [] {
      RegistrationPreserves(s, user, files[..|files| - 1], id);
    }
  }

  lemma CommitPreserves(s: Store, user: string, id: string, now: int, autoDelete: bool, other: string)
    requires Inv(s) && other in s.snapshots && other in Commit(s, user, id, now, autoDelete).0.snapshots
    ensures Preserves(s, Commit(s, user, id, now, autoDelete).0, other, true)
  {
    hide Inv, Promoted, Preserves, Orphans, ArrivedPrefix, Registered;
    if id in s.snapshots && id in s.manifests && s.snapshots[id].user == user && s.snapshots[id].status.Pending? {
      var files := s.manifests[id];
      var arrived := ArrivedPrefix(s, user, files);
      var registered := s.(blobs := Registered(s.blobs, user, files[..arrived]));
      RegistrationPreserves(s, user, files[..arrived], other);
      if arrived == |files| {
        RegistrationKeepsInv(s, user, id, arrived);
        PromotionPreserves(registered, user, id, now, autoDelete, other);
        PreservesTransitive(s, registered, Commit(s, user, id, now, autoDelete).0, other, true);
      }
    } else {
      Unchanged(s, other);
    }
  }

  lemma Unchanged(s: Store, id: string)
    requires Inv(s) && id in s.snapshots
    ensures Preserves(s, s, id, true)
  {
  }

  lemma PreparePreserves(s: Store, user: string, request: PrepareRequest, id: string, now: int, room: bool,
                         other: string)
    requires Inv(s) && other in s.snapshots && other != id
    requires other in Prepare(s, user, request, id, now, room).0.snapshots
    ensures Preserves(s, Prepare(s, user, request, id, now, room).0, other, true)
  {
    hide Orphans;
    if WellFormed(request) {
      assert other in Swept(s, user, now).snapshots;
      assert other !in StaleOf(s, user, now);
      RemovalPreserves(s, StaleOf(s, user, now), Owners(s, StaleOf(s, user, now)), other);
    }
  }

  lemma LandPreserves(s: Store, key: BlobKey, bytes: Content, id: string)
    requires Inv(s) && id in s.snapshots
    ensures Preserves(s, Land(s, key, bytes).0, id, true)
  {
  }

  lemma RestorePreserves(s: Store, user: string, id: string, now: int, other: string)
    requires Inv(s) && other in s.snapshots
    ensures Preserves(s, Restore(s, user, id, now).0, other, true)
  {
  }

  lemma OrphanFilesPreserve(s: Store, texts: seq<string>, write: Writing, id: string)
    requires Inv(s) && id in s.snapshots
    ensures Preserves(s, DeleteOrphanFiles(s, texts, write), id, false)
  {
  }

  /** Whatever step runs, a snapshot it leaves in place keeps its manifest, its rows and its files - except that
      deleting files by hand may take files that have no row yet. */
  lemma StepPreserves(s: Store, op: Op, id: string)
    requires Inv(s) && NotReused(op, id)
    requires id in s.snapshots && id in Step(s, op).0.snapshots
    ensures Preserves(s, Step(s, op).0, id, !op.DeleteOrphanFilesOp?)
  {
    hide Inv, Preserves, Orphans, Prepare, Commit, Restore, Land, DeleteOrphanFiles;
    match op
    case PrepareOp(user, request, taken, now, room) => PreparePreserves(s, user, request, taken, now, room, id);
    case LandOp(key, bytes) => LandPreserves(s, key, bytes, id);
    case CommitOp(user, pending, now, autoDelete) => CommitPreserves(s, user, pending, now, autoDelete, id);
    case RestoreOp(user, kept, now) => RestorePreserves(s, user, kept, now, id);
    case DeleteGameOp(user, game) =>
      if ValidShop(game.shop) {
        RemovalPreserves(s, OfGame(s, user, game), {user}, id);
      } else {
        Unchanged(s, id);
      }
    case DeleteRetainedOp(user, kept) =>
      if DeleteRetained(s, user, kept).1.Done? {
        RemovalPreserves(s, {kept}, Owners(s, {kept}), id);
      } else {
        Unchanged(s, id);
      }
    case AdminDeleteOp(dropped) =>
      if dropped in s.snapshots {
        RemovalPreserves(s, {dropped}, Owners(s, {dropped}), id);
      } else {
        Unchanged(s, id);
      }
    case SweepPendingOp(now) => RemovalPreserves(s, Stale(s, now), Owners(s, Stale(s, now)), id);
    case GcBlobsOp =>
      RemovalPreserves(s, {}, set key | key in s.blobs :: key.user, id);
      assert Dropped(s, {}) == s;
    case DeleteRetainedVersionsOp => RemovalPreserves(s, AllSuperseded(s), Owners(s, AllSuperseded(s)), id);
    case DeleteOrphanFilesOp(texts, write) => OrphanFilesPreserve(s, texts, write, id);
  }

  /** The snapshot is there before and after every step, and its identifier stays its own. */
  ghost predicate Survives(s: Store, ops: seq<Op>, id: string)
    decreases |ops|
  {
    && id in s.snapshots
    && (ops != [] ==> NotReused(ops[0], id) && Survives(Step(s, ops[0]).0, ops[1..], id))
  }

  predicate FilesLeftAlone(ops: seq<Op>) {
    forall i | 0 <= i < |ops| :: !ops[i].DeleteOrphanFilesOp?
  }

  lemma {:induction false} RunPreserves(s: Store, ops: seq<Op>, id: string, filesToo: bool)
    requires Inv(s) && Survives(s, ops, id)
    requires filesToo ==> FilesLeftAlone(ops)
    ensures Inv(After(s, ops)) && Preserves(s, After(s, ops), id, filesToo)
    decreases |ops|
  {
    hide Inv, Step;
    if ops == [] {
      Unchanged(s, id);
    } else {
      var t := Step(s, ops[0]).0;
      assert id in t.snapshots;
      StepKeepsInv(s, ops[0]);
      StepPreserves(s, ops[0], id);
      RunPreserves(t, ops[1..], id, filesToo);
      PreservesTransitive(s, t, After(s, ops), id, filesToo);
    }
  }

  // ---------------------------------------------------------------------------
  // Progress
  // ---------------------------------------------------------------------------

  /** The launcher told the truth about a file: its hash is the hash of as many bytes as it declared. */
  predicate Truthful(file: File) {
    file.hash.digest.Sha256? && |file.hash.digest.of| == file.sizeBytes
  }

  predicate Uploads(op: Op, key: BlobKey) {
    op.LandOp? && op.key == key && Sha256(op.bytes) == key.hash.digest
  }

  predicate Sent(ops: seq<Op>, key: BlobKey) {
    exists i | 0 <= i < |ops| :: Uploads(ops[i], key)
  }

  lemma {:induction false} UploadStays(s: Store, ops: seq<Op>, id: string, key: BlobKey)
    requires Inv(s) && Survives(s, ops, id) && FilesLeftAlone(ops)
    requires Listed(s, id, key)
    requires key in s.disk || Sent(ops, key)
    ensures key in After(s, ops).disk
    decreases |ops|
  {
    if key in s.disk {
      RunPreserves(s, ops, id, true);
    } else {
      hide Inv;
      var i :| 0 <= i < |ops| && Uploads(ops[i], key);
      var t := Step(s, ops[0]).0;
      StepKeepsInv(s, ops[0]);
      StepPreserves(s, ops[0], id);
      if i > 0 {
        assert ops[1..][i - 1] == ops[i];
      }
      hide Step;
      UploadStays(t, ops[1..], id, key);
    }
  }

  /** If the launcher declared true sizes and sent every blob it was asked for, the commit cannot fail as
      incomplete, unless files were deleted by hand or the pending snapshot went away in between. */
  lemma CommitCompletes(s: Store, user: string, request: PrepareRequest, id: string, now: int, room: bool, ops: seq<Op>,
                        later: int, autoDelete: bool)
    requires Inv(s)
    requires Prepare(s, user, request, id, now, room).1.Prepared?
    requires Survives(Prepare(s, user, request, id, now, room).0, ops, id) && FilesLeftAlone(ops)
    requires forall i | 0 <= i < |request.files| :: Truthful(request.files[i])
    requires forall plan | plan in Prepare(s, user, request, id, now, room).1.plans && plan.Upload? ::
               Sent(ops, KeyOf(user, plan.file))
    ensures var end := After(Prepare(s, user, request, id, now, room).0, ops);
            var reply := Commit(end, user, id, later, autoDelete).1;
            && !reply.Incomplete? && id in end.snapshots
            && (end.snapshots[id].status.Pending? ==> reply == CommittedAs(id, request.baseVersion + 1))
  {
    hide Step, After, Survives, Prepare, Commit, Inv, Truthful, Sent;
    var (t, reply) := Prepare(s, user, request, id, now, room);
    var end, files := After(t, ops), request.files;
    PrepareKeepsInv(s, user, request, id, now, room);
    PreparedShape(s, user, request, id, now, room);
    RunPreserves(t, ops, id, true);
    forall i | 0 <= i < |files|
      ensures Arrived(end, user, files[i])
    {
      assert files[i] == reply.plans[i].file && Listed(t, id, KeyOf(user, files[i]));
      UploadStays(t, ops, id, KeyOf(user, files[i]));
      TruthfulArrives(end, user, files[i]);
    }
    AllArrivedCommits(end, user, id, later, autoDelete);
  }

  lemma PreparedShape(s: Store, user: string, request: PrepareRequest, id: string, now: int, room: bool)
    requires Prepare(s, user, request, id, now, room).1.Prepared?
    ensures var (t, reply) := Prepare(s, user, request, id, now, room);
            && t.manifests[id] == request.files && reply.plans == Plans(t, user, request.files)
            && t.snapshots[id] == Snapshot(user, request.game, request.baseVersion + 1, Pending, now, now)
  {
  }

  /** Whatever is on disk under a truthful file's key is that file. */
  lemma TruthfulArrives(s: Store, user: string, file: File)
    requires Inv(s) && Truthful(file) && KeyOf(user, file) in s.disk
    ensures Arrived(s, user, file)
  {
  }

  lemma AllArrivedCommits(s: Store, user: string, id: string, now: int, autoDelete: bool)
    requires id in s.snapshots && id in s.manifests
    requires forall i | 0 <= i < |s.manifests[id]| :: Arrived(s, user, s.manifests[id][i])
    ensures var reply := Commit(s, user, id, now, autoDelete).1;
            && !reply.Incomplete?
            && (s.snapshots[id].user == user && s.snapshots[id].status.Pending? ==>
                  reply == CommittedAs(id, s.snapshots[id].version))
  {
  }

  // ---------------------------------------------------------------------------
  // Versions
  // ---------------------------------------------------------------------------

  /** The step makes another snapshot of the game current. */
  ghost predicate Moves(s: Store, op: Op, user: string, game: Game) {
    && (op.CommitOp? || op.RestoreOp?) && Step(s, op).1.CommittedAs?
    && Belongs(s.snapshots[Step(s, op).1.id], user, game)
  }

  /** The step deletes the game's current snapshot. */
  ghost predicate Deletes(s: Store, op: Op, user: string, game: Game) {
    || (op.DeleteGameOp? && op.user == user && op.game == game)
    || (op.AdminDeleteOp? && op.id in WithStatus(s, user, game, Committed))
  }

  lemma RepliesName(s: Store, op: Op)
    requires Step(s, op).1.CommittedAs? && (op.CommitOp? || op.RestoreOp?)
    ensures Step(s, op).1.id == op.id && op.id in s.snapshots && s.snapshots[op.id].user == op.user
  {
  }

  ghost predicate SameCurrent(s: Store, t: Store, user: string, game: Game) {
    && WithStatus(t, user, game, Committed) == WithStatus(s, user, game, Committed)
    && forall id | id in WithStatus(s, user, game, Committed) :: t.snapshots[id].version == s.snapshots[id].version
  }

  lemma SameCurrentVersion(s: Store, t: Store, user: string, game: Game)
    requires Inv(s) && SameCurrent(s, t, user, game)
    ensures CurrentVersion(t, user, game) == CurrentVersion(s, user, game)
  {
  }

  lemma QuietCommit(s: Store, user: string, id: string, now: int, autoDelete: bool, owner: string, game: Game)
    requires Inv(s)
    requires Commit(s, user, id, now, autoDelete).1.CommittedAs? ==> !Belongs(s.snapshots[id], owner, game)
    ensures SameCurrent(s, Commit(s, user, id, now, autoDelete).0, owner, game)
  {
    hide ArrivedPrefix, Registered, Orphans, Promoted, SameCurrent, Inv;
    var t := Commit(s, user, id, now, autoDelete).0;
    if Commit(s, user, id, now, autoDelete).1.CommittedAs? {
      var arrived := s.manifests[id][..ArrivedPrefix(s, user, s.manifests[id])];
      var registered := s.(blobs := Registered(s.blobs, user, arrived));
      QuietPromotion(registered, user, id, now, autoDelete, owner, game);
      SameSnapshots(s, t, registered, Promoted(registered, user, id, now, autoDelete), owner, game);
    } else {
      SameSnapshots(s, t, s, s, owner, game);
    }
  }

  lemma SameSnapshots(s: Store, t: Store, r: Store, p: Store, owner: string, game: Game)
    requires s.snapshots == r.snapshots && t.snapshots == p.snapshots && (r == p || SameCurrent(r, p, owner, game))
    ensures SameCurrent(s, t, owner, game)
  {
  }

  lemma QuietPromotion(s: Store, user: string, id: string, now: int, autoDelete: bool, owner: string, game: Game)
    requires id in s.snapshots && s.snapshots[id].user == user && !Belongs(s.snapshots[id], owner, game)
    ensures SameCurrent(s, Promoted(s, user, id, now, autoDelete), owner, game)
  {
    var p := Promoted(s, user, id, now, autoDelete);
    assert forall other | other in s.snapshots && Belongs(s.snapshots[other], owner, game) ::
        other in p.snapshots && p.snapshots[other] == s.snapshots[other];
  }

  lemma QuietRemoval(s: Store, ids: set<string>, users: set<string>, user: string, game: Game)
    requires ids !! WithStatus(s, user, game, Committed)
    ensures SameCurrent(s, Collected(Dropped(s, ids), users), user, game)
  {
  }

  lemma QuietPrepare(s: Store, op: Op, user: string, game: Game)
    requires Inv(s) && op.PrepareOp?
    ensures SameCurrent(s, Step(s, op).0, user, game)
  {
    hide Orphans, CurrentVersion, Plans, WellFormed, OneCommitted, ContentAddressed, Sized, Accounted, Restorable;
  }

  lemma QuietRestore(s: Store, op: Op, user: string, game: Game)
    requires Inv(s) && op.RestoreOp? && !Moves(s, op, user, game)
    ensures SameCurrent(s, Step(s, op).0, user, game)
  {
    hide ContentAddressed, Sized, Accounted, Restorable, OneCommitted, Versions, Swapped, SameCurrent;
    if op.id in s.snapshots && s.snapshots[op.id].user == op.user && s.snapshots[op.id].status.Superseded? {
      var version := Greatest(Versions(s, op.user, s.snapshots[op.id].game)) + 1;
      QuietSwap(s, op.user, op.id, version, op.now, user, game);
    } else {
      SameSnapshots(s, s, s, s, user, game);
    }
  }

  lemma QuietSwap(s: Store, owner: string, id: string, version: int, now: int, user: string, game: Game)
    requires id in s.snapshots && s.snapshots[id].user == owner && !Belongs(s.snapshots[id], user, game)
    ensures SameCurrent(s, Swapped(s, owner, id, version, now), user, game)
  {
  }

  /** Nothing but a commit, a restore or a deletion moves a game's current version. */
  lemma QuietStep(s: Store, op: Op, user: string, game: Game)
    requires Inv(s) && !Moves(s, op, user, game) && !Deletes(s, op, user, game)
    ensures CurrentVersion(Step(s, op).0, user, game) == CurrentVersion(s, user, game)
  {
    hide Inv, CurrentVersion, Commit, Prepare, Restore, Collected, Dropped, SameCurrent;
    match op {
      case PrepareOp(_, _, _, _, _) => QuietPrepare(s, op, user, game);
      case LandOp(_, _) => assert SameCurrent(s, Step(s, op).0, user, game) by { QuietFiles(s, op, user, game); }
      case CommitOp(owner, id, now, autoDelete) =>
        if Step(s, op).1.CommittedAs? {
          RepliesName(s, op);
        }
        QuietCommit(s, owner, id, now, autoDelete, user, game);
      case RestoreOp(_, _, _) => QuietRestore(s, op, user, game);
      case DeleteGameOp(owner, other) => QuietRemoval(s, OfGame(s, owner, other), {owner}, user, game);
      case DeleteRetainedOp(_, id) =>
        if Step(s, op).1.Done? {
          QuietRemoval(s, {id}, Owners(s, {id}), user, game);
        }
      case AdminDeleteOp(id) => QuietRemoval(s, {id}, Owners(s, {id}), user, game);
      case SweepPendingOp(now) => QuietRemoval(s, Stale(s, now), Owners(s, Stale(s, now)), user, game);
      case GcBlobsOp => QuietFiles(s, op, user, game);
      case DeleteRetainedVersionsOp => QuietRemoval(s, AllSuperseded(s), Owners(s, AllSuperseded(s)), user, game);
      case DeleteOrphanFilesOp(_, _) => QuietFiles(s, op, user, game);
    }
    if SameCurrent(s, Step(s, op).0, user, game) {
      SameCurrentVersion(s, Step(s, op).0, user, game);
    } else {
      RefusedChangesNothing(s, op);
    }
  }

  lemma QuietFiles(s: Store, op: Op, user: string, game: Game)
    requires op.LandOp? || op.GcBlobsOp? || op.DeleteOrphanFilesOp?
    ensures SameCurrent(s, Step(s, op).0, user, game)
  {
  }

  lemma RefusedChangesNothing(s: Store, op: Op)
    requires op.DeleteGameOp? || op.DeleteRetainedOp? || op.AdminDeleteOp?
    ensures Step(s, op).1.Done? || Step(s, op).0 == s
  {
  }

  /** A commit makes its snapshot current, under the version prepare wrote down. */
  lemma CommitSetsVersion(s: Store, user: string, id: string, now: int, autoDelete: bool)
    requires Inv(s) && Commit(s, user, id, now, autoDelete).1.CommittedAs?
    ensures CurrentVersion(Commit(s, user, id, now, autoDelete).0, user, s.snapshots[id].game)
            == s.snapshots[id].version
  {
    hide ArrivedPrefix, Registered, Orphans, ContentAddressed, Sized, Accounted, Restorable;
    var t := Commit(s, user, id, now, autoDelete).0;
    var arrived := s.manifests[id][..ArrivedPrefix(s, user, s.manifests[id])];
    var registered := s.(blobs := Registered(s.blobs, user, arrived));
    assert t.snapshots == Promoted(registered, user, id, now, autoDelete).snapshots;
    assert WithStatus(t, user, s.snapshots[id].game, Committed) == {id};
  }

  lemma RestoreSetsVersion(s: Store, user: string, id: string, now: int)
    requires Inv(s) && Restore(s, user, id, now).1.CommittedAs?
    ensures var game := s.snapshots[id].game;
            && CurrentVersion(Restore(s, user, id, now).0, user, game) == Restore(s, user, id, now).1.version
            && (forall other | other in OfGame(s, user, game) ::
                s.snapshots[other].version < Restore(s, user, id, now).1.version)
            && CurrentVersion(s, user, game) < Restore(s, user, id, now).1.version
  {
    hide ContentAddressed, Sized, Accounted, Restorable;
    var game := s.snapshots[id].game;
    var t := Restore(s, user, id, now).0;
    assert WithStatus(t, user, game, Committed) == {id};
    forall other | other in OfGame(s, user, game)
      ensures s.snapshots[other].version <= Greatest(Versions(s, user, game))
    {
      assert s.snapshots[other].version in Versions(s, user, game);
    }
  }

  function Prefix(ops: seq<Op>, n: nat): seq<Op>
    requires n <= |ops|
  {
    ops[..n]
  }

  ghost function StateAt(s: Store, ops: seq<Op>, n: nat): Store
    requires n <= |ops|
  {
    After(s, Prefix(ops, n))
  }

  lemma {:induction false} StateAtNext(s: Store, ops: seq<Op>, n: nat)
    requires n < |ops|
    ensures StateAt(s, ops, n + 1) == Step(StateAt(s, ops, n), ops[n]).0
    decreases |ops|
  {
    hide Step;
    if n > 0 {
      StateAtNext(Step(s, ops[0]).0, ops[1..], n - 1);
      assert ops[..n][1..] == ops[1..][..n - 1];
      assert ops[..n + 1][1..] == ops[1..][..n];
    } else {
      assert ops[..1][1..] == [] && ops[..1][0] == ops[0];
      assert After(s, ops[..1]) == After(Step(s, ops[0]).0, []);
    }
  }

  lemma StateAtInv(s: Store, ops: seq<Op>, n: nat)
    requires Inv(s) && n <= |ops|
    ensures Inv(StateAt(s, ops, n))
  {
    hide Inv;
    ReachableInv(s, ops[..n]);
  }

  ghost predicate PreparedAt(s: Store, ops: seq<Op>, p: nat, id: string, user: string, game: Game)
    requires p < |ops|
  {
    && ops[p].PrepareOp? && ops[p].id == id && ops[p].user == user && ops[p].request.game == game
    && Step(StateAt(s, ops, p), ops[p]).1.Prepared?
  }

  ghost predicate QuietBetween(s: Store, ops: seq<Op>, p: nat, c: nat, user: string, game: Game)
    requires p <= c <= |ops|
  {
    forall i | p < i < c ::
      !Moves(StateAt(s, ops, i), ops[i], user, game) && !Deletes(StateAt(s, ops, i), ops[i], user, game)
  }

  /** The `c`-th step's snapshot was prepared after the game's last commit or restore. */
  ghost predicate Serialised(s: Store, ops: seq<Op>, c: nat, user: string, game: Game)
    requires c < |ops|
  {
    ops[c].CommitOp? && exists p | 0 <= p < c ::
      PreparedAt(s, ops, p, ops[c].id, user, game) && QuietBetween(s, ops, p, c, user, game)
  }

  /** While the game is quiet, a snapshot prepared for it is one version ahead of the current one. */
  ghost predicate Ahead(s: Store, id: string, user: string, game: Game, base: int) {
    && CurrentVersion(s, user, game) == base
    && (id in s.snapshots && Belongs(s.snapshots[id], user, game) && s.snapshots[id].status.Pending? ==>
          s.snapshots[id].version == base + 1)
  }

  lemma PrepareIsAhead(s: Store, user: string, request: PrepareRequest, id: string, now: int, room: bool)
    requires Inv(s) && Prepare(s, user, request, id, now, room).1.Prepared?
    ensures Ahead(Prepare(s, user, request, id, now, room).0, id, user, request.game, request.baseVersion)
  {
  }

  lemma QuietStaysAhead(s: Store, op: Op, id: string, user: string, game: Game, base: int)
    requires Inv(s) && Ahead(s, id, user, game, base)
    requires !Moves(s, op, user, game) && !Deletes(s, op, user, game)
    ensures Ahead(Step(s, op).0, id, user, game, base)
  {
    hide Inv, Step, CurrentVersion, Moves, Deletes;
    QuietStep(s, op, user, game);
    var t := Step(s, op).0;
    if id in t.snapshots && Belongs(t.snapshots[id], user, game) && t.snapshots[id].status.Pending? {
      if id in s.snapshots && NotReused(op, id) {
        StepPreserves(s, op, id);
      } else {
        NewcomerIsPrepared(s, op, id);
        PreparedOrKept(s, op, id, user, game);
      }
    }
  }

  /** Only a prepare adds a snapshot. */
  lemma NewcomerIsPrepared(s: Store, op: Op, id: string)
    requires Inv(s) && id in Step(s, op).0.snapshots
    ensures id in s.snapshots || (op.PrepareOp? && op.id == id)
  {
    hide Orphans, CurrentVersion, ContentAddressed, Sized, Accounted, Restorable, ArrivedPrefix, Registered;
  }

  lemma PreparedOrKept(s: Store, op: Op, id: string, user: string, game: Game)
    requires Inv(s) && op.PrepareOp? && op.id == id && id in Step(s, op).0.snapshots
    requires Belongs(Step(s, op).0.snapshots[id], user, game)
    ensures var t := Step(s, op).0;
            || (id in s.snapshots && t.snapshots[id] == s.snapshots[id])
            || t.snapshots[id].version == CurrentVersion(t, user, game) + 1
  {
    hide Orphans, CurrentVersion, ContentAddressed, Sized, Accounted, Restorable;
    if Step(s, op).1.Prepared? {
      PrepareIsAhead(s, op.user, op.request, op.id, op.now, op.room);
    }
  }

  lemma {:induction false} AheadUntil(s: Store, ops: seq<Op>, p: nat, c: nat, user: string, game: Game)
    requires Inv(s) && p < c <= |ops|
    requires ops[p].PrepareOp? && PreparedAt(s, ops, p, ops[p].id, user, game) && QuietBetween(s, ops, p, c, user, game)
    ensures Ahead(StateAt(s, ops, c), ops[p].id, user, game, ops[p].request.baseVersion)
    decreases c
  {
    hide Inv, Ahead, StateAt, CurrentVersion;
    if c == p + 1 {
      StateAtInv(s, ops, p);
      StateAtNext(s, ops, p);
      var op := ops[p];
      PrepareIsAhead(StateAt(s, ops, p), user, op.request, op.id, op.now, op.room);
    } else {
      AheadUntil(s, ops, p, c - 1, user, game);
      StateAtInv(s, ops, c - 1);
      StateAtNext(s, ops, c - 1);
      QuietStaysAhead(StateAt(s, ops, c - 1), ops[c - 1], ops[p].id, user, game, ops[p].request.baseVersion);
    }
  }

  /** A serialised commit replaces exactly the version it started from: the new version is the old one plus one. */
  lemma SerialisedCommitReplacesItsBase(s: Store, ops: seq<Op>, c: nat, user: string, game: Game)
    requires Inv(s) && c < |ops|
    requires Serialised(s, ops, c, user, game) && Moves(StateAt(s, ops, c), ops[c], user, game)
    ensures CurrentVersion(StateAt(s, ops, c + 1), user, game) == CurrentVersion(StateAt(s, ops, c), user, game) + 1
  {
    hide Inv, StateAt, CurrentVersion, QuietBetween;
    var p :| 0 <= p < c && PreparedAt(s, ops, p, ops[c].id, user, game) && QuietBetween(s, ops, p, c, user, game);
    AheadUntil(s, ops, p, c, user, game);
    StateAtInv(s, ops, c);
    StateAtNext(s, ops, c);
    var t, op := StateAt(s, ops, c), ops[c];
    RepliesName(t, op);
    CommitSetsVersion(t, op.user, op.id, op.now, op.autoDelete);
  }

  /** Every commit of the game in this stretch is serialised, and its current save is not deleted. */
  ghost predicate Orderly(s: Store, ops: seq<Op>, user: string, game: Game) {
    forall i | 0 <= i < |ops| ::
      && !Deletes(StateAt(s, ops, i), ops[i], user, game)
      && (ops[i].CommitOp? && Moves(StateAt(s, ops, i), ops[i], user, game) ==> Serialised(s, ops, i, user, game))
  }

  /** Along an orderly run a game's version never falls, and every commit and restore raises it. */
  lemma {:induction false} NoLostUpdate(s: Store, ops: seq<Op>, user: string, game: Game, i: nat, j: nat)
    requires Inv(s) && Orderly(s, ops, user, game)
    requires i <= j <= |ops|
    ensures CurrentVersion(StateAt(s, ops, i), user, game) <= CurrentVersion(StateAt(s, ops, j), user, game)
    ensures (exists c | i <= c < j :: Moves(StateAt(s, ops, c), ops[c], user, game)) ==>
              CurrentVersion(StateAt(s, ops, i), user, game) < CurrentVersion(StateAt(s, ops, j), user, game)
    decreases j
  {
    hide Inv, StateAt, CurrentVersion, Serialised, Deletes, Step;
    if i < j {
      var c := j - 1;
      var t, op := StateAt(s, ops, c), ops[c];
      NoLostUpdate(s, ops, user, game, i, c);
      StateAtInv(s, ops, c);
      StateAtNext(s, ops, c);
      if !Moves(t, op, user, game) {
        QuietStep(t, op, user, game);
      } else if op.CommitOp? {
        SerialisedCommitReplacesItsBase(s, ops, c, user, game);
      } else {
        RepliesName(t, op);
        RestoreRaises(t, op, user, game);
      }
    }
  }

  lemma RestoreRaises(s: Store, op: Op, user: string, game: Game)
    requires Inv(s) && op.RestoreOp? && Moves(s, op, user, game)
    ensures CurrentVersion(s, user, game) < CurrentVersion(Step(s, op).0, user, game)
  {
    hide Inv, CurrentVersion, Restore;
    RepliesName(s, op);
    RestoreSetsVersion(s, op.user, op.id, op.now);
  }

  // ---------------------------------------------------------------------------
  // Restoring, and undoing it
  // ---------------------------------------------------------------------------

  /** Restoring a kept version and then the one it displaced gives back every status, manifest, row and file;
      only the two versions have moved, past every version the game had. */
  lemma RestoreIsUndone(s: Store, user: string, kept: string, current: string, now: int, later: int)
    requires Inv(s)
    requires kept in s.snapshots && s.snapshots[kept].user == user && s.snapshots[kept].status.Superseded?
    requires current in WithStatus(s, user, s.snapshots[kept].game, Committed)
    ensures var t := Restore(s, user, kept, now).0;
            var u := Restore(t, user, current, later).0;
            && Restore(s, user, kept, now).1.CommittedAs? && Restore(t, user, current, later).1.CommittedAs?
            && t.snapshots[kept].status.Committed? && t.snapshots[current].status.Superseded?
            && u.manifests == s.manifests && u.blobs == s.blobs && u.disk == s.disk
            && u.snapshots.Keys == s.snapshots.Keys
            && (forall id | id in s.snapshots :: u.snapshots[id].status == s.snapshots[id].status)
            && (forall id | id in s.snapshots && id != kept && id != current :: u.snapshots[id] == s.snapshots[id])
            && (forall id | id in s.snapshots ::
                  u.snapshots[id].(version := 0, updatedAt := 0) == s.snapshots[id].(version := 0, updatedAt := 0))
            && (forall id | id in OfGame(s, user, s.snapshots[kept].game) ::
                  s.snapshots[id].version < u.snapshots[kept].version < u.snapshots[current].version)
  {
    hide Inv, Restore, Versions, CurrentVersion;
    var game := s.snapshots[kept].game;
    var t := Restore(s, user, kept, now).0;
    RestoreKeepsInv(s, user, kept, now);
    RestoreSwaps(s, user, kept, current, now);
    RestoreSwaps(t, user, current, kept, later);
    assert current in OfGame(t, user, game) && kept in OfGame(t, user, game);
    forall id | id in OfGame(s, user, game)
      ensures id in OfGame(t, user, game)
    {
    }
  }

  /** What a restore does to the snapshots: the two swap statuses, under a version past all of the game's. */
  lemma RestoreSwaps(s: Store, user: string, kept: string, current: string, now: int)
    requires Inv(s)
    requires kept in s.snapshots && s.snapshots[kept].user == user && s.snapshots[kept].status.Superseded?
    requires current in WithStatus(s, user, s.snapshots[kept].game, Committed)
    ensures var (t, reply) := Restore(s, user, kept, now);
            && reply.CommittedAs? && t.snapshots.Keys == s.snapshots.Keys
            && t == s.(snapshots := t.snapshots)
            && t.snapshots[kept] == s.snapshots[kept].(status := Committed, version := reply.version, updatedAt := now)
            && t.snapshots[current] == s.snapshots[current].(status := Superseded, updatedAt := now)
            && (forall id | id in s.snapshots && id != kept && id != current :: t.snapshots[id] == s.snapshots[id])
            && (forall id | id in OfGame(s, user, s.snapshots[kept].game) :: s.snapshots[id].version < reply.version)
  {
    hide ContentAddressed, Sized, Accounted, Restorable, Versions, CurrentVersion;
    RestoreSetsVersion(s, user, kept, now);
    assert WithStatus(s, user, s.snapshots[kept].game, Committed) == {current};
  }
}
