/** The Cloud Save V2 store of src/cloud_saves.rs: its tables and disk files as maps, and one function per
    handler or job giving the state it leaves and the reply it sends. A handler is one atomic step. */
module CloudSaves {
  import opened Digests
  import opened Numbers
  import opened Options
  import opened Paths
  import OrphanFiles

  const PENDING_SNAPSHOT_TTL_SECONDS: int := 24 * 60 * 60

  datatype BlobKey = BlobKey(user: string, hash: Hash)

  datatype Game = Game(shop: string, objectId: string)

  datatype File = File(variantId: string, rawPath: string, relativePath: string, hash: Hash, sizeBytes: int)

  datatype Status = Pending | Committed | Superseded

  datatype Snapshot = Snapshot(user: string, game: Game, version: int, status: Status, createdAt: int, updatedAt: int)

  datatype Store = Store(
    snapshots: map<string, Snapshot>,
    manifests: map<string, seq<File>>,
    blobs: map<BlobKey, int>,
    disk: map<BlobKey, Content>)

  const EMPTY := Store(map[], map[], map[], map[])

  /** `shaped` answers for the shape of its texts: hashes in hexadecimal, state metadata within their lengths. */
  datatype PrepareRequest = PrepareRequest(game: Game, baseVersion: int, files: seq<File>, shaped: bool)

  /** The answer to one proposed file: its bytes are here, or have to be sent. */
  datatype Plan = Skip(file: File) | Upload(file: File)

  datatype Reply =
    | Prepared(id: string, plans: seq<Plan>)
    | CommittedAs(id: string, version: int)
    | Done
    | BadRequest
    | NotFound
    | Conflict
    | QuotaExceeded
    | Incomplete
    | Failed

  // ---------------------------------------------------------------------------
  // Queries
  // ---------------------------------------------------------------------------

  predicate ValidShop(shop: string) {
    shop == "steam" || shop == "epic" || shop == "launchbox"
  }

  predicate SameIdentity(f: File, g: File) {
    f.variantId == g.variantId && f.rawPath == g.rawPath && f.relativePath == g.relativePath
  }

  predicate WellFormed(request: PrepareRequest) {
    && ValidShop(request.game.shop) && request.game.objectId != "" && request.shaped && request.baseVersion >= 0
    && (forall i | 0 <= i < |request.files| ::
          request.files[i].sizeBytes >= 0 && request.files[i].rawPath != "" && request.files[i].relativePath != "")
    && (forall i, j | 0 <= i < j < |request.files| :: !SameIdentity(request.files[i], request.files[j]))
  }

  predicate Belongs(snapshot: Snapshot, user: string, game: Game) {
    snapshot.user == user && snapshot.game == game
  }

  function OfGame(s: Store, user: string, game: Game): set<string> {
    set id | id in s.snapshots && Belongs(s.snapshots[id], user, game)
  }

  function WithStatus(s: Store, user: string, game: Game, status: Status): set<string> {
    set id | id in s.snapshots && Belongs(s.snapshots[id], user, game) && s.snapshots[id].status == status
  }

  /** The version a launcher has to have started from: the committed one, or zero. */
  ghost function CurrentVersion(s: Store, user: string, game: Game): int {
    var committed := WithStatus(s, user, game, Committed);
    if committed == {} then 0 else
      var id :| id in committed;
      s.snapshots[id].version
  }

  function Versions(s: Store, user: string, game: Game): set<int> {
    set id | id in OfGame(s, user, game) :: s.snapshots[id].version
  }

  predicate Names(files: seq<File>, hash: Hash) {
    exists i | 0 <= i < |files| :: files[i].hash == hash
  }

  /** Some snapshot of the key's owner, in whatever status, lists the hash. */
  predicate Referenced(s: Store, key: BlobKey) {
    exists id | id in s.snapshots ::
      s.snapshots[id].user == key.user && id in s.manifests && Names(s.manifests[id], key.hash)
  }

  function Orphans(s: Store, users: set<string>): set<BlobKey> {
    set key | key in s.blobs && key.user in users && !Referenced(s, key)
  }

  function Stale(s: Store, now: int): set<string> {
    set id | id in s.snapshots && s.snapshots[id].status.Pending?
             && s.snapshots[id].createdAt < now - PENDING_SNAPSHOT_TTL_SECONDS
  }

  function StaleOf(s: Store, user: string, now: int): set<string> {
    set id | id in Stale(s, now) && s.snapshots[id].user == user
  }

  function Owners(s: Store, ids: set<string>): set<string> {
    set id | id in ids && id in s.snapshots :: s.snapshots[id].user
  }

  predicate Stored(s: Store, user: string, file: File) {
    var key := BlobKey(user, file.hash);
    key in s.blobs && key in s.disk
  }

  predicate Arrived(s: Store, user: string, file: File) {
    var key := BlobKey(user, file.hash);
    key in s.disk && |s.disk[key]| == file.sizeBytes
  }

  /** How many leading files have arrived with the size they declared. */
  function ArrivedPrefix(s: Store, user: string, files: seq<File>): (n: nat)
    ensures n <= |files|
    ensures forall i | 0 <= i < n :: Arrived(s, user, files[i])
    ensures n < |files| ==> !Arrived(s, user, files[n])
  {
    if files == [] || !Arrived(s, user, files[0]) then 0 else 1 + ArrivedPrefix(s, user, files[1..])
  }

  // ---------------------------------------------------------------------------
  // Updates
  // ---------------------------------------------------------------------------

  function Dropped(s: Store, ids: set<string>): Store {
    s.(snapshots := s.snapshots - ids, manifests := s.manifests - ids)
  }

  /** The collector: blob rows nothing references go, and their files with them. Files without a row stay. */
  function Collected(s: Store, users: set<string>): Store {
    s.(blobs := s.blobs - Orphans(s, users), disk := s.disk - Orphans(s, users))
  }

  function Removed(s: Store, ids: set<string>): Store {
    Collected(Dropped(s, ids), Owners(s, ids))
  }

  function Added(s: Store, id: string, snapshot: Snapshot, files: seq<File>): Store {
    s.(snapshots := s.snapshots[id := snapshot], manifests := s.manifests[id := files])
  }

  /** The blob table once the given files have been registered, in order. */
  function Registered(blobs: map<BlobKey, int>, user: string, files: seq<File>): map<BlobKey, int> {
    if files == [] then blobs
    else
      var last := files[|files| - 1];
      Registered(blobs, user, files[..|files| - 1])[BlobKey(user, last.hash) := last.sizeBytes]
  }

  function Marked(s: Store, ids: set<string>, status: Status, now: int): Store {
    s.(snapshots := map id | id in s.snapshots ::
                    if id in ids then s.snapshots[id].(status := status, updatedAt := now) else s.snapshots[id])
  }

  // ---------------------------------------------------------------------------
  // Handlers and jobs
  // ---------------------------------------------------------------------------

  function Swept(s: Store, user: string, now: int): Store {
    Removed(s, StaleOf(s, user, now))
  }

  function Plans(s: Store, user: string, files: seq<File>): seq<Plan> {
    seq(|files|, i requires 0 <= i < |files| => if Stored(s, user, files[i]) then Skip(files[i]) else Upload(files[i]))
  }

  /** POST prepare-snapshot. `room` is the quota's answer, `id` the fresh identifier. */
  ghost function Prepare(s: Store, user: string, request: PrepareRequest, id: string, now: int,
                         room: bool): (Store, Reply) {
    if !WellFormed(request) then (s, BadRequest)
    else
      var swept := Swept(s, user, now);
      if request.baseVersion != CurrentVersion(swept, user, request.game) then (swept, Conflict)
      else if !room then (swept, QuotaExceeded)
      else if id in swept.snapshots then (swept, Failed)
      else
        (Added(swept, id, Snapshot(user, request.game, request.baseVersion + 1, Pending, now, now), request.files),
         Prepared(id, Plans(swept, user, request.files)))
  }

  /** PUT of a blob: bytes land under a key only when they hash to it. */
  function Land(s: Store, key: BlobKey, bytes: Content): (Store, Reply) {
    if Sha256(bytes) == key.hash.digest then (s.(disk := s.disk[key := bytes]), Done) else (s, BadRequest)
  }

  function Promoted(s: Store, user: string, id: string, now: int, autoDelete: bool): Store
    requires id in s.snapshots
  {
    var game := s.snapshots[id].game;
    var displaced := WithStatus(s, user, game, Committed);
    var kept := WithStatus(s, user, game, Superseded);
    var cleared := if autoDelete then Dropped(s, displaced + kept) else Marked(s, displaced, Superseded, now);
    if id in cleared.snapshots then Marked(cleared, {id}, Committed, now) else cleared
  }

  /** POST commit-snapshot. The version is the one prepare wrote down; it is not looked at again. */
  function Commit(s: Store, user: string, id: string, now: int, autoDelete: bool): (Store, Reply) {
    if id !in s.snapshots || id !in s.manifests || s.snapshots[id].user != user || !s.snapshots[id].status.Pending?
    then (s, NotFound)
    else
      var files := s.manifests[id];
      var arrived := ArrivedPrefix(s, user, files);
      var registered := s.(blobs := Registered(s.blobs, user, files[..arrived]));
      if arrived < |files| then (registered, Incomplete)
      else
        (Collected(Promoted(registered, user, id, now, autoDelete), {user}), CommittedAs(id, s.snapshots[id].version))
  }

  /** The committed snapshot of the game steps aside and `id` takes its place. */
  function Swapped(s: Store, user: string, id: string, version: int, now: int): Store
    requires id in s.snapshots
  {
    var demoted := Marked(s, WithStatus(s, user, s.snapshots[id].game, Committed), Superseded, now);
    var restored := s.snapshots[id].(status := Committed, version := version, updatedAt := now);
    demoted.(snapshots := demoted.snapshots[id := restored])
  }

  /** POST snapshots/{id}/restore. */
  function Restore(s: Store, user: string, id: string, now: int): (Store, Reply) {
    if id !in s.snapshots || s.snapshots[id].user != user then (s, NotFound)
    else if !s.snapshots[id].status.Superseded? then (s, BadRequest)
    else
      var game := s.snapshots[id].game;
      var next := Greatest(Versions(s, user, game)) + 1;
      (Swapped(s, user, id, next, now), CommittedAs(id, next))
  }

  /** DELETE snapshots of one game. */
  function DeleteGame(s: Store, user: string, game: Game): (Store, Reply) {
    if !ValidShop(game.shop) then (s, BadRequest)
    else (Collected(Dropped(s, OfGame(s, user, game)), {user}), Done)
  }

  /** DELETE snapshots/{id}: a retained version only. */
  function DeleteRetained(s: Store, user: string, id: string): (Store, Reply) {
    if id !in s.snapshots || s.snapshots[id].user != user then (s, NotFound)
    else if !s.snapshots[id].status.Superseded? then (s, BadRequest)
    else (Removed(s, {id}), Done)
  }

  /** The admin panel's delete: any snapshot. */
  function AdminDelete(s: Store, id: string): (Store, Reply) {
    if id !in s.snapshots then (s, NotFound) else (Removed(s, {id}), Done)
  }

  function SweepPending(s: Store, now: int): Store {
    Removed(s, Stale(s, now))
  }

  function GcBlobs(s: Store): Store {
    Collected(s, set key | key in s.blobs :: key.user)
  }

  function AllSuperseded(s: Store): set<string> {
    set id | id in s.snapshots && s.snapshots[id].status.Superseded?
  }

  function DeleteRetainedVersions(s: Store): Store {
    Removed(s, AllSuperseded(s))
  }

  /** How hashes are written as text. */
  type Writing = Hash -> string

  function RowOf(key: BlobKey, write: Writing): OrphanFiles.Blob {
    OrphanFiles.Blob(key.user, write(key.hash))
  }

  /** A file's key as text. */
  function TextOf(key: BlobKey, write: Writing): string {
    OrphanFiles.BlobKey(RowOf(key, write))
  }

  predicate NamesRow(s: Store, text: string, write: Writing) {
    exists key | key in s.blobs :: OrphanFiles.BlobNamed(text) == Some(RowOf(key, write))
  }

  /** Deleting files by hand, the admin panel looks a text up among the rows as it is written, ... */
  predicate Deletable(s: Store, text: string, write: Writing) {
    "cloud-saves/" <= text && SafeKey(text) && !NamesRow(s, text, write) && !NamesFolder(text)
  }

  /** ... and deletes whatever file it leads to. */
  predicate Takes(s: Store, text: string, write: Writing, key: BlobKey) {
    Deletable(s, text, write) && PathOf(text) == PathOf(TextOf(key, write))
  }

  /** The admin panel's file deletion, as far as Cloud Save files go. */
  function DeleteOrphanFiles(s: Store, texts: seq<string>, write: Writing): Store {
    s.(disk := map key | key in s.disk && !exists text | text in texts :: Takes(s, text, write, key) :: s.disk[key])
  }

  // ---------------------------------------------------------------------------
  // Runs
  // ---------------------------------------------------------------------------

  datatype Op =
    | PrepareOp(user: string, request: PrepareRequest, id: string, now: int, room: bool)
    | LandOp(key: BlobKey, bytes: Content)
    | CommitOp(user: string, id: string, now: int, autoDelete: bool)
    | RestoreOp(user: string, id: string, now: int)
    | DeleteGameOp(user: string, game: Game)
    | DeleteRetainedOp(user: string, id: string)
    | AdminDeleteOp(id: string)
    | SweepPendingOp(now: int)
    | GcBlobsOp
    | DeleteRetainedVersionsOp
    | DeleteOrphanFilesOp(texts: seq<string>, write: Writing)

  ghost function Step(s: Store, op: Op): (Store, Reply) {
    match op
    case PrepareOp(user, request, id, now, room) => Prepare(s, user, request, id, now, room)
    case LandOp(key, bytes) => Land(s, key, bytes)
    case CommitOp(user, id, now, autoDelete) => Commit(s, user, id, now, autoDelete)
    case RestoreOp(user, id, now) => Restore(s, user, id, now)
    case DeleteGameOp(user, game) => DeleteGame(s, user, game)
    case DeleteRetainedOp(user, id) => DeleteRetained(s, user, id)
    case AdminDeleteOp(id) => AdminDelete(s, id)
    case SweepPendingOp(now) => (SweepPending(s, now), Done)
    case GcBlobsOp => (GcBlobs(s), Done)
    case DeleteRetainedVersionsOp => (DeleteRetainedVersions(s), Done)
    case DeleteOrphanFilesOp(texts, write) => (DeleteOrphanFiles(s, texts, write), Done)
  }

  ghost function After(s: Store, ops: seq<Op>): Store
    decreases |ops|
  {
    if ops == [] then s else After(Step(s, ops[0]).0, ops[1..])
  }

  // ---------------------------------------------------------------------------
  // The invariant
  // ---------------------------------------------------------------------------

  /** Every file under a key hashes to that key. */
  ghost predicate ContentAddressed(s: Store) {
    forall key | key in s.disk :: Sha256(s.disk[key]) == key.hash.digest
  }

  /** A blob row's size is that of the content its hash stands for. */
  ghost predicate Sized(s: Store) {
    forall key | key in s.blobs :: key.hash.digest.Sha256? && |key.hash.digest.of| == s.blobs[key]
  }

  /** Every blob row has its file. This is not part of the invariant: deleting files by hand can break it. */
  ghost predicate Backed(s: Store) {
    forall key | key in s.blobs :: key in s.disk
  }

  /** No blob row is charged to an account that has no manifest naming it. */
  ghost predicate Accounted(s: Store) {
    forall key | key in s.blobs :: Referenced(s, key)
  }

  /** Every file of a kept snapshot has its row, with the size the manifest gives. */
  ghost predicate Restorable(s: Store) {
    forall id, i | id in s.snapshots && id in s.manifests && !s.snapshots[id].status.Pending?
      && 0 <= i < |s.manifests[id]| ::
      FileKept(s, s.snapshots[id].user, s.manifests[id][i])
  }

  ghost predicate FileKept(s: Store, user: string, file: File) {
    var key := BlobKey(user, file.hash);
    key in s.blobs && s.blobs[key] == file.sizeBytes
  }

  /** At most one committed snapshot per user and game. */
  ghost predicate OneCommitted(s: Store) {
    forall a, b | a in s.snapshots && b in s.snapshots
                  && s.snapshots[a].status.Committed? && s.snapshots[b].status.Committed?
                  && Belongs(s.snapshots[a], s.snapshots[b].user, s.snapshots[b].game) :: a == b
  }

  ghost predicate Shaped(s: Store) {
    s.manifests.Keys == s.snapshots.Keys && forall id | id in s.snapshots :: s.snapshots[id].version >= 1
  }

  ghost predicate Inv(s: Store) {
    Shaped(s) && ContentAddressed(s) && Sized(s) && Accounted(s) && Restorable(s) && OneCommitted(s)
  }
}
