/** Which storage keys the integrity scan of src/admin/storage.rs takes for known, and how src/admin/maintenance.rs
    deletes the files it did not. */
module OrphanFiles {
  import opened Likeness
  import opened Options
  import opened Paths

  datatype User = User(bannerKey: Option<string>, avatarKey: Option<string>, profileUrl: Option<string>)

  datatype Blob = Blob(user: string, hash: string)

  /** A row with whether its upload has landed. */
  datatype Row = Row(key: string, uploaded: bool)

  /** The tables that name files, each as the rows a query returns. Artwork rows without a key are left out. */
  datatype Database = Database(
    blobs: seq<Blob>,
    artifacts: seq<Row>,
    emulationSaves: seq<Row>,
    artworkKeys: seq<string>,
    souvenirs: seq<Row>,
    users: seq<User>)

  // ---------------------------------------------------------------------------
  // Known keys
  // ---------------------------------------------------------------------------

  function BlobKey(b: Blob): string {
    "cloud-saves/" + b.user + "/" + b.hash
  }

  function ArtifactKey(id: string): string {
    "artifacts/" + id + ".tar"
  }

  function EmulationKey(id: string): string {
    "emulation-saves/" + id + ".bin"
  }

  const AVATARS := "images/avatars/"

  /** The text from the first mention of the avatars folder on. */
  function AvatarIn(url: string): Option<string> {
    if AVATARS <= url then Some(url) else if url == "" then None else AvatarIn(url[1..])
  }

  function KnownOf(u: User): set<string> {
    (if u.bannerKey.Some? then {u.bannerKey.value} else {})
    + (if u.avatarKey.Some? then {u.avatarKey.value} else {})
    + (if u.profileUrl.Some? && AvatarIn(u.profileUrl.value).Some? then {AvatarIn(u.profileUrl.value).value} else {})
  }

  function KnownBlobs(blobs: seq<Blob>): set<string> {
    set b | b in blobs :: BlobKey(b)
  }

  function KnownArtifacts(rows: seq<Row>): set<string> {
    set row | row in rows && row.uploaded :: ArtifactKey(row.key)
  }

  function KnownSaves(rows: seq<Row>): set<string> {
    set row | row in rows && row.uploaded :: EmulationKey(row.key)
  }

  function KnownSouvenirs(rows: seq<Row>): set<string> {
    set row | row in rows :: row.key
  }

  function KnownImages(users: seq<User>): set<string> {
    set u, key | u in users && key in KnownOf(u) :: key
  }

  function Known(db: Database): set<string> {
    KnownBlobs(db.blobs) + KnownArtifacts(db.artifacts) + KnownSaves(db.emulationSaves)
    + (set key | key in db.artworkKeys) + KnownSouvenirs(db.souvenirs) + KnownImages(db.users)
  }

  lemma OneMoreBlob(blobs: seq<Blob>, i: nat)
    requires i < |blobs|
    ensures KnownBlobs(blobs[..i + 1]) == KnownBlobs(blobs[..i]) + {BlobKey(blobs[i])}
  {
  }

  lemma OneMoreUpload(rows: seq<Row>, i: nat)
    requires i < |rows|
    ensures KnownArtifacts(rows[..i + 1])
            == KnownArtifacts(rows[..i]) + if rows[i].uploaded then {ArtifactKey(rows[i].key)} else {}
    ensures KnownSaves(rows[..i + 1])
            == KnownSaves(rows[..i]) + if rows[i].uploaded then {EmulationKey(rows[i].key)} else {}
  {
  }

  lemma OneMoreUser(users: seq<User>, i: nat)
    requires i < |users|
    ensures KnownImages(users[..i + 1]) == KnownImages(users[..i]) + KnownOf(users[i])
  {
  }

  lemma SouvenirsSplit(rows: seq<Row>)
    ensures KnownSouvenirs(rows)
            == (set row | row in rows && row.uploaded :: row.key) + (set row | row in rows && !row.uploaded :: row.key)
  {
  }

  /** The scan's first half. */
  method KnownKeys(db: Database) returns (known: set<string>)
    ensures known == Known(db)
  {
    hide KnownBlobs, KnownArtifacts, KnownSaves, KnownSouvenirs, KnownImages, KnownOf, BlobKey, ArtifactKey,
         EmulationKey;
    NothingKnown();
    known := {};
    for i := 0 to |db.blobs|
      invariant known == KnownBlobs(db.blobs[..i])
    {
      OneMoreBlob(db.blobs, i);
      known := known + {BlobKey(db.blobs[i])};
    }
    assert db.blobs[..|db.blobs|] == db.blobs;
    for i := 0 to |db.artifacts|
      invariant known == KnownBlobs(db.blobs) + KnownArtifacts(db.artifacts[..i])
    {
      OneMoreUpload(db.artifacts, i);
      if db.artifacts[i].uploaded {
        known := known + {ArtifactKey(db.artifacts[i].key)};
      }
    }
    assert db.artifacts[..|db.artifacts|] == db.artifacts;
    ghost var before := known;
    for i := 0 to |db.emulationSaves|
      invariant known == before + KnownSaves(db.emulationSaves[..i])
    {
      OneMoreUpload(db.emulationSaves, i);
      if db.emulationSaves[i].uploaded {
        known := known + {EmulationKey(db.emulationSaves[i].key)};
      }
    }
    assert db.emulationSaves[..|db.emulationSaves|] == db.emulationSaves;
    known := known + (set key | key in db.artworkKeys);
    known := known + (set row | row in db.souvenirs && row.uploaded :: row.key);
    known := known + (set row | row in db.souvenirs && !row.uploaded :: row.key);
    SouvenirsSplit(db.souvenirs);
    before := known;
    for i := 0 to |db.users|
      invariant known == before + KnownImages(db.users[..i])
    {
      OneMoreUser(db.users, i);
      known := known + KnownOf(db.users[i]);
    }
    assert db.users[..|db.users|] == db.users;
  }

  lemma NothingKnown()
    ensures KnownBlobs([]) == {} && KnownArtifacts([]) == {} && KnownSaves([]) == {} && KnownImages([]) == {}
  {
  }

  // ---------------------------------------------------------------------------
  // Deleting
  // ---------------------------------------------------------------------------

  /** The text between a prefix and a suffix. */
  function Between(key: string, prefix: string, suffix: string): Option<string> {
    if prefix <= key && |prefix| + |suffix| <= |key| && key[|key| - |suffix|..] == suffix
    then Some(key[|prefix|..|key| - |suffix|]) else None
  }

  /** The blob a key of the Cloud Save area names, split at its first slash. */
  function BlobNamed(key: string): Option<Blob> {
    if "cloud-saves/" <= key then
      var rest := key[|"cloud-saves/"|..];
      var at := FirstSlash(rest);
      if at < |rest| then Some(Blob(rest[..at], rest[at + 1..])) else None
    else None
  }

  predicate Mentions(db: Database, key: string) {
    exists u | u in db.users :: u.profileUrl.Some? && Like("%" + EscapeLike(key), u.profileUrl.value)
  }

  /** Ownership of a key, read back from the database. */
  predicate StillReferenced(db: Database, key: string) {
    if "cloud-saves/" <= key then BlobNamed(key).Some? && BlobNamed(key).value in db.blobs
    else if Between(key, "artifacts/", ".tar").Some? then
      exists row | row in db.artifacts :: row.key == Between(key, "artifacts/", ".tar").value
    else if Between(key, "emulation-saves/", ".bin").Some? then
      exists row | row in db.emulationSaves :: row.key == Between(key, "emulation-saves/", ".bin").value
    else if "images/artwork/" <= key then key in db.artworkKeys
    else if "images/banners/" <= key || AVATARS <= key then
      (exists u | u in db.users :: u.bannerKey == Some(key) || u.avatarKey == Some(key)) || Mentions(db, key)
    else true
  }

  predicate Deletable(db: Database, key: string) {
    SafeKey(key) && !StillReferenced(db, key)
  }

  /** Files by path, with their lengths, and the folders they are in. */
  datatype Disk = Disk(files: map<Path, nat>, folders: map<Path, nat>)

  /** The length reported for a key: that of its file, or of the folder it names. */
  function Length(disk: Disk, key: string): nat {
    var path := PathOf(key);
    if path in disk.files && !NamesFolder(key) then disk.files[path]
    else if path in disk.folders && path !in disk.files then disk.folders[path]
    else 0
  }

  function Without(disk: Disk, key: string): Disk {
    if NamesFolder(key) then disk else disk.(files := disk.files - {PathOf(key)})
  }

  datatype Outcome = Outcome(disk: Disk, deleted: nat, freedBytes: nat, skipped: seq<string>)

  function Deletion(db: Database, disk: Disk, keys: seq<string>): Outcome {
    if keys == [] then Outcome(disk, 0, 0, [])
    else
      var before, key := Deletion(db, disk, keys[..|keys| - 1]), keys[|keys| - 1];
      if !Deletable(db, key) then before.(skipped := before.skipped + [key])
      else before.(disk := Without(before.disk, key), deleted := before.deleted + 1,
                   freedBytes := before.freedBytes + Length(before.disk, key))
  }

  datatype Reply = BadRequest | Report(deleted: nat, freedBytes: nat, skipped: seq<string>)

  class Storage {
    var disk: Disk

    constructor (disk: Disk)
      ensures this.disk == disk
    {
      this.disk := disk;
    }

    method DeleteObject(key: string)
      modifies this
      ensures disk == Without(old(disk), key)
    {
      if !NamesFolder(key) {
        disk := disk.(files := disk.files - {PathOf(key)});
      }
    }

    method DeleteOrphanFiles(db: Database, keys: seq<string>) returns (reply: Reply)
      modifies this
      ensures keys == [] ==> reply == BadRequest && disk == old(disk)
      ensures keys != [] ==>
        var outcome := Deletion(db, old(disk), keys);
        reply == Report(outcome.deleted, outcome.freedBytes, outcome.skipped) && disk == outcome.disk
    {
      if keys == [] {
        return BadRequest;
      }
      var deleted: nat, freed: nat := 0, 0;
      var skipped: seq<string> := [];
      hide Deletable, Length, Without;
      for i := 0 to |keys|
        invariant Deletion(db, old(disk), keys[..i]) == Outcome(disk, deleted, freed, skipped)
      {
        var key := keys[i];
        assert keys[..i + 1][..i] == keys[..i];
        if !Deletable(db, key) {
          skipped := skipped + [key];
        } else {
          freed := freed + Length(disk, key);
          DeleteObject(key);
          deleted := deleted + 1;
        }
      }
      assert keys[..|keys|] == keys;
      reply := Report(deleted, freed, skipped);
    }
  }
}
