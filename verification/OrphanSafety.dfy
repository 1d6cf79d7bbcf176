/** Deleting orphans never takes a file some row names, except through a second spelling of its key. */
module OrphanSafety {
  import opened Likeness
  import opened Options
  import opened OrphanFiles
  import opened Paths

  // ---------------------------------------------------------------------------
  // Known keys are refused
  // ---------------------------------------------------------------------------

  /** What the rest of the server keeps: user ids without slashes, and in each column only keys of its area. */
  ghost predicate WellKept(db: Database) {
    && (forall b | b in db.blobs :: '/' !in b.user)
    && (forall key | key in db.artworkKeys :: "images/artwork/" <= key)
    && (forall row | row in db.souvenirs :: "images/souvenirs/" <= row.key)
    && (forall u | u in db.users :: ImagesWellKept(u))
  }

  predicate ImagesWellKept(u: User) {
    && (u.bannerKey.Some? ==> "images/banners/" <= u.bannerKey.value)
    && (u.avatarKey.Some? ==> AVATARS <= u.avatarKey.value)
  }

  lemma BlobIsReferenced(db: Database, b: Blob)
    requires b in db.blobs && '/' !in b.user
    ensures StillReferenced(db, BlobKey(b))
  {
    var key := BlobKey(b);
    var rest := key[|"cloud-saves/"|..];
    assert key == "cloud-saves/" + (b.user + "/" + b.hash);
    assert rest == b.user + "/" + b.hash;
    SplitsAt(b.user, b.hash);
  }

  lemma BetweenIs(prefix: string, id: string, suffix: string)
    ensures Between(prefix + id + suffix, prefix, suffix) == Some(id)
  {
  }

  /** Texts that differ at some index are not prefixes of one another. */
  lemma Apart(a: string, b: string, key: string, i: nat)
    requires i < |a| && i < |b| && a[i] != b[i] && a <= key
    ensures !(b <= key)
  {
  }

  lemma ArtifactIsReferenced(db: Database, row: Row)
    requires row in db.artifacts
    ensures StillReferenced(db, ArtifactKey(row.key))
  {
    var key := ArtifactKey(row.key);
    assert key == "artifacts/" + (row.key + ".tar");
    Apart("artifacts/", "cloud-saves/", key, 0);
    BetweenIs("artifacts/", row.key, ".tar");
  }

  lemma EmulationIsReferenced(db: Database, row: Row)
    requires row in db.emulationSaves
    ensures StillReferenced(db, EmulationKey(row.key))
  {
    var key := EmulationKey(row.key);
    assert key == "emulation-saves/" + (row.key + ".bin");
    Apart("emulation-saves/", "cloud-saves/", key, 0);
    Apart("emulation-saves/", "artifacts/", key, 0);
    BetweenIs("emulation-saves/", row.key, ".bin");
  }

  /** Keys of images go past the checks of the other areas. */
  lemma ImagesGoOn(db: Database, key: string)
    requires "images/" <= key
    ensures StillReferenced(db, key)
            == if "images/artwork/" <= key then key in db.artworkKeys
               else if "images/banners/" <= key || AVATARS <= key then
                 (exists u | u in db.users :: u.bannerKey == Some(key) || u.avatarKey == Some(key)) || Mentions(db, key)
               else true
  {
    Apart("images/", "cloud-saves/", key, 0);
    Apart("images/", "artifacts/", key, 0);
    Apart("images/", "emulation-saves/", key, 0);
    hide Mentions;
  }

  lemma {:induction false} AvatarEndsUrl(url: string)
    requires AvatarIn(url).Some?
    ensures AVATARS <= AvatarIn(url).value && EndsWithFolded(url, AvatarIn(url).value)
  {
    if !(AVATARS <= url) {
      AvatarEndsUrl(url[1..]);
      var key := AvatarIn(url).value;
      assert url[1..][|url| - 1 - |key|..] == url[|url| - |key|..];
    } else {
      assert url[0..] == url;
    }
  }

  lemma ProfileImagesGoOn(db: Database, key: string)
    requires "images/banners/" <= key || AVATARS <= key
    ensures StillReferenced(db, key)
            == ((exists u | u in db.users :: u.bannerKey == Some(key) || u.avatarKey == Some(key)) || Mentions(db, key))
  {
    assert "images/" <= "images/banners/" && "images/" <= AVATARS;
    ImagesGoOn(db, key);
    assert AVATARS[8] == 'v' && "images/artwork/"[8] == 'r';
    if AVATARS <= key {
      Apart(AVATARS, "images/artwork/", key, 8);
    } else {
      Apart("images/banners/", "images/artwork/", key, 7);
    }
    hide StillReferenced, Mentions;
  }

  lemma ImageIsReferenced(db: Database, u: User, key: string)
    requires u in db.users && ImagesWellKept(u) && key in KnownOf(u)
    ensures StillReferenced(db, key)
  {
    hide StillReferenced, Like, EscapeLike, EndsWithFolded, AvatarIn;
    if u.bannerKey != Some(key) && u.avatarKey != Some(key) {
      AvatarEndsUrl(u.profileUrl.value);
      SuffixMatches(key, u.profileUrl.value);
      assert Mentions(db, key);
    }
    ProfileImagesGoOn(db, key);
  }

  lemma RowsAreReferenced(db: Database, key: string)
    requires forall b | b in db.blobs :: '/' !in b.user
    requires key in KnownBlobs(db.blobs) + KnownArtifacts(db.artifacts) + KnownSaves(db.emulationSaves)
    ensures StillReferenced(db, key)
  {
    hide StillReferenced, BlobKey, ArtifactKey, EmulationKey;
    if key in KnownBlobs(db.blobs) {
      var b :| b in db.blobs && BlobKey(b) == key;
      BlobIsReferenced(db, b);
    } else if key in KnownArtifacts(db.artifacts) {
      var row :| row in db.artifacts && row.uploaded && ArtifactKey(row.key) == key;
      ArtifactIsReferenced(db, row);
    } else {
      var row :| row in db.emulationSaves && row.uploaded && EmulationKey(row.key) == key;
      EmulationIsReferenced(db, row);
    }
  }

  lemma ArtworkIsReferenced(db: Database, key: string)
    requires key in db.artworkKeys && "images/artwork/" <= key
    ensures StillReferenced(db, key)
  {
    assert "images/" <= "images/artwork/";
    ImagesGoOn(db, key);
    hide StillReferenced;
  }

  /** Deletion does not look at souvenirs: it leaves their whole area alone. */
  lemma SouvenirsAreReferenced(db: Database, key: string)
    requires "images/souvenirs/" <= key
    ensures StillReferenced(db, key)
  {
    assert "images/" <= "images/souvenirs/";
    ImagesGoOn(db, key);
    Apart("images/souvenirs/", "images/artwork/", key, 7);
    Apart("images/souvenirs/", "images/banners/", key, 7);
    Apart("images/souvenirs/", AVATARS, key, 7);
    hide StillReferenced;
  }

  /** Every key the scan counts as known is one the deletion refuses. */
  lemma KnownIsReferenced(db: Database, key: string)
    requires WellKept(db) && key in Known(db)
    ensures StillReferenced(db, key)
  {
    hide StillReferenced, KnownBlobs, KnownArtifacts, KnownSaves, KnownOf, ImagesWellKept;
    if key in KnownBlobs(db.blobs) + KnownArtifacts(db.artifacts) + KnownSaves(db.emulationSaves) {
      RowsAreReferenced(db, key);
    } else if key in db.artworkKeys {
      ArtworkIsReferenced(db, key);
    } else if key in KnownSouvenirs(db.souvenirs) {
      SouvenirsAreReferenced(db, key);
    } else {
      var u :| u in db.users && key in KnownOf(u);
      ImageIsReferenced(db, u, key);
    }
  }

  // ---------------------------------------------------------------------------
  // Files
  // ---------------------------------------------------------------------------

  ghost predicate Removes(db: Database, key: string, path: Path) {
    Deletable(db, key) && !NamesFolder(key) && PathOf(key) == path
  }

  ghost predicate RemovedBy(db: Database, keys: seq<string>, path: Path) {
    exists key | key in keys :: Removes(db, key, path)
  }

  lemma OneMoreRemoval(db: Database, keys: seq<string>, path: Path)
    requires keys != []
    ensures RemovedBy(db, keys, path)
            <==> RemovedBy(db, keys[..|keys| - 1], path) || Removes(db, keys[|keys| - 1], path)
  {
  }

  /** A file goes exactly if some key of the list names it, is safe and is not referenced; every other file stays
      as it was. */
  lemma {:induction false} DeletionRemovesExactly(db: Database, disk: Disk, keys: seq<string>, path: Path)
    ensures var after := Deletion(db, disk, keys).disk.files;
            && (path in after <==> path in disk.files && !RemovedBy(db, keys, path))
            && (path in after ==> after[path] == disk.files[path])
  {
    hide Deletable, NamesFolder, PathOf, Length, RemovedBy;
    if keys == [] {
      NothingRemoved(db, path);
    } else {
      DeletionRemovesExactly(db, disk, keys[..|keys| - 1], path);
      OneMoreRemoval(db, keys, path);
    }
  }

  lemma NothingRemoved(db: Database, path: Path)
    ensures !RemovedBy(db, [], path)
  {
  }

  // ---------------------------------------------------------------------------
  // Second spellings
  // ---------------------------------------------------------------------------

  /** Every key some row stands for, landed or not. */
  function RowKeys(db: Database): set<string> {
    Known(db)
    + (set row | row in db.artifacts :: ArtifactKey(row.key))
    + (set row | row in db.emulationSaves :: EmulationKey(row.key))
  }

  predicate ProfileImage(key: string) {
    "images/banners/" <= key || AVATARS <= key
  }

  /** The areas whose keys the deletion looks up. */
  predicate LookedUp(key: string) {
    || "cloud-saves/" <= key
    || Between(key, "artifacts/", ".tar").Some?
    || Between(key, "emulation-saves/", ".bin").Some?
    || "images/artwork/" <= key
    || ProfileImage(key)
  }

  /** Another way to write a key of the same file, in an area whose keys are looked up as text. */
  ghost predicate SecondSpelling(db: Database, key: string, known: string) {
    && SafeKey(key) && !NamesFolder(key)
    && key != known && PathOf(key) == PathOf(known)
    && LookedUp(key)
    && !(ProfileImage(key) && Mentions(db, key))
  }

  lemma BetweenRestores(key: string, prefix: string, suffix: string)
    requires Between(key, prefix, suffix).Some?
    ensures key == prefix + Between(key, prefix, suffix).value + suffix
  {
  }

  lemma ReferencedBlobIsARow(db: Database, key: string)
    requires "cloud-saves/" <= key && StillReferenced(db, key)
    ensures key in RowKeys(db)
  {
    var rest := key[|"cloud-saves/"|..];
    var at := FirstSlash(rest);
    var b := Blob(rest[..at], rest[at + 1..]);
    assert rest == b.user + "/" + b.hash;
    assert key == BlobKey(b);
    assert BlobKey(b) in KnownBlobs(db.blobs);
  }

  lemma ReferencedTextIsARow(db: Database, key: string)
    requires LookedUp(key) && !("cloud-saves/" <= key) && StillReferenced(db, key)
    requires ProfileImage(key) ==> !Mentions(db, key)
    ensures key in RowKeys(db)
  {
    hide ArtifactKey, EmulationKey, Mentions;
    if Between(key, "artifacts/", ".tar").Some? {
      BetweenRestores(key, "artifacts/", ".tar");
      SpelledArtifact(db, Between(key, "artifacts/", ".tar").value, key);
    } else if Between(key, "emulation-saves/", ".bin").Some? {
      BetweenRestores(key, "emulation-saves/", ".bin");
      SpelledSave(db, Between(key, "emulation-saves/", ".bin").value, key);
    } else if !("images/artwork/" <= key) {
      var u :| u in db.users && (u.bannerKey == Some(key) || u.avatarKey == Some(key));
      assert key in KnownOf(u);
    }
  }

  lemma SpelledArtifact(db: Database, id: string, key: string)
    requires key == "artifacts/" + id + ".tar" && exists row | row in db.artifacts :: row.key == id
    ensures key in RowKeys(db)
  {
  }

  lemma SpelledSave(db: Database, id: string, key: string)
    requires key == "emulation-saves/" + id + ".bin" && exists row | row in db.emulationSaves :: row.key == id
    ensures key in RowKeys(db)
  {
  }

  /** A key is looked up as text, so a spelling no row uses is nobody's. */
  lemma SecondSpellingIsDeletable(db: Database, key: string, known: string)
    requires SecondSpelling(db, key, known) && key !in RowKeys(db)
    ensures Deletable(db, key)
  {
    hide PathOf, NamesFolder, SafeKey, Mentions, RowKeys;
    if StillReferenced(db, key) {
      if "cloud-saves/" <= key {
        ReferencedBlobIsARow(db, key);
      } else {
        ReferencedTextIsARow(db, key);
      }
      assert false;
    }
  }

  lemma UnreferencedIsLookedUp(db: Database, key: string)
    requires !StillReferenced(db, key)
    ensures LookedUp(key) && !(ProfileImage(key) && Mentions(db, key))
  {
    if ProfileImage(key) {
      ProfileImagesGoOn(db, key);
    }
    hide Mentions;
  }

  /** Rows whose upload has not landed are asked for as well. */
  lemma RowKeyIsReferenced(db: Database, key: string)
    requires WellKept(db) && key in RowKeys(db)
    ensures StillReferenced(db, key)
  {
    hide StillReferenced, Known, ArtifactKey, EmulationKey, WellKept;
    if key in Known(db) {
      KnownIsReferenced(db, key);
    } else if row :| row in db.artifacts && ArtifactKey(row.key) == key {
      ArtifactIsReferenced(db, row);
    } else {
      var row :| row in db.emulationSaves && EmulationKey(row.key) == key;
      EmulationIsReferenced(db, row);
    }
  }

  lemma RemovedIsSecondSpelling(db: Database, key: string, known: string)
    requires WellKept(db) && known in RowKeys(db) && Removes(db, key, PathOf(known))
    ensures SecondSpelling(db, key, known) && key !in RowKeys(db)
  {
    hide WellKept, RowKeys, PathOf, NamesFolder, SafeKey, LookedUp, StillReferenced, Mentions, ProfileImage;
    UnreferencedIsLookedUp(db, key);
    if key in RowKeys(db) {
      RowKeyIsReferenced(db, key);
    }
  }

  lemma KnownIsRowKey(db: Database, known: string)
    requires known in Known(db)
    ensures known in RowKeys(db)
  {
  }

  /** The file of a known key is lost exactly if the list holds a second spelling of the key that no row uses. */
  lemma KnownFileIsLostExactly(db: Database, disk: Disk, keys: seq<string>, known: string)
    requires WellKept(db) && known in Known(db) && PathOf(known) in disk.files
    ensures PathOf(known) !in Deletion(db, disk, keys).disk.files
            <==> exists key | key in keys :: SecondSpelling(db, key, known) && key !in RowKeys(db)
  {
    hide WellKept, Known, RowKeys, PathOf, NamesFolder, SafeKey, LookedUp, StillReferenced, Mentions, ProfileImage;
    DeletionRemovesExactly(db, disk, keys, PathOf(known));
    KnownIsRowKey(db, known);
    hide Deletion;
    forall key | key in keys
      ensures Removes(db, key, PathOf(known)) <==> SecondSpelling(db, key, known) && key !in RowKeys(db)
    {
      if SecondSpelling(db, key, known) && key !in RowKeys(db) {
        SecondSpellingIsDeletable(db, key, known);
      }
      if Removes(db, key, PathOf(known)) {
        RemovedIsSecondSpelling(db, key, known);
      }
    }
  }

  /** With canonical keys, which are all the scan lists, no file is lost whose known key is canonical. */
  lemma CanonicalKeysLoseNothing(db: Database, disk: Disk, keys: seq<string>, known: string)
    requires WellKept(db) && known in Known(db) && Canonical(known) && PathOf(known) in disk.files
    requires forall key | key in keys :: Canonical(key)
    ensures PathOf(known) in Deletion(db, disk, keys).disk.files
    ensures Deletion(db, disk, keys).disk.files[PathOf(known)] == disk.files[PathOf(known)]
  {
    hide WellKept, Known, RowKeys, Canonical, PathOf, Deletion, SafeKey, NamesFolder, LookedUp, Mentions, ProfileImage;
    KnownFileIsLostExactly(db, disk, keys, known);
    DeletionRemovesExactly(db, disk, keys, PathOf(known));
    if key :| key in keys && SecondSpelling(db, key, known) {
      CanonicalIsUnique(key, known);
      assert false;
    }
  }

  lemma SpelledTwice(b: Blob)
    requires '/' !in b.user && '/' !in b.hash
    ensures Components(BlobKey(b)) == ["cloud-saves", b.user, b.hash]
    ensures Components("cloud-saves//" + b.user + "/" + b.hash) == ["cloud-saves", "", b.user, b.hash]
  {
    hide Components;
    var tail := b.user + "/" + b.hash;
    OneComponent(b.hash);
    ComponentsAfter(b.user, b.hash);
    ComponentsAfter("cloud-saves", tail);
    assert BlobKey(b) == "cloud-saves" + "/" + tail;
    ComponentsAfter("", tail);
    ComponentsAfter("cloud-saves", "" + "/" + tail);
    assert "cloud-saves//" + b.user + "/" + b.hash == "cloud-saves" + "/" + ("" + "/" + tail);
  }

  lemma SlashDoubledIsSafe(b: Blob)
    requires SafeKey(BlobKey(b)) && b.user != ""
    ensures SafeKey("cloud-saves//" + b.user + "/" + b.hash)
  {
    var key, n := "cloud-saves//" + b.user + "/" + b.hash, |"cloud-saves/"|;
    assert forall i | n < i < |key| :: key[i] == BlobKey(b)[i - 1];
    assert forall i | 0 <= i < n :: key[i] == BlobKey(b)[i];
    assert key[n] == '/';
  }

  /** Every blob's key has a second spelling. */
  lemma DoubledSlash(db: Database, b: Blob)
    requires b in db.blobs && '/' !in b.user && '/' !in b.hash && Plain(b.user) && Plain(b.hash)
    requires SafeKey(BlobKey(b))
    ensures var key := "cloud-saves//" + b.user + "/" + b.hash;
            SecondSpelling(db, key, BlobKey(b)) && !Canonical(key)
  {
    hide SafeKey, Components, LookedUp;
    var key := "cloud-saves//" + b.user + "/" + b.hash;
    SpelledTwice(b);
    SlashDoubledIsSafe(b);
    assert "" in ["cloud-saves", "", b.user, b.hash];
    PlainNames([b.user, b.hash]);
    assert Naming(["", b.user, b.hash]) == [b.user, b.hash] by {
      assert ["", b.user, b.hash][1..] == [b.user, b.hash];
    }
    SkipsTheSame(["", b.user, b.hash], [b.user, b.hash]);
    LooksUpBlobs(key, "/" + b.user + "/" + b.hash);
  }

  lemma SkipsTheSame(parts: Path, others: Path)
    requires Naming(parts) == Naming(others)
    ensures Naming(["cloud-saves"] + parts) == Naming(["cloud-saves"] + others)
  {
  }

  lemma LooksUpBlobs(key: string, rest: string)
    requires key == "cloud-saves/" + rest
    ensures LookedUp(key) && !ProfileImage(key)
  {
    Apart("cloud-saves/", "images/banners/", key, 0);
    Apart("cloud-saves/", AVATARS, key, 0);
  }
}
