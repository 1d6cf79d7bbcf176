/** What the integrity scan knows, row by row, and what the deletion reports: the keys it left alone, and bytes that add
    up. */
module OrphanReport {
  import opened Options
  import opened OrphanFiles
  import opened Paths

  // ---------------------------------------------------------------------------
  // What is known
  // ---------------------------------------------------------------------------

  /** The avatars folder is mentioned there. */
  predicate AvatarsAt(url: string, i: nat) {
    i <= |url| && "images/avatars/" <= url[i..]
  }

  predicate MentionedAt(url: string, key: string, i: nat) {
    AvatarsAt(url, i) && url[i..] == key && forall j: nat | j < i :: !AvatarsAt(url, j)
  }

  /** The key is the rest of the address from its first mention of the avatars folder on. */
  predicate Mentioned(url: string, key: string) {
    exists i: nat | i <= |url| :: MentionedAt(url, key, i)
  }

  lemma NextPlace(url: string, i: nat)
    requires url != ""
    ensures AvatarsAt(url, i + 1) <==> AvatarsAt(url[1..], i)
    ensures i < |url| ==> url[i + 1..] == url[1..][i..]
  {
    if i < |url| {
      assert url[i + 1..] == url[1..][i..];
    }
  }

  lemma MentionedLater(url: string, key: string, i: nat)
    requires url != "" && !AvatarsAt(url, 0)
    ensures MentionedAt(url, key, i + 1) <==> MentionedAt(url[1..], key, i)
  {
    NextPlace(url, i);
    if MentionedAt(url, key, i + 1) {
      forall j: nat | j < i
        ensures !AvatarsAt(url[1..], j)
      {
        NextPlace(url, j);
      }
    }
    if MentionedAt(url[1..], key, i) {
      forall j: nat | j < i + 1
        ensures !AvatarsAt(url, j)
      {
        if j > 0 {
          NextPlace(url, j - 1);
        }
      }
    }
  }

  lemma {:induction false} AvatarExactly(url: string, key: string)
    ensures AvatarIn(url) == Some(key) <==> Mentioned(url, key)
  {
    assert url[0..] == url;
    if AvatarsAt(url, 0) {
      assert MentionedAt(url, url, 0);
      hide AvatarsAt;
    } else if url != "" {
      AvatarExactly(url[1..], key);
      forall i: nat
        ensures MentionedAt(url, key, i + 1) <==> MentionedAt(url[1..], key, i)
      {
        MentionedLater(url, key, i);
      }
      assert !MentionedAt(url, key, 0);
      hide MentionedAt, AvatarsAt;
      if i: nat :| i <= |url| && MentionedAt(url, key, i) {
        assert MentionedAt(url[1..], key, i - 1);
      }
    }
  }

  /** A key is known exactly if a row names it: a blob's by user and hash, an uploaded artifact's or emulation save's by
      its id, an artwork's or souvenir's own, uploaded or not, and a user's two pictures and mirrored address. */
  lemma KnownExactly(db: Database, key: string)
    ensures key in Known(db)
            <==> || (exists b | b in db.blobs :: key == "cloud-saves/" + b.user + "/" + b.hash)
                 || (exists row | row in db.artifacts :: row.uploaded && key == "artifacts/" + row.key + ".tar")
                 || (exists row | row in db.emulationSaves ::
                       row.uploaded && key == "emulation-saves/" + row.key + ".bin")
                 || key in db.artworkKeys
                 || (exists row | row in db.souvenirs :: row.key == key)
                 || (exists u | u in db.users ::
                       || u.bannerKey == Some(key) || u.avatarKey == Some(key)
                       || (u.profileUrl.Some? && Mentioned(u.profileUrl.value, key)))
  {
    forall u | u in db.users
      ensures key in KnownOf(u)
              <==> || u.bannerKey == Some(key) || u.avatarKey == Some(key)
                   || (u.profileUrl.Some? && Mentioned(u.profileUrl.value, key))
    {
      if u.profileUrl.Some? {
        AvatarExactly(u.profileUrl.value, key);
      }
      hide Mentioned, AvatarIn;
    }
    hide Mentioned, KnownOf;
  }

  // ---------------------------------------------------------------------------
  // What the deletion reports
  // ---------------------------------------------------------------------------

  /** The keys the deletion leaves alone, in order: those that are unsafe, and those something still refers to. */
  function LeftAlone(db: Database, keys: seq<string>): seq<string> {
    if keys == [] then []
    else (if !SafeKey(keys[0]) || StillReferenced(db, keys[0]) then [keys[0]] else []) + LeftAlone(db, keys[1..])
  }

  lemma {:induction false} LeftAloneAtEnd(db: Database, keys: seq<string>)
    requires keys != []
    ensures var n := |keys| - 1;
            LeftAlone(db, keys)
            == LeftAlone(db, keys[..n]) + if !SafeKey(keys[n]) || StillReferenced(db, keys[n]) then [keys[n]] else []
  {
    hide SafeKey, StillReferenced;
    if |keys| > 1 {
      var n := |keys| - 1;
      LeftAloneAtEnd(db, keys[1..]);
      assert keys[..n][1..] == keys[1..][..n - 1] && keys[1..][n - 1] == keys[n];
    }
  }

  /** Every key is either counted as deleted or listed as left alone. */
  lemma {:induction false} ReportExactly(db: Database, disk: Disk, keys: seq<string>)
    ensures var outcome := Deletion(db, disk, keys);
            && outcome.skipped == LeftAlone(db, keys)
            && outcome.deleted + |outcome.skipped| == |keys|
  {
    hide SafeKey, StillReferenced, Length, Without;
    if keys != [] {
      ReportExactly(db, disk, keys[..|keys| - 1]);
      LeftAloneAtEnd(db, keys);
    }
  }

  ghost function Bytes(files: map<Path, nat>): nat
    decreases |files|
  {
    if files == map[] then 0
    else
      var path :| path in files;
      files[path] + Bytes(files - {path})
  }

  lemma {:induction false} BytesTake(files: map<Path, nat>, path: Path)
    requires path in files
    ensures Bytes(files) == files[path] + Bytes(files - {path})
    decreases |files|
  {
    var first :| first in files && Bytes(files) == files[first] + Bytes(files - {first});
    if first != path {
      BytesTake(files - {first}, path);
      BytesTake(files - {path}, first);
      assert files - {first} - {path} == files - {path} - {first};
    }
  }

  /** The lengths of the folders that deleted keys name: they are reported, but nothing goes. */
  function FolderBytes(db: Database, disk: Disk, keys: seq<string>): nat {
    if keys == [] then 0
    else
      var last := keys[|keys| - 1];
      FolderBytes(db, disk, keys[..|keys| - 1])
      + if Deletable(db, last) && PathOf(last) in disk.folders then disk.folders[PathOf(last)] else 0
  }

  /** No byte is lost or counted twice: what was stored is what is left and what the report says was freed, but for the
      lengths of folders among the keys. */
  lemma {:induction false} FreedIsGone(db: Database, disk: Disk, keys: seq<string>)
    requires disk.files.Keys !! disk.folders.Keys
    ensures var outcome := Deletion(db, disk, keys);
            && outcome.disk.folders == disk.folders && outcome.disk.files.Keys <= disk.files.Keys
            && Bytes(disk.files) + FolderBytes(db, disk, keys) == Bytes(outcome.disk.files) + outcome.freedBytes
  {
    hide Deletable, NamesFolder, PathOf, Bytes;
    if keys != [] {
      var n := |keys| - 1;
      FreedIsGone(db, disk, keys[..n]);
      OneKeyFrees(Deletion(db, disk, keys[..n]).disk, keys[n]);
      hide Length, Without;
    }
  }

  lemma OneKeyFrees(disk: Disk, key: string)
    requires disk.files.Keys !! disk.folders.Keys
    ensures var after := Without(disk, key);
            && after.folders == disk.folders && after.files.Keys <= disk.files.Keys
            && Bytes(disk.files) + (if PathOf(key) in disk.folders then disk.folders[PathOf(key)] else 0)
               == Bytes(after.files) + Length(disk, key)
  {
    var path := PathOf(key);
    if path in disk.files {
      BytesTake(disk.files, path);
    } else {
      assert disk.files - {path} == disk.files;
    }
    hide PathOf, NamesFolder, Bytes;
  }
}
