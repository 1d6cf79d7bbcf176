/** When blob rows keep their files, and saves with them: always, but for a deletion by hand that names a row's file
    by a second spelling of its key. */
module CloudBacking {
  import opened Digests
  import opened Options
  import opened Paths
  import opened CloudSaves
  import opened CloudInvariant
  import opened CloudRuns
  import OrphanFiles
  import OrphanSafety

  // ---------------------------------------------------------------------------
  // Keys as text
  // ---------------------------------------------------------------------------

  /** A user id and a hash that are ordinary file names, as all the server writes are. */
  predicate PlainKey(key: BlobKey, write: Writing) {
    Plain(key.user) && '/' !in key.user && Plain(write(key.hash)) && '/' !in write(key.hash)
  }

  ghost predicate PlainRows(s: Store, write: Writing) {
    forall key | key in s.blobs :: PlainKey(key, write)
  }

  /** Another way to write the path of a file, within the Cloud Save area. */
  predicate SecondSpelling(text: string, known: string) {
    "cloud-saves/" <= text && SafeKey(text) && !Canonical(text) && !NamesFolder(text) && PathOf(text) == PathOf(known)
  }

  lemma TextIsCanonical(key: BlobKey, write: Writing)
    requires PlainKey(key, write)
    ensures Canonical(TextOf(key, write)) && PathOf(TextOf(key, write)) == ["cloud-saves", key.user, write(key.hash)]
    ensures OrphanFiles.BlobNamed(TextOf(key, write)) == Some(RowOf(key, write))
  {
    var text, b := TextOf(key, write), RowOf(key, write);
    OrphanSafety.SpelledTwice(b);
    CanonicalPath(text);
    assert text[|"cloud-saves/"|..] == b.user + "/" + b.hash;
    SplitsAt(b.user, b.hash);
    hide PathOf, Components;
  }

  lemma NamedTextIs(text: string)
    requires OrphanFiles.BlobNamed(text).Some?
    ensures OrphanFiles.BlobKey(OrphanFiles.BlobNamed(text).value) == text
  {
  }

  /** A row's own spelling is refused, so what takes its file is a second one. */
  lemma TakenIsSecond(s: Store, text: string, write: Writing, key: BlobKey)
    requires PlainKey(key, write) && key in s.blobs && Takes(s, text, write, key)
    ensures SecondSpelling(text, TextOf(key, write))
  {
    hide Canonical, PathOf, NamesFolder, SafeKey, TextOf, OrphanFiles.BlobNamed;
    TextIsCanonical(key, write);
    if Canonical(text) {
      CanonicalIsUnique(text, TextOf(key, write));
      assert false;
    }
  }

  /** A second spelling is no row's own, so it takes the file. */
  lemma SecondIsTaken(s: Store, text: string, write: Writing, key: BlobKey)
    requires PlainRows(s, write) && SecondSpelling(text, TextOf(key, write))
    ensures Takes(s, text, write, key)
  {
    hide Canonical, PathOf, NamesFolder, SafeKey, TextOf, OrphanFiles.BlobNamed;
    if NamesRow(s, text, write) {
      var other :| other in s.blobs && OrphanFiles.BlobNamed(text) == Some(RowOf(other, write));
      TextIsCanonical(other, write);
      NamedTextIs(text);
      assert text == TextOf(other, write) by { WrittenAs(other, write); }
      assert false;
    }
  }

  /** A text takes a row's file exactly if it is a second spelling of the row's key. */
  lemma TakesExactly(s: Store, text: string, write: Writing, key: BlobKey)
    requires PlainRows(s, write) && key in s.blobs
    ensures Takes(s, text, write, key) <==> SecondSpelling(text, TextOf(key, write))
  {
    hide Takes, SecondSpelling;
    if Takes(s, text, write, key) {
      TakenIsSecond(s, text, write, key);
    }
    if SecondSpelling(text, TextOf(key, write)) {
      SecondIsTaken(s, text, write, key);
    }
  }

  lemma WrittenAs(key: BlobKey, write: Writing)
    ensures TextOf(key, write) == OrphanFiles.BlobKey(RowOf(key, write))
  {
  }

  lemma FirstFolder(text: string, area: string)
    requires area + "/" <= text && '/' !in area && !Skipped(area)
    ensures PathOf(text) != [] && PathOf(text)[0] == area
  {
    var tail := text[|area| + 1..];
    assert text == area + "/" + tail;
    ComponentsAfter(area, tail);
    hide Components;
  }

  /** The deletion here is the one of the whole storage, on the rows it shares with it. */
  lemma DeletionAgrees(s: Store, db: OrphanFiles.Database, text: string, write: Writing, key: BlobKey)
    requires PlainKey(key, write)
    requires forall b :: b in db.blobs <==> exists other | other in s.blobs :: RowOf(other, write) == b
    ensures Takes(s, text, write, key) <==> OrphanSafety.Removes(db, text, PathOf(TextOf(key, write)))
  {
    TextIsCanonical(key, write);
    if "cloud-saves/" <= text {
      assert OrphanFiles.StillReferenced(db, text) == NamesRow(s, text, write) by {
        hide OrphanFiles.BlobNamed;
      }
      hide OrphanFiles.StillReferenced, NamesRow, PathOf, NamesFolder, SafeKey;
    } else if OrphanSafety.Removes(db, text, PathOf(TextOf(key, write))) {
      OrphanSafety.UnreferencedIsLookedUp(db, text);
      InAnotherArea(text);
      hide OrphanFiles.StillReferenced, PathOf, NamesFolder, SafeKey;
      assert false;
    }
  }

  lemma InAnotherArea(text: string)
    requires OrphanSafety.LookedUp(text) && !("cloud-saves/" <= text)
    ensures PathOf(text) != [] && PathOf(text)[0] in {"artifacts", "emulation-saves", "images"}
  {
    hide PathOf;
    if "artifacts" + "/" <= text {
      FirstFolder(text, "artifacts");
    } else if "emulation-saves" + "/" <= text {
      FirstFolder(text, "emulation-saves");
    } else {
      assert "images" + "/" <= "images/artwork/" && "images" + "/" <= "images/banners/"
             && "images" + "/" <= OrphanFiles.AVATARS;
      FirstFolder(text, "images");
    }
  }

  // ---------------------------------------------------------------------------
  // One step, seen from one key
  // ---------------------------------------------------------------------------

  /** If the key has a row, the row has its file. */
  predicate KeyBacked(s: Store, key: BlobKey) {
    key in s.blobs ==> key in s.disk
  }

  /** The step is a deletion by hand that lists a second spelling of the key. */
  predicate Lists(op: Op, key: BlobKey) {
    op.DeleteOrphanFilesOp? && exists text | text in op.texts :: SecondSpelling(text, TextOf(key, op.write))
  }

  lemma RegisteredIsBacked(s: Store, user: string, files: seq<File>, key: BlobKey)
    requires KeyBacked(s, key) && forall i | 0 <= i < |files| :: Arrived(s, user, files[i])
    ensures KeyBacked(s.(blobs := Registered(s.blobs, user, files)), key)
  {
    RegisteredHas(s.blobs, user, files, key);
    if key.user == user && Names(files, key.hash) {
      var i :| 0 <= i < |files| && files[i].hash == key.hash;
      assert Arrived(s, user, files[i]);
    }
  }

  lemma CommitKeepsKey(s: Store, user: string, id: string, now: int, autoDelete: bool, key: BlobKey)
    requires KeyBacked(s, key)
    ensures KeyBacked(Commit(s, user, id, now, autoDelete).0, key)
  {
    hide Registered, Orphans;
    if id in s.snapshots && id in s.manifests && s.snapshots[id].user == user && s.snapshots[id].status.Pending? {
      var files := s.manifests[id];
      RegisteredIsBacked(s, user, files[..ArrivedPrefix(s, user, files)], key);
      hide ArrivedPrefix;
    }
  }

  lemma OthersKeepKey(s: Store, op: Op, key: BlobKey)
    requires KeyBacked(s, key) && !op.DeleteOrphanFilesOp?
    ensures KeyBacked(Step(s, op).0, key)
  {
    hide Orphans, Owners, CurrentVersion, Commit, Stale, StaleOf, Versions, Plans, WellFormed;
    if op.CommitOp? {
      CommitKeepsKey(s, op.user, op.id, op.now, op.autoDelete, key);
    }
  }

  /** A row keeps its file at every step but a deletion by hand that lists a second spelling of its key. */
  lemma StepKeepsKey(s: Store, op: Op, key: BlobKey)
    requires KeyBacked(s, key) && !Lists(op, key)
    requires op.DeleteOrphanFilesOp? ==> PlainKey(key, op.write)
    ensures KeyBacked(Step(s, op).0, key)
  {
    if op.DeleteOrphanFilesOp? {
      hide SecondSpelling, Takes, TextOf;
      if key in s.blobs {
        forall text | text in op.texts
          ensures !Takes(s, text, op.write, key)
        {
          if Takes(s, text, op.write, key) {
            TakenIsSecond(s, text, op.write, key);
          }
        }
      }
    } else {
      OthersKeepKey(s, op, key);
    }
  }

  /** And such a deletion takes the file, with or without a row. */
  lemma ListingTakes(s: Store, op: Op, key: BlobKey)
    requires Lists(op, key) && PlainRows(s, op.write)
    ensures key !in Step(s, op).0.disk
  {
    hide SecondSpelling, Takes, TextOf, PlainRows;
    var text :| text in op.texts && SecondSpelling(text, TextOf(key, op.write));
    SecondIsTaken(s, text, op.write, key);
  }

  ghost predicate NamesTwice(s: Store, op: Op) {
    exists key | key in s.blobs :: Lists(op, key)
  }

  /** Of all steps, exactly the deletion by hand of a second spelling of a row's key takes a row's file. */
  lemma StepKeepsBackingExactly(s: Store, op: Op)
    requires Backed(s) && (op.DeleteOrphanFilesOp? ==> PlainRows(s, op.write))
    ensures Backed(Step(s, op).0) <==> !NamesTwice(s, op)
  {
    hide Step, Lists;
    var t := Step(s, op).0;
    if NamesTwice(s, op) {
      var key :| key in s.blobs && Lists(op, key);
      OnlyDeletionsList(op, key);
      ListingTakes(s, op, key);
      DeletionsKeepRows(s, op);
    } else {
      forall key | key in t.blobs
        ensures key in t.disk
      {
        if op.DeleteOrphanFilesOp? {
          DeletionsKeepRows(s, op);
        }
        if key in s.blobs || !op.DeleteOrphanFilesOp? {
          if !op.DeleteOrphanFilesOp? {
            OthersDoNotList(op, key);
          }
          StepKeepsKey(s, op, key);
        }
      }
    }
  }

  lemma OnlyDeletionsList(op: Op, key: BlobKey)
    requires Lists(op, key)
    ensures op.DeleteOrphanFilesOp?
  {
  }

  lemma OthersDoNotList(op: Op, key: BlobKey)
    requires !op.DeleteOrphanFilesOp?
    ensures !Lists(op, key)
  {
  }

  lemma DeletionsKeepRows(s: Store, op: Op)
    requires op.DeleteOrphanFilesOp?
    ensures Step(s, op).0.blobs == s.blobs
  {
  }

  /** Canonical texts are never second spellings. */
  lemma CanonicalTextsNameOnce(op: Op, key: BlobKey)
    requires op.DeleteOrphanFilesOp? ==> forall text | text in op.texts :: Canonical(text)
    ensures !Lists(op, key)
  {
    hide Canonical, TextOf;
  }

  // ---------------------------------------------------------------------------
  // Runs, seen from one key
  // ---------------------------------------------------------------------------

  /** A file that is not there is not there until it is sent. */
  lemma GoneUntilSent(s: Store, op: Op, key: BlobKey)
    requires key !in s.disk && !Uploads(op, key)
    ensures key !in Step(s, op).0.disk
  {
    hide Orphans, Owners, CurrentVersion, Stale, StaleOf, Versions, Plans, WellFormed, Registered, ArrivedPrefix, Takes;
  }

  lemma SentIsThere(s: Store, op: Op, key: BlobKey)
    requires Uploads(op, key)
    ensures key in Step(s, op).0.disk
  {
  }

  /** Every listing of a second spelling of the key is followed by an upload of its file. */
  predicate SentAgain(ops: seq<Op>, key: BlobKey) {
    forall n | 0 <= n < |ops| && Lists(ops[n], key) :: SentAfter(ops, n, key)
  }

  predicate SentAfter(ops: seq<Op>, n: nat, key: BlobKey) {
    exists m | n < m < |ops| :: Uploads(ops[m], key)
  }

  ghost predicate PlainlyWritten(ops: seq<Op>, key: BlobKey) {
    forall n | 0 <= n < |ops| && ops[n].DeleteOrphanFilesOp? :: PlainKey(key, ops[n].write)
  }

  ghost predicate PlainRowsAtDeletions(s: Store, ops: seq<Op>) {
    forall n | 0 <= n < |ops| && ops[n].DeleteOrphanFilesOp? :: PlainRows(StateAt(s, ops, n), ops[n].write)
  }

  /** From a state in which the key's row, if it has one, has its file: it still has, up to step `c`, if each listing
      before has been answered by an upload before. */
  lemma {:induction false} BackedAt(s: Store, ops: seq<Op>, key: BlobKey, c: nat)
    requires c <= |ops| && KeyBacked(s, key) && PlainlyWritten(ops, key)
    requires forall n | 0 <= n < c && Lists(ops[n], key) :: exists m | n < m < c :: Uploads(ops[m], key)
    ensures KeyBacked(StateAt(s, ops, c), key)
  {
    hide StateAt, Step, Lists, Uploads, KeyBacked;
    if n :| 0 <= n < c && Uploads(ops[n], key) && forall m | n < m < c :: !Uploads(ops[m], key) {
      StateAtNext(s, ops, n);
      SentIsThere(StateAt(s, ops, n), ops[n], key);
      ThereIsBacked(StateAt(s, ops, n + 1), key);
      StaysBacked(s, ops, key, n + 1, c);
    } else {
      NoLastUpload(ops, key, c);
      StartsThere(s, ops);
      StaysBacked(s, ops, key, 0, c);
    }
  }

  lemma StartsThere(s: Store, ops: seq<Op>)
    ensures StateAt(s, ops, 0) == s
  {
  }

  lemma ThereIsBacked(s: Store, key: BlobKey)
    requires key in s.disk
    ensures KeyBacked(s, key)
  {
  }

  /** If no upload is the last, there is none. */
  lemma {:induction false} NoLastUpload(ops: seq<Op>, key: BlobKey, c: nat)
    requires c <= |ops|
    requires !exists n :: 0 <= n < c && Uploads(ops[n], key) && forall m | n < m < c :: !Uploads(ops[m], key)
    ensures forall n | 0 <= n < c :: !Uploads(ops[n], key)
  {
    hide Uploads;
    var k := c;
    while k > 0
      invariant 0 <= k <= c && forall m | k <= m < c :: !Uploads(ops[m], key)
    {
      k := k - 1;
    }
  }

  lemma {:induction false} StaysBacked(s: Store, ops: seq<Op>, key: BlobKey, from: nat, c: nat)
    requires from <= c <= |ops| && KeyBacked(StateAt(s, ops, from), key) && PlainlyWritten(ops, key)
    requires forall n | from <= n < c :: !Lists(ops[n], key)
    ensures KeyBacked(StateAt(s, ops, c), key)
    decreases c
  {
    hide StateAt, Step, Lists, KeyBacked;
    if from < c {
      StaysBacked(s, ops, key, from, c - 1);
      StateAtNext(s, ops, c - 1);
      StepKeepsKey(StateAt(s, ops, c - 1), ops[c - 1], key);
    }
  }

  lemma {:induction false} StaysGone(s: Store, ops: seq<Op>, key: BlobKey, from: nat, c: nat)
    requires from <= c <= |ops| && key !in StateAt(s, ops, from).disk
    requires forall m | from <= m < c :: !Uploads(ops[m], key)
    ensures key !in StateAt(s, ops, c).disk
    decreases c
  {
    hide StateAt, Step, Uploads;
    if from < c {
      StaysGone(s, ops, key, from, c - 1);
      StateAtNext(s, ops, c - 1);
      GoneUntilSent(StateAt(s, ops, c - 1), ops[c - 1], key);
    }
  }

  lemma EndsThere(s: Store, ops: seq<Op>)
    ensures StateAt(s, ops, |ops|) == After(s, ops)
  {
    assert ops[..|ops|] == ops;
  }

  /** A row has its file at the end of a run if every listing of a second spelling of its key was followed by an
      upload of the file. */
  lemma RowHasItsFile(s: Store, ops: seq<Op>, key: BlobKey)
    requires KeyBacked(s, key) && PlainlyWritten(ops, key) && SentAgain(ops, key)
    ensures KeyBacked(After(s, ops), key)
  {
    hide StateAt, After, Lists, Uploads, KeyBacked, PlainlyWritten;
    forall n | 0 <= n < |ops| && Lists(ops[n], key)
      ensures exists m | n < m < |ops| :: Uploads(ops[m], key)
    {
      assert SentAfter(ops, n, key);
    }
    BackedAt(s, ops, key, |ops|);
    EndsThere(s, ops);
  }

  /** And only then. */
  lemma RowHasItsFileExactly(s: Store, ops: seq<Op>, key: BlobKey)
    requires KeyBacked(s, key) && key in After(s, ops).blobs
    requires PlainlyWritten(ops, key) && PlainRowsAtDeletions(s, ops)
    ensures key in After(s, ops).disk <==> SentAgain(ops, key)
  {
    if SentAgain(ops, key) {
      RowHasItsFile(s, ops, key);
    } else {
      hide StateAt, After, Lists, Uploads, PlainRows, PlainlyWritten, Step;
      var n :| 0 <= n < |ops| && Lists(ops[n], key) && !SentAfter(ops, n, key);
      OnlyDeletionsList(ops[n], key);
      StateAtNext(s, ops, n);
      ListingTakes(StateAt(s, ops, n), ops[n], key);
      StaysGone(s, ops, key, n + 1, |ops|);
      EndsThere(s, ops);
    }
  }

  // ---------------------------------------------------------------------------
  // Restoring
  // ---------------------------------------------------------------------------

  /** The bytes of a saved file, found the way a download finds them. */
  ghost predicate CanRestore(s: Store, id: string, i: nat)
    requires id in s.snapshots && id in s.manifests && i < |s.manifests[id]|
  {
    var file := s.manifests[id][i];
    var key := BlobKey(s.snapshots[id].user, file.hash);
    key in s.blobs && key in s.disk && Sha256(s.disk[key]) == file.hash.digest && |s.disk[key]| == file.sizeBytes
  }

  ghost predicate Kept(s: Store, id: string, i: nat) {
    id in s.snapshots && !s.snapshots[id].status.Pending? && id in s.manifests && i < |s.manifests[id]|
  }

  function KeptKey(s: Store, id: string, i: nat): BlobKey
    requires id in s.snapshots && id in s.manifests && i < |s.manifests[id]|
  {
    BlobKey(s.snapshots[id].user, s.manifests[id][i].hash)
  }

  lemma KeptRestores(s: Store, id: string, i: nat)
    requires Inv(s) && Kept(s, id, i)
    ensures KeptKey(s, id, i) in s.blobs && (CanRestore(s, id, i) <==> KeptKey(s, id, i) in s.disk)
  {
    assert FileKept(s, s.snapshots[id].user, s.manifests[id][i]);
  }

  /** Whatever has run, deletions by hand included, every file of every committed or kept snapshot has its row, and
      what is on disk for it has its hash and its size. */
  lemma WhatIsThereRestores(ops: seq<Op>, id: string, i: nat)
    requires Kept(After(EMPTY, ops), id, i)
    ensures var s := After(EMPTY, ops);
            KeptKey(s, id, i) in s.blobs && (CanRestore(s, id, i) <==> KeptKey(s, id, i) in s.disk)
  {
    hide After, CanRestore;
    ReachableInv(EMPTY, ops);
    KeptRestores(After(EMPTY, ops), id, i);
  }

  /** Whatever handlers and jobs have run, a file of a committed or kept snapshot is on disk with its row, its hash
      and its size if and only if every deletion by hand that listed a second spelling of its own key was followed by
      an upload of it. */
  lemma RestoresExactly(ops: seq<Op>, id: string, i: nat)
    requires Kept(After(EMPTY, ops), id, i) && PlainRowsAtDeletions(EMPTY, ops)
    requires PlainlyWritten(ops, KeptKey(After(EMPTY, ops), id, i))
    ensures CanRestore(After(EMPTY, ops), id, i) <==> SentAgain(ops, KeptKey(After(EMPTY, ops), id, i))
  {
    hide After, CanRestore, SentAgain, PlainlyWritten, PlainRowsAtDeletions, KeptKey;
    WhatIsThereRestores(ops, id, i);
    RowHasItsFileExactly(EMPTY, ops, KeptKey(After(EMPTY, ops), id, i));
  }

  /** So every saved file restores along runs that never list a second spelling of its key, whatever they list of
      others'. */
  lemma EverySaveRestores(ops: seq<Op>, id: string, i: nat)
    requires Kept(After(EMPTY, ops), id, i)
    requires PlainlyWritten(ops, KeptKey(After(EMPTY, ops), id, i))
    requires forall op | op in ops :: !Lists(op, KeptKey(After(EMPTY, ops), id, i))
    ensures CanRestore(After(EMPTY, ops), id, i)
  {
    hide After, CanRestore, Lists, PlainlyWritten, KeptKey;
    WhatIsThereRestores(ops, id, i);
    RowHasItsFile(EMPTY, ops, KeptKey(After(EMPTY, ops), id, i));
  }

  function DoubledSlash(key: BlobKey, write: Writing): string {
    "cloud-saves//" + key.user + "/" + write(key.hash)
  }

  lemma DoubledSlashIsSecond(key: BlobKey, write: Writing)
    requires PlainKey(key, write) && SafeKey(TextOf(key, write))
    ensures SecondSpelling(DoubledSlash(key, write), TextOf(key, write))
  {
    var b := RowOf(key, write);
    var db := OrphanFiles.Database([b], [], [], [], [], []);
    OrphanSafety.DoubledSlash(db, b);
    assert "cloud-saves/" <= DoubledSlash(key, write);
    hide OrphanSafety.LookedUp, OrphanSafety.ProfileImage, Canonical, PathOf, NamesFolder, SafeKey;
  }

  /** One such listing is enough: with a doubled slash in the key of any saved file, the save can no longer be
      restored, though its snapshot and its row are still there. */
  lemma DoubledSlashLosesASave(s: Store, id: string, i: nat, write: Writing)
    requires Inv(s) && PlainRows(s, write) && Kept(s, id, i)
    requires SafeKey(TextOf(KeptKey(s, id, i), write))
    ensures var key := KeptKey(s, id, i);
            var t := Step(s, DeleteOrphanFilesOp([DoubledSlash(key, write)], write)).0;
            Kept(t, id, i) && key in t.blobs && !CanRestore(t, id, i)
  {
    var key := KeptKey(s, id, i);
    var text := DoubledSlash(key, write);
    KeptRestores(s, id, i);
    DoubledSlashIsSecond(key, write);
    assert text in [text];
    ListingTakes(s, DeleteOrphanFilesOp([text], write), key);
    hide Takes, SecondSpelling, Inv, PlainRows;
  }

  // ---------------------------------------------------------------------------
  // Skip is a promise
  // ---------------------------------------------------------------------------

  /** A file answered `skip` keeps its row for as long as the prepared snapshot exists, whatever else is committed,
      restored, deleted, swept or collected meanwhile, and whatever other rows have lost before; and its bytes are
      there at the end if every deletion by hand that listed a second spelling of its own key was followed by an
      upload of it. */
  lemma SkipIsAPromise(s: Store, user: string, request: PrepareRequest, id: string, now: int, room: bool, ops: seq<Op>,
                       i: nat)
    requires Inv(s)
    requires Prepare(s, user, request, id, now, room).1.Prepared?
    requires i < |request.files| && Prepare(s, user, request, id, now, room).1.plans[i].Skip?
    requires Survives(Prepare(s, user, request, id, now, room).0, ops, id)
    requires PlainlyWritten(ops, KeyOf(user, request.files[i]))
    ensures var t := Prepare(s, user, request, id, now, room).0;
            var end, key := After(t, ops), KeyOf(user, request.files[i]);
            && key in end.blobs
            && (SentAgain(ops, key) ==> key in end.disk && Sha256(end.disk[key]) == key.hash.digest)
            && (PlainRowsAtDeletions(t, ops) && key in end.disk ==> SentAgain(ops, key))
  {
    var t := Prepare(s, user, request, id, now, room).0;
    var key := KeyOf(user, request.files[i]);
    PrepareKeepsInv(s, user, request, id, now, room);
    hide Step, After, Survives, Swept, SentAgain, PlainlyWritten, PlainRowsAtDeletions;
    assert t.manifests[id] == request.files;
    assert Listed(t, id, key) && key in t.blobs && key in t.disk;
    RunPreserves(t, ops, id, false);
    if SentAgain(ops, key) {
      RowHasItsFile(t, ops, key);
    } else if PlainRowsAtDeletions(t, ops) {
      RowHasItsFileExactly(t, ops, key);
    }
  }
}
