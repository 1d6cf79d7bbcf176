/** The second half of the integrity scan of src/admin/storage.rs: the walk over the storage folder that lists every
    file no row names. */
module OrphanScan {
  import opened Likeness
  import opened Options
  import opened OrphanFiles
  import opened OrphanSafety
  import opened Paths

  datatype Node = File(size: nat) | Folder(entries: seq<Entry>)

  datatype Entry = Entry(name: string, node: Node)

  datatype Orphan = Orphan(key: string, bytes: nat)

  const UPLOADING := ".uploading"

  predicate InFlight(key: string) {
    |UPLOADING| <= |key| && key[|key| - |UPLOADING|..] == UPLOADING
  }

  /** A partial upload's name is its file's with an ending. */
  lemma InFlightExactly(key: string)
    ensures InFlight(key) <==> exists name :: key == name + ".uploading"
  {
    if InFlight(key) {
      assert key == key[..|key| - |UPLOADING|] + ".uploading";
    }
  }

  /** What one file adds to the list. */
  function Finding(path: Path, size: nat, known: set<string>): seq<Orphan>
    requires path != []
  {
    if InFlight(Join(path)) || Join(path) in known then [] else [Orphan(Join(path), size)]
  }

  /** The orphans at and below a path. */
  function Listed(path: Path, node: Node, known: set<string>): seq<Orphan>
    requires path != [] || node.Folder?
    decreases node, 1, 0
  {
    match node
    case File(size) => Finding(path, size, known)
    case Folder(entries) => ListedFrom(path, node, |entries|, known)
  }

  function ListedFrom(path: Path, folder: Node, n: nat, known: set<string>): seq<Orphan>
    requires folder.Folder? && n <= |folder.entries|
    decreases folder, 0, n
  {
    if n == 0 then []
    else
      var entry := folder.entries[n - 1];
      ListedFrom(path, folder, n - 1, known) + Listed(path + [entry.name], entry.node, known)
  }

  // ---------------------------------------------------------------------------
  // The walk
  // ---------------------------------------------------------------------------

  /** A folder waiting to be read. */
  datatype Waiting = Waiting(path: Path, folder: Node)

  ghost predicate AllFolders(stack: seq<Waiting>) {
    forall w | w in stack :: w.folder.Folder?
  }

  /** What the waiting folders still hold. */
  ghost function Pending(stack: seq<Waiting>, known: set<string>): multiset<Orphan>
    requires AllFolders(stack)
  {
    if stack == [] then multiset{}
    else
      var last := stack[|stack| - 1];
      assert last in stack;
      Pending(stack[..|stack| - 1], known) + multiset(Listed(last.path, last.folder, known))
  }

  /** How many files and folders there are. */
  function Count(node: Node): nat
    decreases node, 0
  {
    match node
    case File(_) => 1
    case Folder(entries) => 1 + CountFrom(node, |entries|)
  }

  function CountFrom(folder: Node, n: nat): nat
    requires folder.Folder? && n <= |folder.entries|
    decreases folder, 0, n
  {
    if n == 0 then 0 else CountFrom(folder, n - 1) + Count(folder.entries[n - 1].node)
  }

  function CountAll(stack: seq<Waiting>): nat {
    if stack == [] then 0 else CountAll(stack[..|stack| - 1]) + Count(stack[|stack| - 1].folder)
  }

  lemma PushPending(stack: seq<Waiting>, w: Waiting, known: set<string>)
    requires AllFolders(stack) && w.folder.Folder?
    ensures AllFolders(stack + [w])
    ensures Pending(stack + [w], known) == Pending(stack, known) + multiset(Listed(w.path, w.folder, known))
    ensures CountAll(stack + [w]) == CountAll(stack) + Count(w.folder)
  {
  }

  /** Reads one folder: its folders are left for later, its files looked up now. */
  method ReadFolder(dir: Waiting, known: set<string>, before: seq<Waiting>, already: seq<Orphan>)
    returns (stack: seq<Waiting>, orphans: seq<Orphan>)
    requires AllFolders(before) && dir.folder.Folder?
    ensures AllFolders(stack)
    ensures multiset(orphans) + Pending(stack, known)
            == multiset(already) + Pending(before, known) + multiset(Listed(dir.path, dir.folder, known))
    ensures CountAll(stack) < CountAll(before) + Count(dir.folder)
  {
    hide Listed, ListedFrom, Pending, CountAll, Count, CountFrom, Join, InFlight;
    stack, orphans := before, already;
    ghost var found := multiset(already) + Pending(before, known);
    OpenFolder(dir, known);
    for i := 0 to |dir.folder.entries|
      invariant AllFolders(stack)
      invariant multiset(orphans) + Pending(stack, known)
                == found + multiset(ListedFrom(dir.path, dir.folder, i, known))
      invariant CountAll(stack) <= CountAll(before) + CountFrom(dir.folder, i)
    {
      var entry := dir.folder.entries[i];
      var path := dir.path + [entry.name];
      OneMoreEntry(dir, i, known);
      Rearranged(multiset(orphans), Pending(stack, known), found, multiset(ListedFrom(dir.path, dir.folder, i, known)),
                 multiset(Listed(path, entry.node, known)));
      if entry.node.Folder? {
        PushPending(stack, Waiting(path, entry.node), known);
        stack := stack + [Waiting(path, entry.node)];
      } else {
        var key := Join(path);
        FileFinding(path, entry.node, known);
        if !InFlight(key) && key !in known {
          Appended(orphans, Orphan(key, entry.node.size));
          orphans := orphans + [Orphan(key, entry.node.size)];
        }
      }
    }
  }

  method FindOrphans(root: Node, known: set<string>) returns (orphans: seq<Orphan>)
    requires root.Folder?
    ensures multiset(orphans) == multiset(Listed([], root, known))
  {
    hide Listed, Pending, CountAll, Count;
    orphans := [];
    var stack := [Waiting([], root)];
    StartsWith(root, known);
    while stack != []
      invariant AllFolders(stack)
      invariant multiset(orphans) + Pending(stack, known) == multiset(Listed([], root, known))
      decreases CountAll(stack)
    {
      var dir := stack[|stack| - 1];
      assert dir in stack && stack == stack[..|stack| - 1] + [dir];
      PushPending(stack[..|stack| - 1], dir, known);
      stack, orphans := ReadFolder(dir, known, stack[..|stack| - 1], orphans);
    }
    NothingPending(known);
  }

  lemma StartsWith(root: Node, known: set<string>)
    requires root.Folder?
    ensures Pending([Waiting([], root)], known) == multiset(Listed([], root, known))
  {
  }

  lemma NothingPending(known: set<string>)
    ensures Pending([], known) == multiset{}
  {
  }

  lemma OpenFolder(dir: Waiting, known: set<string>)
    requires dir.folder.Folder?
    ensures ListedFrom(dir.path, dir.folder, |dir.folder.entries|, known) == Listed(dir.path, dir.folder, known)
    ensures ListedFrom(dir.path, dir.folder, 0, known) == []
    ensures Count(dir.folder) == 1 + CountFrom(dir.folder, |dir.folder.entries|) && CountFrom(dir.folder, 0) == 0
  {
  }

  lemma OneMoreEntry(dir: Waiting, i: nat, known: set<string>)
    requires dir.folder.Folder? && i < |dir.folder.entries|
    ensures var entry := dir.folder.entries[i];
            && multiset(ListedFrom(dir.path, dir.folder, i + 1, known))
               == multiset(ListedFrom(dir.path, dir.folder, i, known))
                  + multiset(Listed(dir.path + [entry.name], entry.node, known))
            && CountFrom(dir.folder, i + 1) == CountFrom(dir.folder, i) + Count(entry.node)
            && Count(entry.node) > 0
  {
  }

  lemma FileFinding(path: Path, node: Node, known: set<string>)
    requires path != [] && node.File?
    ensures multiset(Listed(path, node, known))
            == if InFlight(Join(path)) || Join(path) in known then multiset{}
               else multiset([Orphan(Join(path), node.size)])
  {
  }

  lemma Rearranged(orphans: multiset<Orphan>, pending: multiset<Orphan>, found: multiset<Orphan>,
                   listed: multiset<Orphan>, more: multiset<Orphan>)
    requires orphans + pending == found + listed
    ensures orphans + (pending + more) == found + (listed + more)
    ensures (orphans + more) + pending == found + (listed + more)
  {
    assert orphans + (pending + more) == (orphans + pending) + more == (orphans + more) + pending;
    assert found + (listed + more) == (found + listed) + more;
  }

  lemma Appended(orphans: seq<Orphan>, one: Orphan)
    ensures multiset(orphans + [one]) == multiset(orphans) + multiset([one])
  {
  }

  // ---------------------------------------------------------------------------
  // What is listed
  // ---------------------------------------------------------------------------

  /** The folder holds a file of this length at these names. */
  ghost predicate FileAt(node: Node, parts: Path, size: nat)
    decreases parts
  {
    if parts == [] then node == File(size)
    else
      node.Folder? && exists i ::
        0 <= i < |node.entries| && node.entries[i].name == parts[0] && FileAt(node.entries[i].node, parts[1..], size)
  }

  lemma {:induction false} OrphanIsFile(path: Path, node: Node, known: set<string>, o: Orphan) returns (parts: Path)
    requires (path != [] || node.Folder?) && o in Listed(path, node, known)
    ensures FileAt(node, parts, o.bytes) && path + parts != [] && o.key == Join(path + parts)
    ensures !InFlight(o.key) && o.key !in known
    decreases node, 1, 0
  {
    match node
    case File(size) =>
      parts := [];
      assert path + parts == path;
    case Folder(entries) =>
      parts := OrphanIsFileFrom(path, node, |entries|, known, o);
  }

  lemma {:induction false} OrphanIsFileFrom(path: Path, folder: Node, n: nat, known: set<string>, o: Orphan)
    returns (parts: Path)
    requires folder.Folder? && n <= |folder.entries| && o in ListedFrom(path, folder, n, known)
    ensures parts != [] && FileAt(folder, parts, o.bytes) && o.key == Join(path + parts)
    ensures !InFlight(o.key) && o.key !in known
    decreases folder, 0, n
  {
    var entry := folder.entries[n - 1];
    if o in ListedFrom(path, folder, n - 1, known) {
      parts := OrphanIsFileFrom(path, folder, n - 1, known, o);
    } else {
      var rest := OrphanIsFile(path + [entry.name], entry.node, known, o);
      parts := [entry.name] + rest;
      assert parts[1..] == rest;
      assert path + [entry.name] + rest == path + parts;
    }
  }

  lemma {:induction false} FileIsListed(path: Path, node: Node, known: set<string>, parts: Path, size: nat)
    requires FileAt(node, parts, size) && (path != [] || node.Folder?) && path + parts != []
    requires !InFlight(Join(path + parts)) && Join(path + parts) !in known
    ensures Orphan(Join(path + parts), size) in Listed(path, node, known)
    decreases parts
  {
    hide InFlight, Join;
    if parts == [] {
      assert path + parts == path;
    } else {
      var i :| 0 <= i < |node.entries| && node.entries[i].name == parts[0]
          && FileAt(node.entries[i].node, parts[1..], size);
      assert path + [parts[0]] + parts[1..] == path + parts;
      FileIsListed(path + [parts[0]], node.entries[i].node, known, parts[1..], size);
      ListedInFolder(path, node, i, |node.entries|, known, Orphan(Join(path + parts), size));
    }
  }

  lemma {:induction false} ListedInFolder(path: Path, folder: Node, i: nat, n: nat, known: set<string>, o: Orphan)
    requires folder.Folder? && i < n <= |folder.entries|
    requires o in Listed(path + [folder.entries[i].name], folder.entries[i].node, known)
    ensures o in ListedFrom(path, folder, n, known)
  {
    if n > i + 1 {
      ListedInFolder(path, folder, i, n - 1, known, o);
    }
  }

  /** File and folder names are plain. */
  ghost predicate PlainTree(node: Node) {
    node.Folder? ==> forall i | 0 <= i < |node.entries| ::
      PlainName(node.entries[i].name) && PlainTree(node.entries[i].node)
  }

  predicate PlainName(name: string) {
    Plain(name) && '/' !in name
  }

  lemma {:induction false} FilesArePlain(node: Node, parts: Path, size: nat)
    requires PlainTree(node) && FileAt(node, parts, size)
    ensures forall part | part in parts :: PlainName(part)
    decreases parts
  {
    if parts != [] {
      var i :| 0 <= i < |node.entries| && node.entries[i].name == parts[0]
          && FileAt(node.entries[i].node, parts[1..], size);
      FilesArePlain(node.entries[i].node, parts[1..], size);
      assert parts == [parts[0]] + parts[1..];
    }
  }

  /** A file's key is canonical and leads back to it. */
  lemma FileKeyIsCanonical(node: Node, parts: Path, size: nat)
    requires PlainTree(node) && FileAt(node, parts, size) && parts != []
    ensures Canonical(Join(parts)) && PathOf(Join(parts)) == parts && !NamesFolder(Join(parts))
  {
    FilesArePlain(node, parts, size);
    ComponentsJoin(parts);
    CanonicalPath(Join(parts));
    hide Join, PathOf, NamesFolder, Components;
  }

  // ---------------------------------------------------------------------------
  // Scan, then delete
  // ---------------------------------------------------------------------------

  function KeysOf(orphans: seq<Orphan>): set<string> {
    set o | o in orphans :: o.key
  }

  lemma ListedKeyIsCanonical(root: Node, known: set<string>, key: string)
    requires root.Folder? && PlainTree(root) && key in KeysOf(Listed([], root, known))
    ensures Canonical(key)
  {
    hide PlainTree, Canonical;
    var o :| o in Listed([], root, known) && o.key == key;
    var parts := OrphanIsFile([], root, known, o);
    assert [] + parts == parts;
    FileKeyIsCanonical(root, parts, o.bytes);
  }

  /** Keys from a scan, whenever it ran: deleting them takes no file any row names canonically by then. */
  lemma ScannedKeysLoseNothing(root: Node, scanned: Database, now: Database, disk: Disk, keys: seq<string>,
                               known: string)
    requires root.Folder? && PlainTree(root)
    requires forall key | key in keys :: key in KeysOf(Listed([], root, Known(scanned)))
    requires WellKept(now) && known in Known(now) && Canonical(known) && PathOf(known) in disk.files
    ensures PathOf(known) in Deletion(now, disk, keys).disk.files
    ensures Deletion(now, disk, keys).disk.files[PathOf(known)] == disk.files[PathOf(known)]
  {
    hide PlainTree, Known, WellKept, Canonical, PathOf, KeysOf, Deletion;
    forall key | key in keys
      ensures Canonical(key)
    {
      ListedKeyIsCanonical(root, Known(scanned), key);
    }
    CanonicalKeysLoseNothing(now, disk, keys, known);
  }

  /** Deleting everything a scan lists: of the files the folder holds, exactly those go that no row is known to
      name, that are not being uploaded, and whose keys are safe and unreferenced. */
  lemma ScanThenDelete(root: Node, db: Database, disk: Disk, keys: seq<string>, parts: Path, size: nat)
    requires root.Folder? && PlainTree(root) && FileAt(root, parts, size) && parts != [] && parts in disk.files
    requires forall key :: key in keys <==> key in KeysOf(Listed([], root, Known(db)))
    ensures parts !in Deletion(db, disk, keys).disk.files
            <==> Join(parts) !in Known(db) && !InFlight(Join(parts)) && Deletable(db, Join(parts))
  {
    hide PlainTree, Known, Canonical, PathOf, NamesFolder, Deletion, InFlight, Deletable, Join;
    var key := Join(parts);
    FileKeyIsCanonical(root, parts, size);
    DeletionRemovesExactly(db, disk, keys, parts);
    assert [] + parts == parts;
    if key !in Known(db) && !InFlight(key) && Deletable(db, key) {
      FileIsListed([], root, Known(db), parts, size);
      assert Orphan(key, size).key in KeysOf(Listed([], root, Known(db)));
      assert Removes(db, key, parts);
    }
    if RemovedBy(db, keys, parts) {
      var other :| other in keys && Removes(db, other, parts);
      ListedKeyIsCanonical(root, Known(db), other);
      CanonicalIsUnique(key, other);
      ListedKeyIsUnknown(root, Known(db), other);
    }
  }

  function AvatarFolder(name: string, size: nat): Node {
    Folder([Entry("images", Folder([Entry("avatars", Folder([Entry(name, File(size))]))]))])
  }

  /** A user whose picture is mirrored under a URL with a doubled slash, and nothing else. */
  function Mirrored(name: string): Database {
    Database([], [], [], [], [], [User(None, None, Some(AVATARS + "/" + name))])
  }

  lemma MisspelledPath(name: string)
    requires PlainName(name)
    ensures PathOf(AVATARS + "/" + name) == ["images", "avatars", name]
            && Join(["images", "avatars", name]) == AVATARS + name
  {
    hide Components, Naming, Join;
    var tail := "" + "/" + name;
    ComponentsAfter("", name);
    ComponentsAfter("avatars", tail);
    ComponentsAfter("images", "avatars" + "/" + tail);
    OneComponent(name);
    assert AVATARS + "/" + name == "images" + "/" + ("avatars" + "/" + tail);
    NamesOne("", [name]);
    NamesOne("avatars", [""] + [name]);
    NamesOne("images", ["avatars"] + ([""] + [name]));
    PlainNames([name]);
    JoinsThree("images", "avatars", name);
    assert ["images"] + (["avatars"] + ([] + [name])) == ["images", "avatars", name];
    assert "images" + "/" + ("avatars" + "/" + name) == AVATARS + name;
  }

  lemma NamesOne(part: string, parts: Path)
    ensures Naming([part] + parts) == (if Skipped(part) then [] else [part]) + Naming(parts)
  {
  }

  lemma JoinsThree(a: string, b: string, c: string)
    ensures Join([a, b, c]) == a + "/" + (b + "/" + c)
  {
    assert [a, b, c][1..] == [b, c] && [b, c][1..] == [c];
    assert Join([b, c]) == b + "/" + Join([c]);
  }

  lemma AvatarIsThere(name: string, size: nat)
    requires PlainName(name)
    ensures FileAt(AvatarFolder(name, size), ["images", "avatars", name], size) && PlainTree(AvatarFolder(name, size))
  {
    FolderOfOne(name, File(size), [], size);
    var avatars := Folder([Entry(name, File(size))]);
    FolderOfOne("avatars", avatars, [name], size);
    var images := Folder([Entry("avatars", avatars)]);
    FolderOfOne("images", images, ["avatars", name], size);
    hide FileAt, PlainTree;
    assert ["images"] + (["avatars"] + [name]) == ["images", "avatars", name];
  }

  lemma FolderOfOne(name: string, node: Node, parts: Path, size: nat)
    requires PlainName(name) && PlainTree(node) && FileAt(node, parts, size)
    ensures PlainTree(Folder([Entry(name, node)])) && FileAt(Folder([Entry(name, node)]), [name] + parts, size)
  {
    var folder := Folder([Entry(name, node)]);
    assert folder.entries[0].name == ([name] + parts)[0] && ([name] + parts)[1..] == parts;
  }

  lemma NoMention(name: string)
    ensures !Mentions(Mirrored(name), AVATARS + name)
  {
    var url, key := AVATARS + "/" + name, AVATARS + name;
    assert url[|url| - |key|..][0] == 'm' && key[0] == 'i';
    SuffixMatches(key, url);
    hide Like, EscapeLike;
  }

  lemma CanonicalPictureIsNobodys(name: string)
    requires name != "" && SafeKey(AVATARS + name) && !InFlight(AVATARS + name)
    ensures Known(Mirrored(name)) == {AVATARS + "/" + name} && AVATARS + name != AVATARS + "/" + name
    ensures Deletable(Mirrored(name), AVATARS + name)
  {
    hide Mentions, SafeKey;
    NoMention(name);
    ProfileImagesGoOn(Mirrored(name), AVATARS + name);
    assert KnownOf(Mirrored(name).users[0]) == {AVATARS + "/" + name};
    assert |AVATARS + name| != |AVATARS + "/" + name|;
  }

  /** Where a known key is not canonical, a scan and a deletion of all it lists take the file. */
  lemma MisspelledFileIsLost(name: string, size: nat, keys: seq<string>)
    requires PlainName(name) && SafeKey(AVATARS + name) && !InFlight(AVATARS + name)
    requires forall key :: key in keys <==> key in KeysOf(Listed([], AvatarFolder(name, size), Known(Mirrored(name))))
    ensures var db, path := Mirrored(name), ["images", "avatars", name];
            && AVATARS + "/" + name in Known(db) && PathOf(AVATARS + "/" + name) == path
            && path !in Deletion(db, Disk(map[path := size], map[]), keys).disk.files
  {
    hide Known, KeysOf, PathOf, Join, Deletable, InFlight, FileAt, PlainTree, Deletion, SafeKey;
    MisspelledPath(name);
    AvatarIsThere(name, size);
    CanonicalPictureIsNobodys(name);
    var path := ["images", "avatars", name];
    ScanThenDelete(AvatarFolder(name, size), Mirrored(name), Disk(map[path := size], map[]), keys, path, size);
  }

  lemma ListedKeyIsUnknown(root: Node, known: set<string>, key: string)
    requires root.Folder? && key in KeysOf(Listed([], root, known))
    ensures key !in known && !InFlight(key)
  {
    var o :| o in Listed([], root, known) && o.key == key;
    var parts := OrphanIsFile([], root, known, o);
  }
}
