/** Storage keys as paths: a key is split at its slashes, and empty and `.` components name nothing. */
module Paths {
  type Path = seq<string>

  /** Where the first slash is, or the length where there is none. */
  function FirstSlash(key: string): (at: nat)
    ensures at <= |key|
    ensures at < |key| ==> key[at] == '/'
    ensures forall i | 0 <= i < at :: key[i] != '/'
  {
    if key == "" || key[0] == '/' then 0 else 1 + FirstSlash(key[1..])
  }

  function Components(key: string): (parts: Path)
    ensures parts != []
    ensures forall part | part in parts :: '/' !in part
  {
    var at := FirstSlash(key);
    if at == |key| then
      assert key[..at] == key;
      [key]
    else [key[..at]] + Components(key[at + 1..])
  }

  function Join(parts: Path): string
    requires parts != []
  {
    if |parts| == 1 then parts[0] else parts[0] + "/" + Join(parts[1..])
  }

  lemma SplitsAt(head: string, tail: string)
    requires '/' !in head
    ensures FirstSlash(head + "/" + tail) == |head|
    ensures (head + "/" + tail)[..|head|] == head && (head + "/" + tail)[|head| + 1..] == tail
  {
    var key := head + "/" + tail;
    assert key[|head|] == '/';
    assert forall i | 0 <= i < |head| :: key[i] == head[i] && head[i] in head;
  }

  lemma ComponentsAfter(head: string, tail: string)
    requires '/' !in head
    ensures Components(head + "/" + tail) == [head] + Components(tail)
  {
    SplitsAt(head, tail);
    hide FirstSlash;
  }

  lemma OneComponent(part: string)
    requires '/' !in part
    ensures Components(part) == [part]
  {
  }

  lemma {:induction false} JoinComponents(key: string)
    ensures Join(Components(key)) == key
  {
    var at := FirstSlash(key);
    if at < |key| {
      var head, tail := key[..at], key[at + 1..];
      hide Join, Components;
      assert key == head + "/" + tail;
      ComponentsAfter(head, tail);
      JoinComponents(tail);
      JoinAfter(head, Components(tail));
    } else {
      OneComponent(key);
    }
  }

  lemma JoinAfter(head: string, parts: Path)
    requires parts != []
    ensures Join([head] + parts) == head + "/" + Join(parts)
  {
    assert ([head] + parts)[1..] == parts;
  }

  lemma {:induction false} ComponentsJoin(parts: Path)
    requires parts != [] && forall part | part in parts :: '/' !in part
    ensures Components(Join(parts)) == parts
  {
    hide Components;
    assert parts[0] in parts && parts == [parts[0]] + parts[1..];
    if |parts| == 1 {
      OneComponent(parts[0]);
    } else {
      ComponentsJoin(parts[1..]);
      ComponentsAfter(parts[0], Join(parts[1..]));
    }
  }

  // ---------------------------------------------------------------------------
  // Characters
  // ---------------------------------------------------------------------------

  predicate KeyCharacter(c: char) {
    'a' <= c <= 'z' || 'A' <= c <= 'Z' || '0' <= c <= '9' || c in "/-_."
  }

  /** No `..` and nothing but letters, digits and four signs. */
  predicate PlainText(key: string) {
    && (forall i | 0 < i < |key| :: key[i] == '.' ==> key[i - 1] != '.')
    && forall i | 0 <= i < |key| :: KeyCharacter(key[i])
  }

  /** Relative, and without climbing. */
  predicate SafeKey(key: string) {
    key != "" && key[0] != '/' && PlainText(key)
  }

  predicate PlainCharacter(c: char) {
    '0' <= c <= '9' || 'A' <= c <= 'Z' || 'a' <= c <= 'z' || c in {'/', '-', '_', '.'}
  }

  lemma SameCharacters(c: char)
    ensures PlainCharacter(c) <==> KeyCharacter(c)
  {
    var signs := "/-_.";
    assert signs[0] == '/' && signs[1] == '-' && signs[2] == '_' && signs[3] == '.';
  }

  lemma NoClimbExactly(key: string)
    ensures (forall i | 0 < i < |key| :: key[i] == '.' ==> key[i - 1] != '.')
            <==> !exists before, after :: key == before + ".." + after
  {
    if i :| 0 < i < |key| && key[i] == '.' && key[i - 1] == '.' {
      assert key == key[..i - 1] + ".." + key[i + 1..];
    }
    if before, after :| key == before + ".." + after {
      assert key[|before|] == '.' && key[|before| + 1] == '.';
    }
  }

  lemma PlainTextExactly(key: string)
    ensures PlainText(key)
            <==> (!exists before, after :: key == before + ".." + after) && forall c | c in key :: PlainCharacter(c)
  {
    NoClimbExactly(key);
    forall c: char
      ensures PlainCharacter(c) <==> KeyCharacter(c)
    {
      SameCharacters(c);
    }
    hide PlainCharacter, KeyCharacter;
  }

  /** A key is safe exactly if it is there, is not absolute, climbs nowhere, and is made of letters, digits and four
      signs. */
  lemma SafeKeyExactly(key: string)
    ensures SafeKey(key)
            <==> && key != "" && !("/" <= key) && (!exists before, after :: key == before + ".." + after)
                 && forall c | c in key :: PlainCharacter(c)
  {
    PlainTextExactly(key);
    hide PlainText, PlainCharacter;
  }

  // ---------------------------------------------------------------------------
  // Files
  // ---------------------------------------------------------------------------

  predicate Skipped(part: string) {
    part == "" || part == "."
  }

  /** The components that name something. */
  function Naming(parts: Path): Path {
    if parts == [] then [] else (if Skipped(parts[0]) then [] else [parts[0]]) + Naming(parts[1..])
  }

  function PathOf(key: string): Path {
    Naming(Components(key))
  }

  /** A key that ends in a slash or in `.` can only name a folder. */
  predicate NamesFolder(key: string) {
    Skipped(Components(key)[|Components(key)| - 1])
  }

  predicate Plain(part: string) {
    part != "" && part != "." && part != ".."
  }

  predicate Canonical(key: string) {
    forall part | part in Components(key) :: Plain(part)
  }

  /** A path is the components that are neither empty nor dots, in order. */
  lemma {:induction false} NamesExactly(parts: Path)
    ensures forall part | part in Naming(parts) :: part in parts && part != "" && part != "."
    ensures forall part | part != "" && part != "." :: multiset(Naming(parts))[part] == multiset(parts)[part]
  {
    if parts != [] {
      NamesExactly(parts[1..]);
      assert parts == [parts[0]] + parts[1..];
    }
  }

  lemma {:induction false} PlainNames(parts: Path)
    requires forall part | part in parts :: Plain(part)
    ensures Naming(parts) == parts
  {
    if parts != [] {
      PlainNames(parts[1..]);
      assert parts[0] in parts && parts == [parts[0]] + parts[1..];
    }
  }

  /** A canonical key is the only canonical key of its file. */
  lemma CanonicalPath(key: string)
    requires Canonical(key)
    ensures PathOf(key) == Components(key) && !NamesFolder(key) && Join(PathOf(key)) == key
  {
    var parts := Components(key);
    PlainNames(parts);
    JoinComponents(key);
    assert parts[|parts| - 1] in parts;
  }

  lemma CanonicalIsUnique(key: string, other: string)
    requires Canonical(key) && Canonical(other) && PathOf(key) == PathOf(other)
    ensures key == other
  {
    CanonicalPath(key);
    CanonicalPath(other);
  }
}
