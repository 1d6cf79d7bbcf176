/** A payload that goes through once and is refused when repeated: it names one client twice. */
module SouvenirTangle {
  import opened Achievements
  import opened Options
  import opened Paths
  import opened Souvenirs
  import opened SouvenirRuns
  import opened SouvenirRetries

  const PLAIN: Text := Text(s => s, s => s)
  const KEY_X := StorageKey("u", "x.png")
  const KEY_Y := StorageKey("u", "y.png")

  function Reserved(id: string, key: string): Souvenir {
    Souvenir(id, None, None, None, key, true, 1, Pending, [], 0, 0)
  }

  function Unlock(name: string): Achievement {
    Achievement(Some(name), Integer(1), Absent, "")
  }

  /** Two captures whose pictures have arrived. */
  function Before(): Store {
    Store(map[Owner("u", "x") := Reserved("1", KEY_X), Owner("u", "y") := Reserved("2", KEY_Y)], map[])
  }

  /** The first capture is filed under A, then under B instead, and the second takes A. */
  function Entries(): seq<Entry> {
    [Entry("x", KEY_X, 0, ["A"]), Entry("x", KEY_X, 0, ["B"]), Entry("y", KEY_Y, 0, ["A"])]
  }

  function Tangled(): Payload {
    Payload("g", None, None, [Unlock("A"), Unlock("B")], Entries())
  }

  lemma OneName(name: string, key: string, client: string)
    requires name != ""
    ensures Names(Entry(client, key, 0, [name]), PLAIN) == Normalized([name], PLAIN) == [name]
  {
  }

  /** Every image name this server draws makes a key its owner may claim. */
  lemma KeyBelongs(file: string)
    requires file != "" && file[0] != '.' && PlainText(file)
    ensures KeyBelongsTo("u", StorageKey("u", file))
  {
  }

  lemma KeysBelong()
    ensures KeyBelongsTo("u", KEY_X) && KeyBelongsTo("u", KEY_Y)
  {
    KeyBelongs("x.png");
    KeyBelongs("y.png");
    hide KeyBelongsTo;
  }

  lemma BothUnlocked()
    ensures Unlocked(Advanced(Before(), "u", Tangled(), PLAIN).achievements, PLAIN) == {"A", "B"}
  {
    var list := [Unlock("A"), Unlock("B")];
    assert [] + list == list;
    assert list[1..] == [Unlock("B")] && list[1..][1..] == [];
    assert Merged([], list, PLAIN.upper) == list;
    assert list[0].name == Some("A") && list[1].name == Some("B");
  }

  lemma OneMoreClaim(rows: Rows, game: Game, entries: seq<Entry>, e: Entry, unlocked: set<string>)
    requires ClaimAll(rows, "u", game, entries, unlocked, PLAIN).1.Claimed?
    requires Obstacle(ClaimAll(rows, "u", game, entries, unlocked, PLAIN).0, "u", game, e, unlocked, PLAIN).None?
    ensures var o, before := Owner("u", e.clientId), ClaimAll(rows, "u", game, entries, unlocked, PLAIN).0;
            && o in before
            && ClaimAll(rows, "u", game, entries + [e], unlocked, PLAIN).0
               == before[o := Written(before[o], game, e, PLAIN)]
            && ClaimAll(rows, "u", game, entries + [e], unlocked, PLAIN).1.Claimed?
  {
  }

  /** The two reservations, with these names so far. */
  ghost predicate Standing(rows: Rows, x: seq<string>, y: seq<string>) {
    var ox, oy := Owner("u", "x"), Owner("u", "y");
    && rows.Keys == {ox, oy}
    && rows[ox].imageKey == KEY_X && rows[ox].uploaded && rows[ox].id == "1" && rows[ox].names == x
    && rows[oy].imageKey == KEY_Y && rows[oy].uploaded && rows[oy].id == "2" && rows[oy].names == y
  }

  lemma Free(rows: Rows, game: Game, e: Entry, name: string, x: seq<string>, y: seq<string>)
    requires Standing(rows, x, y) && name in {"A", "B"} && e.names == [name]
    requires (e.clientId == "x" && e.imageKey == KEY_X && name !in y)
             || (e.clientId == "y" && e.imageKey == KEY_Y && name !in x)
    ensures Obstacle(rows, "u", game, e, {"A", "B"}, PLAIN).None?
    ensures Names(e, PLAIN) == [name]
  {
    KeysBelong();
    OneName(name, e.imageKey, e.clientId);
    assert Names(e, PLAIN) == [name];
    hide KeyBelongsTo, Normalized, Truncated;
  }

  /** The claims of the first pass. */
  lemma FirstPass(game: Game)
    ensures ClaimAll(Before().rows, "u", game, Entries(), {"A", "B"}, PLAIN).1.Claimed?
  {
    var e, u, rows := Entries(), {"A", "B"}, Before().rows;
    assert ClaimAll(rows, "u", game, [], u, PLAIN) == (rows, Claimed([]));
    assert Standing(rows, [], []);
    assert [e[0]] == [] + [e[0]] && [e[0], e[1]] == [e[0]] + [e[1]] && e == [e[0], e[1]] + [e[2]];
    hide KeyBelongsTo, Names, Obstacle, ClaimAll;
    Free(rows, game, e[0], "A", [], []);
    OneMoreClaim(rows, game, [], e[0], u);
    var one := ClaimAll(rows, "u", game, [e[0]], u, PLAIN).0;
    Free(one, game, e[1], "B", ["A"], []);
    OneMoreClaim(rows, game, [e[0]], e[1], u);
    var two := ClaimAll(rows, "u", game, [e[0], e[1]], u, PLAIN).0;
    Free(two, game, e[2], "A", ["B"], []);
    OneMoreClaim(rows, game, [e[0], e[1]], e[2], u);
  }

  lemma NotUntangled()
    ensures !Untangled(Entries(), PLAIN)
  {
    var e := Entries();
    NamedLate();
    OneName("A", KEY_X, "x");
    OneName("A", KEY_Y, "y");
    assert "A" in Names(e[0], PLAIN) && "A" in Names(e[2], PLAIN);
    hide LastFor, Names;
    assert !ClearAhead(e, 0, PLAIN);
  }

  /** The second client is named by the last entry only. */
  lemma NamedLate()
    ensures LastFor(Entries()[..1], Client(Entries()[2], PLAIN), PLAIN) == 1
    ensures LastFor(Entries(), Client(Entries()[2], PLAIN), PLAIN) == 2
  {
    var e := Entries();
    assert e[..1] == [e[0]] && [e[0]][..0] == [];
  }

  lemma FirstSync()
    ensures Sync(Before(), "u", Tangled(), PLAIN).1.Claimed?
  {
    BothUnlocked();
    FirstPass(Game("g", None, None));
    hide Merged, Unlocked, ClaimAll;
  }

  lemma BeforeIsSound()
    ensures Inv(Before().rows)
  {
    assert KEY_X[19] == 'x' && KEY_Y[19] == 'y';
  }

  /** Retrying a sync is not always safe. */
  lemma RetryIsRefused()
    ensures Inv(Before().rows)
    ensures var (once, first) := Sync(Before(), "u", Tangled(), PLAIN);
            first.Claimed? && Sync(once, "u", Tangled(), PLAIN).1 == Refused(AlreadyAssigned)
  {
    hide Inv, Sync, Before, Untangled, Entries;
    BeforeIsSound();
    FirstSync();
    NotUntangled();
    SyncRepeatsExactly(Before(), "u", Tangled(), PLAIN);
  }
}
