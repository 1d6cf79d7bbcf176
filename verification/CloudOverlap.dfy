/** When updates are lost: conflicts are looked for at prepare and only there, so a game's version keeps rising
    exactly if each commit was prepared after the one before it. In the run at the end two machines prepare from
    the same version, one of them syncs twice, and the other's late commit puts the older version back. */
module CloudOverlap {
  import opened CloudSaves
  import opened CloudRuns

  // ---------------------------------------------------------------------------
  // Rising versions
  // ---------------------------------------------------------------------------

  ghost predicate RisesAt(s: Store, ops: seq<Op>, c: nat, user: string, game: Game)
    requires c < |ops|
  {
    Moves(StateAt(s, ops, c), ops[c], user, game) ==>
      CurrentVersion(StateAt(s, ops, c), user, game) < CurrentVersion(StateAt(s, ops, c + 1), user, game)
  }

  /** Every commit and restore of the game raises its version. */
  ghost predicate Rising(s: Store, ops: seq<Op>, user: string, game: Game) {
    forall c | 0 <= c < |ops| :: RisesAt(s, ops, c, user, game)
  }

  ghost predicate Undeleted(s: Store, ops: seq<Op>, user: string, game: Game) {
    forall c | 0 <= c < |ops| :: !Deletes(StateAt(s, ops, c), ops[c], user, game)
  }

  lemma {:induction false} RisingNeverFalls(s: Store, ops: seq<Op>, user: string, game: Game, i: nat, j: nat)
    requires Inv(s) && Undeleted(s, ops, user, game) && Rising(s, ops, user, game) && i <= j <= |ops|
    ensures CurrentVersion(StateAt(s, ops, i), user, game) <= CurrentVersion(StateAt(s, ops, j), user, game)
    decreases j
  {
    hide Inv, StateAt, CurrentVersion, Deletes, Moves, Step;
    if i < j {
      RisingNeverFalls(s, ops, user, game, i, j - 1);
      assert RisesAt(s, ops, j - 1, user, game);
      StateAtInv(s, ops, j - 1);
      StateAtNext(s, ops, j - 1);
      if !Moves(StateAt(s, ops, j - 1), ops[j - 1], user, game) {
        QuietStep(StateAt(s, ops, j - 1), ops[j - 1], user, game);
      }
    }
  }

  // ---------------------------------------------------------------------------
  // Where a pending snapshot comes from
  // ---------------------------------------------------------------------------

  ghost predicate IsPending(s: Store, id: string, user: string, game: Game, version: int) {
    id in s.snapshots && Belongs(s.snapshots[id], user, game) && s.snapshots[id].status.Pending?
      && s.snapshots[id].version == version
  }

  /** A pending snapshot was there before the step, or the step prepared it. */
  lemma PendingComesFromPrepare(s: Store, op: Op, id: string, user: string, game: Game, version: int)
    requires Inv(s) && IsPending(Step(s, op).0, id, user, game, version)
    ensures || IsPending(s, id, user, game, version)
            || (op.PrepareOp? && op.id == id && op.user == user && op.request.game == game
                && op.request.baseVersion + 1 == version
                && Step(s, op).1.Prepared?)
  {
    if op.PrepareOp? && op.id == id {
      PrepareAddsOrKeeps(s, op, id);
    } else {
      hide Inv, Step;
      NewcomerIsPrepared(s, op, id);
      StepPreserves(s, op, id);
    }
  }

  lemma PrepareAddsOrKeeps(s: Store, op: Op, id: string)
    requires op.PrepareOp? && op.id == id && id in Step(s, op).0.snapshots
    ensures var (t, reply) := Step(s, op);
            if reply.Prepared? then
              t.snapshots[id] == Snapshot(op.user, op.request.game, op.request.baseVersion + 1, Pending, op.now, op.now)
            else id in s.snapshots && t.snapshots[id] == s.snapshots[id]
  {
  }

  lemma {:induction false} PreparedSometime(ops: seq<Op>, c: nat, id: string, user: string, game: Game, version: int)
    returns (p: nat)
    requires c <= |ops| && IsPending(StateAt(EMPTY, ops, c), id, user, game, version)
    ensures p < c && PreparedAt(EMPTY, ops, p, id, user, game) && ops[p].request.baseVersion + 1 == version
    decreases c
  {
    assert StateAt(EMPTY, ops, 0) == EMPTY;
    hide Inv, StateAt, Step, IsPending;
    if c == 0 {
      NothingPending(id, user, game, version);
    } else {
      StateAtInv(EMPTY, ops, c - 1);
      StateAtNext(EMPTY, ops, c - 1);
      PendingComesFromPrepare(StateAt(EMPTY, ops, c - 1), ops[c - 1], id, user, game, version);
      if IsPending(StateAt(EMPTY, ops, c - 1), id, user, game, version) {
        p := PreparedSometime(ops, c - 1, id, user, game, version);
      } else {
        p := c - 1;
      }
    }
  }

  lemma NothingPending(id: string, user: string, game: Game, version: int)
    ensures !IsPending(EMPTY, id, user, game, version)
  {
  }

  /** The prepare behind a commit: it started from the version one below the one the commit sets. */
  lemma CommitHasItsPrepare(ops: seq<Op>, c: nat, user: string, game: Game) returns (p: nat)
    requires c < |ops| && ops[c].CommitOp? && Moves(StateAt(EMPTY, ops, c), ops[c], user, game)
    ensures p < c && PreparedAt(EMPTY, ops, p, ops[c].id, user, game)
    ensures CurrentVersion(StateAt(EMPTY, ops, c + 1), user, game)
            == CurrentVersion(StateAt(EMPTY, ops, p + 1), user, game) + 1
  {
    assert Inv(EMPTY);
    hide Inv, StateAt, CurrentVersion, Moves, Commit, Step, IsPending;
    var s, op := StateAt(EMPTY, ops, c), ops[c];
    StateAtInv(EMPTY, ops, c);
    StateAtNext(EMPTY, ops, c);
    CommittedWasPending(s, op, user, game);
    CommitSetsVersion(s, op.user, op.id, op.now, op.autoDelete);
    p := PreparedSometime(ops, c, op.id, user, game, s.snapshots[op.id].version);
    StateAtInv(EMPTY, ops, p);
    StateAtNext(EMPTY, ops, p);
    PreparedFromCurrent(StateAt(EMPTY, ops, p), ops[p], user, game);
  }

  /** A commit that raises the version was prepared after the game's last commit or restore: any in between would
      have reached the version it commits. */
  lemma RisingCommitIsSerialised(ops: seq<Op>, c: nat, user: string, game: Game)
    requires c < |ops| && ops[c].CommitOp? && Moves(StateAt(EMPTY, ops, c), ops[c], user, game)
    requires Undeleted(EMPTY, ops, user, game) && Rising(EMPTY, ops, user, game)
    ensures Serialised(EMPTY, ops, c, user, game)
  {
    hide StateAt, CurrentVersion, Moves, Deletes, PreparedAt, Rising, Undeleted, RisesAt, QuietBetween;
    var p := CommitHasItsPrepare(ops, c, user, game);
    forall i | p < i < c
      ensures !Moves(StateAt(EMPTY, ops, i), ops[i], user, game) && !Deletes(StateAt(EMPTY, ops, i), ops[i], user, game)
    {
      NoMoveBetween(ops, p, i, c, user, game);
    }
    QuietSo(EMPTY, ops, p, c, user, game);
  }

  lemma NoMoveBetween(ops: seq<Op>, p: nat, i: nat, c: nat, user: string, game: Game)
    requires p < i < c < |ops| && Moves(StateAt(EMPTY, ops, c), ops[c], user, game)
    requires CurrentVersion(StateAt(EMPTY, ops, c + 1), user, game)
             == CurrentVersion(StateAt(EMPTY, ops, p + 1), user, game) + 1
    requires Undeleted(EMPTY, ops, user, game) && Rising(EMPTY, ops, user, game)
    ensures !Moves(StateAt(EMPTY, ops, i), ops[i], user, game) && !Deletes(StateAt(EMPTY, ops, i), ops[i], user, game)
  {
    hide StateAt, CurrentVersion, Moves, Deletes, Rising, Undeleted, RisesAt;
    RiseAt(ops, c, user, game);
    RiseAt(ops, i, user, game);
    EmptyIsSound();
    hide Inv;
    RisingNeverFalls(EMPTY, ops, user, game, p + 1, i);
    RisingNeverFalls(EMPTY, ops, user, game, i + 1, c);
  }

  lemma EmptyIsSound()
    ensures Inv(EMPTY)
  {
  }

  lemma RiseAt(ops: seq<Op>, c: nat, user: string, game: Game)
    requires c < |ops| && Undeleted(EMPTY, ops, user, game) && Rising(EMPTY, ops, user, game)
    ensures !Deletes(StateAt(EMPTY, ops, c), ops[c], user, game)
    ensures Moves(StateAt(EMPTY, ops, c), ops[c], user, game) ==>
              CurrentVersion(StateAt(EMPTY, ops, c), user, game)
                < CurrentVersion(StateAt(EMPTY, ops, c + 1), user, game)
  {
    hide StateAt, CurrentVersion, Moves, Deletes;
    assert RisesAt(EMPTY, ops, c, user, game);
  }

  lemma QuietSo(s: Store, ops: seq<Op>, p: nat, c: nat, user: string, game: Game)
    requires p <= c <= |ops|
    requires forall i | p < i < c ::
               !Moves(StateAt(s, ops, i), ops[i], user, game) && !Deletes(StateAt(s, ops, i), ops[i], user, game)
    ensures QuietBetween(s, ops, p, c, user, game)
  {
  }

  lemma CommittedWasPending(s: Store, op: Op, user: string, game: Game)
    requires op.CommitOp? && Moves(s, op, user, game)
    ensures op.user == user && s.snapshots[op.id].game == game
            && Step(s, op) == Commit(s, op.user, op.id, op.now, op.autoDelete)
    ensures Step(s, op).1.CommittedAs? && IsPending(s, op.id, user, game, s.snapshots[op.id].version)
  {
  }

  lemma PreparedFromCurrent(s: Store, op: Op, user: string, game: Game)
    requires Inv(s) && op.PrepareOp? && op.user == user && op.request.game == game && Step(s, op).1.Prepared?
    ensures CurrentVersion(Step(s, op).0, user, game) == op.request.baseVersion
  {
    hide Inv, CurrentVersion;
    PrepareIsAhead(s, op.user, op.request, op.id, op.now, op.room);
  }

  /** As long as the game's current save is not deleted, every commit and restore raises its version if and only if
      every commit was prepared after the game's last commit or restore. */
  lemma NoLostUpdateExactly(ops: seq<Op>, user: string, game: Game)
    requires Undeleted(EMPTY, ops, user, game)
    ensures Rising(EMPTY, ops, user, game) <==> Orderly(EMPTY, ops, user, game)
  {
    if Rising(EMPTY, ops, user, game) {
      RisingIsOrderly(ops, user, game);
    }
    if Orderly(EMPTY, ops, user, game) {
      OrderlyIsRising(ops, user, game);
    }
    hide Rising, Orderly, Undeleted;
  }

  lemma RisingIsOrderly(ops: seq<Op>, user: string, game: Game)
    requires Undeleted(EMPTY, ops, user, game) && Rising(EMPTY, ops, user, game)
    ensures Orderly(EMPTY, ops, user, game)
  {
    hide StateAt, Deletes, Moves, Serialised, RisesAt;
    forall c | 0 <= c < |ops| && ops[c].CommitOp? && Moves(StateAt(EMPTY, ops, c), ops[c], user, game)
      ensures Serialised(EMPTY, ops, c, user, game)
    {
      RisingCommitIsSerialised(ops, c, user, game);
    }
  }

  lemma OrderlyIsRising(ops: seq<Op>, user: string, game: Game)
    requires Orderly(EMPTY, ops, user, game)
    ensures Rising(EMPTY, ops, user, game)
  {
    hide StateAt, CurrentVersion, Moves, Orderly;
    EmptyIsSound();
    hide Inv;
    forall c | 0 <= c < |ops|
      ensures RisesAt(EMPTY, ops, c, user, game)
    {
      NoLostUpdate(EMPTY, ops, user, game, c, c + 1);
    }
  }

  // ---------------------------------------------------------------------------
  // An update lost
  // ---------------------------------------------------------------------------

  const ANN := "ann"
  const PORTAL := Game("steam", "400")

  function Ask(id: string, base: int): Op {
    PrepareOp(ANN, PrepareRequest(PORTAL, base, [], true), id, 0, true)
  }

  function Send(id: string): Op {
    CommitOp(ANN, id, 0, true)
  }

  const OVERLAP := [Ask("desktop", 0), Ask("deck", 0), Send("deck"), Ask("deck again", 1), Send("deck again"),
                    Send("desktop")]

  function Saved(version: int, status: Status): Snapshot {
    Snapshot(ANN, PORTAL, version, status, 0, 0)
  }

  function Holding(snapshots: map<string, Snapshot>): Store {
    Store(snapshots, map id | id in snapshots :: [], map[], map[])
  }

  lemma PlainPrepare(snapshots: map<string, Snapshot>, id: string, base: int)
    requires id !in snapshots && base >= 0
    requires forall other | other in snapshots :: snapshots[other].createdAt == 0
    requires CurrentVersion(Holding(snapshots), ANN, PORTAL) == base
    ensures Step(Holding(snapshots), Ask(id, base)).0 == Holding(snapshots[id := Saved(base + 1, Pending)])
  {
    hide CurrentVersion;
    var s := Holding(snapshots);
    assert StaleOf(s, ANN, 0) == {};
    assert Swept(s, ANN, 0) == s;
  }

  lemma PlainCommit(snapshots: map<string, Snapshot>, id: string, after: map<string, Snapshot>)
    requires id in snapshots && snapshots[id].status.Pending? && snapshots[id].createdAt == 0
    requires forall other | other in snapshots ::
             Belongs(snapshots[other], ANN, PORTAL) && !snapshots[other].status.Superseded?
    requires after == map other | other in snapshots && (other == id || snapshots[other].status.Pending?) ::
                        if other == id then snapshots[id].(status := Committed, updatedAt := 0) else snapshots[other]
    ensures Step(Holding(snapshots), Send(id)) == (Holding(after), CommittedAs(id, snapshots[id].version))
  {
    hide Prepare, Restore, DeleteOrphanFiles, GcBlobs, CurrentVersion;
    var s := Holding(snapshots);
    assert s.manifests[id] == [];
    assert Promoted(s, ANN, id, 0, true) == Holding(after);
  }

  const AT1 := map["desktop" := Saved(1, Pending)]
  const AT2 := AT1["deck" := Saved(1, Pending)]
  const AT3 := AT1["deck" := Saved(1, Committed)]
  const AT4 := AT3["deck again" := Saved(2, Pending)]
  const AT5 := AT1["deck again" := Saved(2, Committed)]
  const AT6 := map["desktop" := Saved(1, Committed)]

  lemma Next(n: nat, before: map<string, Snapshot>, after: map<string, Snapshot>)
    requires n < 6 && StateAt(EMPTY, OVERLAP, n) == Holding(before)
    requires Step(Holding(before), OVERLAP[n]).0 == Holding(after)
    ensures StateAt(EMPTY, OVERLAP, n + 1) == Holding(after)
  {
    hide Step, StateAt, Holding;
    StateAtNext(EMPTY, OVERLAP, n);
  }

  lemma BothPrepare()
    ensures StateAt(EMPTY, OVERLAP, 2) == Holding(AT2)
  {
    assert StateAt(EMPTY, OVERLAP, 0) == Holding(map[]);
    PlainPrepare(map[], "desktop", 0);
    hide Step, StateAt, Holding, CurrentVersion;
    Next(0, map[], AT1);
    NothingCurrent();
    PlainPrepare(AT1, "deck", 0);
    Next(1, AT1, AT2);
  }

  lemma NothingCurrent()
    ensures CurrentVersion(Holding(AT1), ANN, PORTAL) == 0
  {
  }

  lemma DeckSyncsTwice()
    ensures StateAt(EMPTY, OVERLAP, 5) == Holding(AT5)
  {
    hide Step, StateAt, Holding, CurrentVersion;
    BothPrepare();
    PlainCommit(AT2, "deck", AT3);
    Next(2, AT2, AT3);
    Current(AT3, "deck");
    PlainPrepare(AT3, "deck again", 1);
    Next(3, AT3, AT4);
    PlainCommit(AT4, "deck again", AT5);
    Next(4, AT4, AT5);
  }

  /** The version goes from two back to one: the update behind version two is gone. */
  lemma OverlapLosesAnUpdate()
    ensures CurrentVersion(StateAt(EMPTY, OVERLAP, 5), ANN, PORTAL) == 2
    ensures Step(StateAt(EMPTY, OVERLAP, 5), OVERLAP[5]).1 == CommittedAs("desktop", 1)
    ensures CurrentVersion(StateAt(EMPTY, OVERLAP, 6), ANN, PORTAL) == 1
    ensures !Orderly(EMPTY, OVERLAP, ANN, PORTAL)
  {
    hide Step, StateAt, Holding, CurrentVersion, Orderly;
    DeckSyncsTwice();
    Current(AT5, "deck again");
    PlainCommit(AT5, "desktop", AT6);
    Next(5, AT5, AT6);
    Current(AT6, "desktop");
    if Orderly(EMPTY, OVERLAP, ANN, PORTAL) {
      NoLostUpdate(EMPTY, OVERLAP, ANN, PORTAL, 5, 6);
    }
  }

  lemma Current(snapshots: map<string, Snapshot>, id: string)
    requires id in snapshots && snapshots[id].status.Committed? && Belongs(snapshots[id], ANN, PORTAL)
    requires forall other | other in snapshots && other != id :: !snapshots[other].status.Committed?
    ensures CurrentVersion(Holding(snapshots), ANN, PORTAL) == snapshots[id].version
  {
    assert WithStatus(Holding(snapshots), ANN, PORTAL, Committed) == {id};
  }
}
