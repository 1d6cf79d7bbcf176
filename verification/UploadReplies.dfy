/** Which of its answers an upload gets, said on the request and on what the temporary file holds. */
module UploadReplies {
  import opened Digests
  import opened Options
  import opened Uploads

  /** What the file holds before the body: from offset zero on, nothing. */
  function Held(slot: Slot, r: Request): Content {
    if r.offset.Or(0) == 0 then [] else slot.temp.Or([])
  }

  /** The length once so many chunks are in. */
  function LengthAt(slot: Slot, r: Request, i: nat): nat
    requires i <= |r.chunks|
  {
    |Held(slot, r)| + |Flatten(r.chunks[..i])|
  }

  predicate RangeFits(r: Request) {
    if r.offset.None? then r.total.None? else r.total.Some? && r.offset.value < r.total.value
  }

  predicate BoundAndChunked(r: Request) {
    r.claims.sha256.Some? && (r.offset.Or(0) > 0 || r.total.Some?)
  }

  predicate AnnouncesTooMuch(r: Request) {
    r.total.Some? && r.total.value > Limit(r)
  }

  /** The request may begin: nothing in its query is refused, and the gate admits what is there. */
  predicate Begins(r: Request) {
    RangeFits(r) && !BoundAndChunked(r) && !AnnouncesTooMuch(r) && r.admits(|r.chunks|, r.offset.Or(0))
  }

  predicate ContinuesThere(slot: Slot, r: Request) {
    r.offset.Or(0) == 0 || (slot.temp.Some? && |slot.temp.value| == r.offset.value)
  }

  /** The i-th chunk keeps the file within the token's limit and the announced total ... */
  predicate SizeFits(slot: Slot, r: Request, i: nat)
    requires 1 <= i <= |r.chunks|
  {
    LengthAt(slot, r, i) <= Limit(r) && (r.total.Some? ==> LengthAt(slot, r, i) <= r.total.value)
  }

  /** ... and the gate admits it. */
  predicate ChunkPasses(slot: Slot, r: Request, i: nat)
    requires 1 <= i <= |r.chunks|
  {
    SizeFits(slot, r, i) && r.admits(|r.chunks| - i, LengthAt(slot, r, i))
  }

  ghost predicate BodyPasses(slot: Slot, r: Request) {
    forall i | 1 <= i <= |r.chunks| :: ChunkPasses(slot, r, i)
  }

  /** The first chunk that does not pass. */
  ghost predicate FirstToFail(slot: Slot, r: Request, i: nat) {
    && 1 <= i <= |r.chunks| && !ChunkPasses(slot, r, i)
    && forall j | 1 <= j < i :: ChunkPasses(slot, r, j)
  }

  predicate Complete(slot: Slot, r: Request) {
    r.total.Some? ==> |Held(slot, r) + Flatten(r.chunks)| >= r.total.value
  }

  predicate DigestMatches(slot: Slot, r: Request) {
    r.claims.sha256.Some? ==> Sha256(Held(slot, r) + Flatten(r.chunks)) == r.claims.sha256.value
  }

  // ---------------------------------------------------------------------------
  // The body
  // ---------------------------------------------------------------------------

  lemma {:induction false} FlattenJoined(a: seq<Content>, b: seq<Content>)
    ensures Flatten(a + b) == Flatten(a) + Flatten(b)
  {
    if a == [] {
      assert a + b == b;
    } else {
      assert (a + b)[1..] == a[1..] + b;
      FlattenJoined(a[1..], b);
    }
  }

  /** The body from the n-th chunk on, when the ones before it have passed: it is taken whole, or refused by the first
      that does not pass, for its size before the gate is asked. */
  lemma {:induction false} ReceivesFrom(slot: Slot, r: Request, n: nat)
    requires n <= |r.chunks| && forall i | 1 <= i <= n :: ChunkPasses(slot, r, i)
    ensures var file := Held(slot, r) + Flatten(r.chunks[..n]);
            var intake := Receive(file, r.chunks[n..], r);
            && (intake.Taken? <==> BodyPasses(slot, r))
            && (intake.Taken? ==> intake.file == Held(slot, r) + Flatten(r.chunks))
            && (intake.Refused? ==> exists i :: FirstToFail(slot, r, i)
                                      && intake.reply == if SizeFits(slot, r, i) then QuotaExceeded else TooLarge)
    decreases |r.chunks| - n
  {
    var file := Held(slot, r) + Flatten(r.chunks[..n]);
    if n == |r.chunks| {
      assert r.chunks[..n] == r.chunks && r.chunks[n..] == [];
    } else {
      var next := file + r.chunks[n];
      OneMoreChunk(slot, r, n);
      assert r.chunks[n..][1..] == r.chunks[n + 1..] && r.chunks[n..][0] == r.chunks[n];
      hide Flatten, Held, BodyPasses;
      if ChunkPasses(slot, r, n + 1) {
        ReceivesFrom(slot, r, n + 1);
      } else {
        FailsAt(slot, r, n + 1);
      }
    }
  }

  lemma OneMoreChunk(slot: Slot, r: Request, n: nat)
    requires n < |r.chunks|
    ensures Held(slot, r) + Flatten(r.chunks[..n]) + r.chunks[n] == Held(slot, r) + Flatten(r.chunks[..n + 1])
  {
    assert r.chunks[..n + 1] == r.chunks[..n] + [r.chunks[n]];
    FlattenJoined(r.chunks[..n], [r.chunks[n]]);
    FlattenOne(r.chunks[n]);
    hide Flatten, Held;
  }

  lemma FlattenOne(chunk: Content)
    ensures Flatten([chunk]) == chunk
  {
    assert [chunk][1..] == [];
    assert chunk + [] == chunk;
  }

  lemma FailsAt(slot: Slot, r: Request, i: nat)
    requires FirstToFail(slot, r, i)
    ensures !BodyPasses(slot, r)
  {
  }

  lemma Receives(slot: Slot, r: Request)
    ensures var intake := Receive(Held(slot, r), r.chunks, r);
            && (intake.Taken? <==> BodyPasses(slot, r))
            && (intake.Taken? ==> intake.file == Held(slot, r) + Flatten(r.chunks))
            && (intake.Refused? ==> exists i :: FirstToFail(slot, r, i)
                                      && intake.reply == if SizeFits(slot, r, i) then QuotaExceeded else TooLarge)
  {
    assert Held(slot, r) + Flatten(r.chunks[..0]) == Held(slot, r);
    assert r.chunks[0..] == r.chunks;
    ReceivesFrom(slot, r, 0);
    hide Held, Receive, FirstToFail, BodyPasses;
  }

  // ---------------------------------------------------------------------------
  // The answers
  // ---------------------------------------------------------------------------

  /** A request is taken whole. */
  ghost predicate Passes(slot: Slot, r: Request) {
    Begins(r) && ContinuesThere(slot, r) && BodyPasses(slot, r)
  }

  lemma BaseIsHeld(slot: Slot, r: Request)
    ensures Base(slot, r).Some? <==> ContinuesThere(slot, r)
    ensures Base(slot, r).Some? ==> Base(slot, r).value == Held(slot, r)
  {
  }

  /** A request is stored exactly if its range fits, it is not chunked under a hash, it announces no more than its token
      allows, it continues where the file ends, each leading part of its body is within limit and total and admitted,
      it does not break off, the total is reached, and the digest is that of the whole. */
  lemma StoredExactly(slot: Slot, r: Request)
    ensures Put(slot, r).1.Stored?
            <==> Passes(slot, r) && !r.interrupted && Complete(slot, r) && DigestMatches(slot, r)
  {
    BaseIsHeld(slot, r);
    Receives(slot, r);
    hide Receive, Held, Flatten, BodyPasses, Limit;
  }

  /** What else becomes of one that is taken whole. */
  lemma TakenOtherwiseExactly(slot: Slot, r: Request)
    ensures var reply := Put(slot, r).1;
            && (reply.HashMismatch? <==>
                  Passes(slot, r) && !r.interrupted && Complete(slot, r) && !DigestMatches(slot, r))
            && (reply.Accepted? <==> Passes(slot, r) && !r.interrupted && !Complete(slot, r))
            && (reply.Interrupted? <==> Passes(slot, r) && r.interrupted)
  {
    BaseIsHeld(slot, r);
    Receives(slot, r);
    hide Receive, Held, Flatten, BodyPasses, Limit;
  }

  /** And why one is not: the first of the reasons, in the order they are looked for. */
  lemma RefusedExactly(slot: Slot, r: Request)
    ensures var reply := Put(slot, r).1;
            && (reply.BadRange? <==> !RangeFits(r))
            && (reply.NotChunkable? <==> RangeFits(r) && BoundAndChunked(r))
            && (reply.OutOfOrder? <==> Begins(r) && !ContinuesThere(slot, r))
            && (reply.TooLarge? <==>
                  || (RangeFits(r) && !BoundAndChunked(r) && AnnouncesTooMuch(r))
                  || (Begins(r) && ContinuesThere(slot, r)
                      && exists i :: FirstToFail(slot, r, i) && !SizeFits(slot, r, i)))
            && (reply.QuotaExceeded? <==>
                  || (RangeFits(r) && !BoundAndChunked(r) && !AnnouncesTooMuch(r) && !Begins(r))
                  || (Begins(r) && ContinuesThere(slot, r)
                      && exists i :: FirstToFail(slot, r, i) && SizeFits(slot, r, i)))
  {
    BaseIsHeld(slot, r);
    Receives(slot, r);
    OneFailsFirst(slot, r);
    PassingFailsNowhere(slot, r);
    hide Receive, Held, Flatten, BodyPasses, Limit, FirstToFail, SizeFits;
  }

  lemma OneFailsFirst(slot: Slot, r: Request)
    ensures forall i, j :: FirstToFail(slot, r, i) && FirstToFail(slot, r, j) ==> i == j
  {
    hide ChunkPasses;
  }

  lemma PassingFailsNowhere(slot: Slot, r: Request)
    ensures BodyPasses(slot, r) ==> forall i :: !FirstToFail(slot, r, i)
  {
    hide ChunkPasses;
  }

  /** What each answer leaves: nothing touched where the request is turned away at the door, no partial file where the
      body is refused, and otherwise the file with the body behind it, as far as it got. */
  lemma LeavesExactly(slot: Slot, r: Request)
    ensures var (after, reply) := Put(slot, r);
            var whole := Held(slot, r) + Flatten(r.chunks);
            var got := |Held(slot, r)| + r.kept;
            match reply
            case BadRange | NotChunkable | OutOfOrder => after == slot
            case TooLarge => after == if AnnouncesTooMuch(r) then slot else slot.(temp := None)
            case QuotaExceeded | HashMismatch => after == slot.(temp := None)
            case Stored => after == Slot(None, Some(whole))
            case Accepted => after == slot.(temp := Some(whole))
            case Interrupted => after == slot.(temp := Some(if got < |whole| then whole[..got] else whole))
  {
    BaseIsHeld(slot, r);
    Receives(slot, r);
    RefusalsAreNamed(Held(slot, r), r.chunks, r);
    var whole := Held(slot, r) + Flatten(r.chunks);
    assert whole[..|whole|] == whole;
    hide Receive, Held, Flatten, BodyPasses, Limit, FirstToFail;
  }

  // ---------------------------------------------------------------------------
  // The limit
  // ---------------------------------------------------------------------------

  /** A token lets a file exceed the declared size by a mebibyte and a tenth of it, and never by more. */
  lemma LimitExactly(declared: nat, length: nat)
    ensures length <= SizeLimit(declared) <==> length <= U64_MAX && 10 * (length - declared - 1_048_576) <= declared
  {
  }

  /** So every body of at most the declared size is stored under its own hash. */
  lemma DeclaredBodyIsStored(slot: Slot, r: Request)
    requires r.offset.None? && r.total.None? && !r.interrupted
    requires |Flatten(r.chunks)| <= r.claims.max <= U64_MAX
    requires r.claims.sha256.Some? ==> r.claims.sha256.value == Sha256(Flatten(r.chunks))
    requires forall left, length :: r.admits(left, length)
    ensures Put(slot, r) == (Slot(None, Some(Flatten(r.chunks))), Stored)
  {
    forall i | 1 <= i <= |r.chunks|
      ensures ChunkPasses(slot, r, i)
    {
      assert r.chunks == r.chunks[..i] + r.chunks[i..];
      FlattenJoined(r.chunks[..i], r.chunks[i..]);
    }
    assert [] + Flatten(r.chunks) == Flatten(r.chunks);
    hide Flatten;
    StoredExactly(slot, r);
    LandedExactly(slot, r);
    hide Put;
  }
}
