/** The chunked upload of src/storage.rs: one storage key, its temporary file and its finished object, and the
    requests that arrive for it one after another. The quota gate's answers are a parameter. */
module Uploads {
  import opened Digests
  import opened Options

  const U64_MAX: nat := 0xffff_ffff_ffff_ffff

  /** What an upload token allows: a declared size, and for content-addressed keys the digest to match. */
  datatype Claims = Claims(max: nat, sha256: Option<Digest>)

  /** One PUT: its query, its body as it streams in, and whether the stream broke off after those chunks, with
      only `kept` of its bytes having reached the disk. `admits` answers for the quota gate at each check, told apart
      by how many chunks are still to come and how long the file is. */
  datatype Request = Request(claims: Claims, offset: Option<nat>, total: Option<nat>, chunks: seq<Content>,
                             interrupted: bool, kept: nat, admits: (nat, nat) -> bool)

  datatype Slot = Slot(temp: Option<Content>, stored: Option<Content>)

  datatype Reply =
    | Stored
    | Accepted
    | BadRange
    | NotChunkable
    | TooLarge
    | QuotaExceeded
    | OutOfOrder
    | Interrupted
    | HashMismatch

  /** Bytes a token declaring `declared` may write: a tenth and a mebibyte of slack, saturating. */
  function SizeLimit(declared: nat): (limit: nat)
    ensures declared <= U64_MAX ==> declared <= limit
  {
    var limit := declared + declared / 10 + 1024 * 1024;
    if limit <= U64_MAX then limit else U64_MAX
  }

  predicate GoodRange(r: Request) {
    || (r.offset.None? && r.total.None?)
    || (r.offset.Some? && r.total.Some? && r.offset.value < r.total.value)
  }

  function Start(r: Request): nat {
    r.offset.Or(0)
  }

  function Limit(r: Request): nat {
    SizeLimit(r.claims.max)
  }

  predicate Oversized(r: Request, written: nat) {
    written > Limit(r) || (r.total.Some? && written > r.total.value)
  }

  function Flatten(chunks: seq<Content>): Content {
    if chunks == [] then [] else chunks[0] + Flatten(chunks[1..])
  }

  datatype Intake = Taken(file: Content) | Refused(reply: Reply)

  /** The body, chunk by chunk, behind what the file already holds. */
  function Receive(file: Content, chunks: seq<Content>, r: Request): Intake
    decreases |chunks|
  {
    if chunks == [] then Taken(file)
    else
      var more := file + chunks[0];
      if Oversized(r, |more|) then Refused(TooLarge)
      else if !r.admits(|chunks| - 1, |more|) then Refused(QuotaExceeded)
      else Receive(more, chunks[1..], r)
  }

  /** What the file holds when the body starts: nothing, or the chunks before this one. */
  function Base(slot: Slot, r: Request): Option<Content> {
    if Start(r) == 0 then Some([])
    else if slot.temp.Some? && |slot.temp.value| == Start(r) then slot.temp
    else None
  }

  function Finish(slot: Slot, file: Content, r: Request): (Slot, Reply) {
    if r.total.Some? && |file| < r.total.value then (slot.(temp := Some(file)), Accepted)
    else if r.claims.sha256.Some? && Sha256(file) != r.claims.sha256.value then (slot.(temp := None), HashMismatch)
    else (Slot(None, Some(file)), Stored)
  }

  function Min(a: nat, b: nat): nat {
    if a <= b then a else b
  }

  function Put(slot: Slot, r: Request): (Slot, Reply) {
    if !GoodRange(r) then (slot, BadRange)
    else if r.claims.sha256.Some? && (Start(r) != 0 || r.total.Some?) then (slot, NotChunkable)
    else if r.total.Some? && r.total.value > Limit(r) then (slot, TooLarge)
    else if !r.admits(|r.chunks|, Start(r)) then (slot.(temp := None), QuotaExceeded)
    else if Base(slot, r).None? then (slot, OutOfOrder)
    else
      var base := Base(slot, r).value;
      var intake := Receive(base, r.chunks, r);
      if intake.Refused? then (slot.(temp := None), intake.reply)
      else if r.interrupted then
        (slot.(temp := Some(intake.file[..Min(|base| + r.kept, |intake.file|)])), Interrupted)
      else
        Finish(slot, intake.file, r)
  }

  class UploadSlot {
    var temp: Option<Content>
    var stored: Option<Content>

    function Value(): Slot
      reads this
    {
      Slot(temp, stored)
    }

    constructor ()
      ensures Value() == Slot(None, None)
    {
      temp, stored := None, None;
    }

    method Upload(r: Request) returns (reply: Reply)
      modifies this
      ensures (Value(), reply) == Put(old(Value()), r)
    {
      if !GoodRange(r) {
        return BadRange;
      }
      var offset := r.offset.Or(0);
      if r.claims.sha256.Some? && (offset != 0 || r.total.Some?) {
        return NotChunkable;
      }
      var limit := SizeLimit(r.claims.max);
      if r.total.Some? && r.total.value > limit {
        return TooLarge;
      }
      if !r.admits(|r.chunks|, offset) {
        temp := None;
        return QuotaExceeded;
      }
      var file: Content := [];
      if offset == 0 {
        temp := Some([]);
      } else {
        var existing := if temp.Some? then |temp.value| else 0;
        if existing != offset {
          return OutOfOrder;
        }
        file := temp.value;
      }
      var base := file;
      var i := 0;
      while i < |r.chunks|
        invariant 0 <= i <= |r.chunks| && stored == old(stored)
        invariant |base| <= |file|
        invariant Receive(base, r.chunks, r) == Receive(file, r.chunks[i..], r)
      {
        file := file + r.chunks[i];
        if |file| > limit || (r.total.Some? && |file| > r.total.value) {
          temp := None;
          return TooLarge;
        }
        if !r.admits(|r.chunks| - i - 1, |file|) {
          temp := None;
          return QuotaExceeded;
        }
        i := i + 1;
      }
      if r.interrupted {
        temp := Some(file[..Min(|base| + r.kept, |file|)]);
        return Interrupted;
      }
      temp := Some(file);
      if r.total.Some? && |file| < r.total.value {
        return Accepted;
      }
      if r.claims.sha256.Some? && Sha256(file) != r.claims.sha256.value {
        temp := None;
        return HashMismatch;
      }
      temp, stored := None, Some(file);
      return Stored;
    }
  }

  // ---------------------------------------------------------------------------
  // One request
  // ---------------------------------------------------------------------------

  lemma {:induction false} ReceivedIsAppended(file: Content, chunks: seq<Content>, r: Request)
    requires Receive(file, chunks, r).Taken?
    ensures Receive(file, chunks, r).file == file + Flatten(chunks)
    ensures chunks != [] ==> !Oversized(r, |file + Flatten(chunks)|)
    decreases |chunks|
  {
    if chunks == [] {
      assert file + [] == file;
    } else {
      ReceivedIsAppended(file + chunks[0], chunks[1..], r);
      assert file + chunks[0] + Flatten(chunks[1..]) == file + Flatten(chunks);
    }
  }

  /** What lands is what the file held - from offset zero, nothing - and this request's whole body behind it; it
      has the announced length, stays within the token's limit, and matches the token's digest. */
  lemma LandedExactly(slot: Slot, r: Request)
    requires Put(slot, r).1.Stored?
    ensures var landed := Put(slot, r).0.stored;
            && landed.Some? && Put(slot, r).0.temp.None?
            && (Start(r) == 0 ==> landed.value == Flatten(r.chunks))
            && (Start(r) > 0 ==> slot.temp.Some? && |slot.temp.value| == Start(r)
                                 && landed.value == slot.temp.value + Flatten(r.chunks))
            && (r.total.Some? ==> |landed.value| == r.total.value)
            && |landed.value| <= Limit(r)
            && (r.claims.sha256.Some? ==> Sha256(landed.value) == r.claims.sha256.value)
            && !r.interrupted
  {
    var base := Base(slot, r).value;
    RefusalsAreNamed(base, r.chunks, r);
    ReceivedIsAppended(base, r.chunks, r);
    assert [] + Flatten(r.chunks) == Flatten(r.chunks);
    if r.chunks == [] {
      assert base + Flatten(r.chunks) == base;
    }
  }

  /** A request that does not land leaves the object alone, and the temporary file untouched, gone, or holding
      its base and some leading part of the body. */
  lemma PartialIsPrefix(slot: Slot, r: Request)
    requires !Put(slot, r).1.Stored?
    ensures Put(slot, r).0.stored == slot.stored
    ensures var temp := Put(slot, r).0.temp;
            || temp == slot.temp || temp.None?
            || (Base(slot, r).Some? && Base(slot, r).value <= temp.value <= Base(slot, r).value + Flatten(r.chunks))
  {
    if Base(slot, r).Some? && Receive(Base(slot, r).value, r.chunks, r).Taken? {
      ReceivedIsAppended(Base(slot, r).value, r.chunks, r);
    }
  }

  /** A refused body leaves no partial file behind - with one exception: a request whose announced total is over
      the limit is turned away before anything is touched, and an earlier chunk's partial file stays. */
  lemma RefusalLeavesNothingExactly(slot: Slot, r: Request)
    requires Put(slot, r).1.TooLarge? || Put(slot, r).1.QuotaExceeded? || Put(slot, r).1.HashMismatch?
    ensures Put(slot, r).0.temp.None? <==> slot.temp.None? || !(r.total.Some? && r.total.value > Limit(r))
    ensures Put(slot, r).0.stored == slot.stored
  {
  }

  lemma {:induction false} RefusalsAreNamed(file: Content, chunks: seq<Content>, r: Request)
    ensures var intake := Receive(file, chunks, r);
            intake.Refused? ==> intake.reply.TooLarge? || intake.reply.QuotaExceeded?
    decreases |chunks|
  {
    if chunks != [] {
      RefusalsAreNamed(file + chunks[0], chunks[1..], r);
    }
  }

  /** The exception is real: a first chunk, then a second request that announces more than the token allows. */
  lemma PartialCanStay()
    ensures var first := Request(Claims(10, None), Some(0), Some(10), [[1, 2, 3]], false, 0, (_, _) => true);
            var second := first.(offset := Some(3), total := Some(2_000_000));
            var slot := Put(Slot(None, None), first).0;
            slot.temp == Some([1, 2, 3]) && Put(slot, second) == (slot, TooLarge)
  {
    var first := Request(Claims(10, None), Some(0), Some(10), [[1, 2, 3]], false, 0, (_, _) => true);
    var more: Content := [] + [1, 2, 3];
    assert first.chunks[1..] == [];
    assert more == [1, 2, 3];
    assert Receive([], first.chunks, first) == Receive(more, [], first) == Taken(more);
  }

  // ---------------------------------------------------------------------------
  // Any sequence of requests
  // ---------------------------------------------------------------------------

  function AfterAll(slot: Slot, requests: seq<Request>): Slot {
    if requests == [] then slot else Put(AfterAll(slot, requests[..|requests| - 1]), requests[|requests| - 1]).0
  }

  function ReplyTo(slot: Slot, requests: seq<Request>, i: nat): Reply
    requires i < |requests|
  {
    Put(AfterAll(slot, requests[..i]), requests[i]).1
  }

  predicate Took(reply: Reply) {
    reply.Accepted? || reply.Interrupted? || reply.Stored?
  }

  /** The part of a request's body that the server kept: all of it, or what reached the disk before it broke off. */
  function Part(r: Request, reply: Reply): Content {
    var body := Flatten(r.chunks);
    if reply.Interrupted? then body[..Min(r.kept, |body|)] else if Took(reply) then body else []
  }

  /** The i-th request began the file anew. */
  predicate RestartsAt(slot: Slot, requests: seq<Request>, i: nat)
    requires i < |requests|
  {
    Start(requests[i]) == 0 && Took(ReplyTo(slot, requests, i))
  }

  const FOUND: int := -1

  /** The kept parts of the requests from the i-th on, one after another; or, for FOUND, of all of them, behind the
      file that was there already. */
  function Joined(slot: Slot, requests: seq<Request>, i: int): Content {
    if |requests| <= i then []
    else if requests == [] then if i == FOUND then slot.temp.Or([]) else []
    else
      var n := |requests| - 1;
      Joined(slot, requests[..n], i) + Part(requests[n], ReplyTo(slot, requests, n))
  }

  /** Since the i-th request, which began the file - or, for FOUND, since it was found begun - none has begun it
      again, and each that added to it continued at the length it had by then. */
  ghost predicate Continued(slot: Slot, requests: seq<Request>, i: int) {
    && (if i == FOUND then slot.temp.Some? else 0 <= i < |requests| && RestartsAt(slot, requests, i))
    && forall j | i < j < |requests| && Took(ReplyTo(slot, requests, j)) ::
         0 < Start(requests[j]) == |Joined(slot, requests[..j], i)|
  }

  lemma PrefixReplies(slot: Slot, requests: seq<Request>, n: nat, j: nat)
    requires j < n <= |requests|
    ensures ReplyTo(slot, requests[..n], j) == ReplyTo(slot, requests, j) && requests[..n][..j] == requests[..j]
  {
  }

  /** What a request that is not refused leaves: its base with the part of its body that was kept. */
  lemma TookAppends(slot: Slot, r: Request)
    requires Took(Put(slot, r).1)
    ensures var (after, reply) := Put(slot, r);
            && Base(slot, r).Some?
            && (if reply.Stored? then after.stored else after.temp) == Some(Base(slot, r).value + Part(r, reply))
  {
    var base := Base(slot, r).value;
    RefusalsAreNamed(base, r.chunks, r);
    ReceivedIsAppended(base, r.chunks, r);
    var file := base + Flatten(r.chunks);
    assert file[..Min(|base| + r.kept, |file|)] == base + Flatten(r.chunks)[..Min(r.kept, |Flatten(r.chunks)|)];
  }

  lemma RefusedKeepsOrDrops(slot: Slot, r: Request)
    requires !Took(Put(slot, r).1)
    ensures Put(slot, r).0.temp == slot.temp || Put(slot, r).0.temp.None?
    ensures Put(slot, r).0.stored == slot.stored
  {
  }

  lemma ContinuedBySkipping(slot: Slot, requests: seq<Request>, i: int)
    requires requests != [] && Continued(slot, requests[..|requests| - 1], i)
    requires Took(ReplyTo(slot, requests, |requests| - 1)) ==>
               0 < Start(requests[|requests| - 1]) == |Joined(slot, requests[..|requests| - 1], i)|
    ensures Continued(slot, requests, i)
  {
    hide Put, Joined, Took, ReplyTo, Start;
    var n := |requests| - 1;
    if i >= 0 {
      PrefixReplies(slot, requests, n, i);
    }
    forall j | i < j < |requests| && Took(ReplyTo(slot, requests, j))
      ensures 0 < Start(requests[j]) == |Joined(slot, requests[..j], i)|
    {
      if j < n {
        PrefixReplies(slot, requests, n, j);
        assert requests[..n][j] == requests[j];
      }
    }
  }

  lemma Restarted(slot: Slot, requests: seq<Request>)
    requires requests != [] && RestartsAt(slot, requests, |requests| - 1)
    ensures Continued(slot, requests, |requests| - 1)
    ensures Joined(slot, requests, |requests| - 1)
            == Part(requests[|requests| - 1], ReplyTo(slot, requests, |requests| - 1))
  {
  }

  /** Over any sequence of requests, whoever sends them and whatever they carry: the temporary file holds exactly
      the kept parts since the last accepted request at offset zero, each continuing at the length so far. Without
      such a request it holds them behind what was there at first. */
  lemma {:induction false} PartialIsAssembled(slot: Slot, requests: seq<Request>) returns (from: int)
    requires AfterAll(slot, requests).temp.Some?
    ensures Continued(slot, requests, from)
    ensures AfterAll(slot, requests).temp.value == Joined(slot, requests, from)
  {
    hide Put, Continued, Part;
    if requests == [] {
      FoundBegun(slot);
      return FOUND;
    }
    var n := |requests| - 1;
    var before, r, reply := AfterAll(slot, requests[..n]), requests[n], ReplyTo(slot, requests, n);
    if Took(reply) {
      TookAppends(before, r);
      StoredLeavesNothing(before, r);
      BaseIs(before, r);
      if Start(r) == 0 {
        from := n;
        Restarted(slot, requests);
      } else {
        from := PartialIsAssembled(slot, requests[..n]);
        ContinuedBySkipping(slot, requests, from);
        InRange(slot, requests[..n], from);
      }
    } else {
      RefusedKeepsOrDrops(before, r);
      from := PartialIsAssembled(slot, requests[..n]);
      ContinuedBySkipping(slot, requests, from);
      InRange(slot, requests[..n], from);
      NothingKept(r, reply);
    }
  }

  lemma FoundBegun(slot: Slot)
    requires slot.temp.Some?
    ensures Continued(slot, [], FOUND) && Joined(slot, [], FOUND) == slot.temp.value
  {
  }

  lemma StoredLeavesNothing(slot: Slot, r: Request)
    ensures Put(slot, r).1.Stored? ==> Put(slot, r).0.temp.None?
  {
  }

  lemma BaseIs(slot: Slot, r: Request)
    requires Base(slot, r).Some?
    ensures if Start(r) == 0 then Base(slot, r).value == []
            else slot.temp == Base(slot, r) && |slot.temp.value| == Start(r)
  {
  }

  lemma InRange(slot: Slot, requests: seq<Request>, i: int)
    requires Continued(slot, requests, i)
    ensures FOUND <= i < |requests| && (i == FOUND ==> slot.temp.Some?)
  {
  }

  lemma NothingKept(r: Request, reply: Reply)
    requires !Took(reply)
    ensures Part(r, reply) == []
  {
  }

  /** What lands is those parts too: the last of them is the landing request's whole body, and together they have
      the length it announces, stay within its token's limit and match its digest. */
  lemma LandedIsAssembled(slot: Slot, requests: seq<Request>) returns (from: int)
    requires requests != [] && ReplyTo(slot, requests, |requests| - 1).Stored?
    ensures Continued(slot, requests, from)
    ensures AfterAll(slot, requests).stored == Some(Joined(slot, requests, from))
    ensures var r, landed := requests[|requests| - 1], Joined(slot, requests, from);
            && Flatten(r.chunks) == Part(r, ReplyTo(slot, requests, |requests| - 1))
            && (r.total.Some? ==> |landed| == r.total.value)
            && |landed| <= Limit(r)
            && (r.claims.sha256.Some? ==> Sha256(landed) == r.claims.sha256.value)
  {
    hide Put, Continued, Limit;
    var n := |requests| - 1;
    var before, r := AfterAll(slot, requests[..n]), requests[n];
    TookAppends(before, r);
    LandedExactly(before, r);
    BaseIs(before, r);
    if Start(r) == 0 {
      from := n;
      Restarted(slot, requests);
    } else {
      from := PartialIsAssembled(slot, requests[..n]);
      ContinuedBySkipping(slot, requests, from);
      InRange(slot, requests[..n], from);
    }
  }

  /** Nothing else changes the object: it is the one from before, or what the latest landing left. */
  lemma {:induction false} OnlyLandingsChangeTheObject(slot: Slot, requests: seq<Request>)
    ensures || AfterAll(slot, requests).stored == slot.stored
            || exists n | 0 < n <= |requests| ::
                 ReplyTo(slot, requests, n - 1).Stored?
                   && AfterAll(slot, requests).stored == AfterAll(slot, requests[..n]).stored
  {
    hide Put;
    if requests != [] {
      var k := |requests| - 1;
      OnlyLandingsChangeTheObject(slot, requests[..k]);
      if ReplyTo(slot, requests, k).Stored? {
        assert requests[..k + 1] == requests;
      } else {
        NoLandingNoChange(AfterAll(slot, requests[..k]), requests[k]);
        if AfterAll(slot, requests[..k]).stored != slot.stored {
          var n :| 0 < n <= k && ReplyTo(slot, requests[..k], n - 1).Stored?
                   && AfterAll(slot, requests[..k]).stored == AfterAll(slot, requests[..k][..n]).stored;
          PrefixReplies(slot, requests, k, n - 1);
          assert requests[..k][..n] == requests[..n];
          assert ReplyTo(slot, requests, n - 1).Stored?;
        }
      }
    }
  }

  lemma NoLandingNoChange(slot: Slot, r: Request)
    requires !Put(slot, r).1.Stored?
    ensures Put(slot, r).0.stored == slot.stored
  {
  }

  // ---------------------------------------------------------------------------
  // One file
  // ---------------------------------------------------------------------------

  /** A request of a launcher that is sending `file`: the body is the file from its offset on, as far as it goes;
      chunked, it announces the file's length, and unchunked it carries the file whole unless it breaks off. */
  predicate Sends(r: Request, file: Content) {
    && Start(r) <= |file| && Flatten(r.chunks) <= file[Start(r)..]
    && (r.total.Some? ==> r.total.value == |file|)
    && (r.total.None? && !r.interrupted ==> Flatten(r.chunks) == file[Start(r)..])
  }

  predicate Partial(temp: Option<Content>, file: Content) {
    temp.Some? ==> temp.value <= file
  }

  lemma PartSends(r: Request, reply: Reply, file: Content, sofar: Content)
    requires Sends(r, file) && Took(reply) && sofar <= file && |sofar| == Start(r)
    ensures sofar + Part(r, reply) <= file
  {
  }

  /** Parts of one file, each continuing where the ones before it end, are a leading part of the file. */
  lemma {:induction false} JoinedIsPrefix(slot: Slot, requests: seq<Request>, from: int, n: nat, file: Content)
    requires Partial(slot.temp, file) && Continued(slot, requests, from) && from < n <= |requests|
    requires forall i | 0 <= i < |requests| :: Sends(requests[i], file)
    ensures Joined(slot, requests[..n], from) <= file
    decreases n
  {
    hide Put, Sends, Part;
    if n == 0 {
      return;
    }
    var r, reply := requests[n - 1], ReplyTo(slot, requests, n - 1);
    PrefixReplies(slot, requests, n, n - 1);
    assert requests[..n][n - 1] == r;
    assert Joined(slot, requests[..n], from) == Joined(slot, requests[..n - 1], from) + Part(r, reply);
    if n - 1 > from {
      JoinedIsPrefix(slot, requests, from, n - 1, file);
    } else {
      assert Joined(slot, requests[..n - 1], from) == [];
    }
    if Took(reply) {
      PartSends(r, reply, file, Joined(slot, requests[..n - 1], from));
    } else {
      NothingKept(r, reply);
    }
  }

  /** Whatever order its chunks arrive in, however often they are retried, interrupted or refused, the object a
      launcher's requests leave is the one that was there before or exactly the file it is sending. */
  lemma OnlyTheFileLands(slot: Slot, requests: seq<Request>, file: Content)
    requires Partial(slot.temp, file)
    requires forall i | 0 <= i < |requests| :: Sends(requests[i], file)
    ensures Partial(AfterAll(slot, requests).temp, file)
    ensures AfterAll(slot, requests).stored == slot.stored || AfterAll(slot, requests).stored == Some(file)
  {
    hide Put, Continued, Joined, Sends;
    assert requests[..|requests|] == requests;
    if AfterAll(slot, requests).temp.Some? {
      var from := PartialIsAssembled(slot, requests);
      InRange(slot, requests, from);
      JoinedIsPrefix(slot, requests, from, |requests|, file);
    }
    OnlyLandingsChangeTheObject(slot, requests);
    if AfterAll(slot, requests).stored != slot.stored {
      var n :| 0 < n <= |requests| && ReplyTo(slot, requests, n - 1).Stored?
               && AfterAll(slot, requests).stored == AfterAll(slot, requests[..n]).stored;
      var sofar := requests[..n];
      PrefixReplies(slot, requests, n, n - 1);
      var from := LandedIsAssembled(slot, sofar);
      InRange(slot, sofar, from);
      assert sofar[..n] == sofar;
      JoinedIsPrefix(slot, sofar, from, n, file);
      WholeFile(slot, sofar, from, file);
    }
  }

  lemma WholeFile(slot: Slot, requests: seq<Request>, from: int, file: Content)
    requires requests != [] && Continued(slot, requests, from) && Joined(slot, requests, from) <= file
    requires var r := requests[|requests| - 1];
             && Sends(r, file) && ReplyTo(slot, requests, |requests| - 1).Stored?
             && (r.total.Some? ==> |Joined(slot, requests, from)| == r.total.value)
    ensures Joined(slot, requests, from) == file
  {
    var n := |requests| - 1;
    var r := requests[n];
    if r.total.None? {
      LandedExactly(AfterAll(slot, requests[..n]), r);
      assert Start(r) == |Joined(slot, requests[..n], from)| by {
        hide Put;
        if from == n {
          assert Joined(slot, requests[..n], from) == [];
        }
      }
      hide Put;
      assert |Joined(slot, requests, from)| == |file|;
    }
  }

  /** That every request sends the same file is needed: a first chunk of one file and a second of another land as
      neither. */
  lemma ChangedFileLandsMixed()
    ensures var first := Request(Claims(10, None), Some(0), Some(4), [[1, 2]], false, 0, (_, _) => true);
            var second := first.(offset := Some(2), chunks := [[9, 9]]);
            && Sends(first, [1, 2, 3, 4]) && Sends(second, [8, 8, 9, 9])
            && AfterAll(Slot(None, None), [first, second]).stored == Some([1, 2, 9, 9])
  {
    var first := Request(Claims(10, None), Some(0), Some(4), [[1, 2]], false, 0, (_, _) => true);
    var second := first.(offset := Some(2), chunks := [[9, 9]]);
    var one: Content, two: Content := [] + [1, 2], [1, 2] + [9, 9];
    assert one == [1, 2] && two == [1, 2, 9, 9];
    assert first.chunks[1..] == [] && second.chunks[1..] == [];
    assert Flatten(first.chunks) == [1, 2] + [] == [1, 2] && Flatten(second.chunks) == [9, 9] + [] == [9, 9];
    assert Receive([], first.chunks, first) == Receive(one, [], first) == Taken(one);
    assert Receive([1, 2], second.chunks, second) == Receive(two, [], second) == Taken(two);
    assert [first, second][..1] == [first] && [first][..0] == [];
    assert AfterAll(Slot(None, None), [first]) == Slot(Some([1, 2]), None);
  }
}
