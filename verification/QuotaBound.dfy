/** How far concurrent uploads can take an account past its quota: never by a whole refresh for each gate it has
    opened, and not at all when no upload lands between a gate's read and its later checks. */
module QuotaBound {
  import opened Quota

  /** Between reads an upload's extra grows by less than a refresh. */
  lemma BelowCeiling(gate: Gate, written: nat)
    requires gate.readAt <= written < gate.readAt + QUOTA_REFRESH_BYTES
    ensures Extra(gate, gate.readAt) <= Extra(gate, written) <= Ceiling(gate)
  {
  }

  /** Ceilings exceed what is being added by no more than the allowances. */
  lemma CeilingsAbove(s: Server, user: string)
    requires Shaped(s)
    ensures Sum(Adding(s), user) <= Sum(Ceilings(s), user)
    ensures Sum(Ceilings(s), user) <= Sum(Adding(s), user) + Sum(Allowances(s), user)
  {
    hide Sum;
    var adding, ceilings, allowances := Adding(s), Ceilings(s), Allowances(s);
    forall key | key in adding
      ensures Share(adding[key], user) <= Share(ceilings[key], user)
      ensures Share(ceilings[key], user) <= Share(adding[key], user) + Share(allowances[key], user)
    {
      BelowCeiling(s.uploads[key].gate, s.uploads[key].written);
    }
    SumBelow(adding, ceilings, user);
    SumStretch(ceilings, adding, allowances, user);
  }

  lemma {:induction false} SumStretch(big: Charges, small: Charges, room: Charges, user: string)
    requires big.Keys == small.Keys == room.Keys
    requires forall key | key in big :: Share(big[key], user) <= Share(small[key], user) + Share(room[key], user)
    ensures Sum(big, user) <= Sum(small, user) + Sum(room, user)
    decreases |big|
  {
    if big != map[] {
      var key :| key in big;
      hide Sum, Share, Signed;
      SumTake(big, key, user);
      SumTake(small, key, user);
      SumTake(room, key, user);
      SumStretch(big - {key}, small - {key}, room - {key}, user);
    }
  }

  /** The other uploads' published bytes cover what the admitted ones among them add. */
  lemma OthersCovered(s: Server, key: string, user: string)
    requires Shaped(s)
    ensures Sum(Adding(Without(s, key)), user) <= Sum(s.entries - {key}, user)
  {
    SumBelow(Adding(Without(s, key)), s.entries - {key}, user);
  }

  /** An admitted check measured against the rows as they are either adds nothing or leaves the total within
      the quota. */
  lemma AdmittedWithinQuota(gate: Gate, key: string, entries: Charges, rows: Charges, quota: nat, written: nat,
                            others: nat)
    requires quota + gate.counted < I64_MAX
    requires gate.budget <= Remaining(quota, rows, gate.user, gate.counted)
    requires Fits(gate, key, entries, written)
    requires others <= Sum(entries - {key}, gate.user)
    ensures Extra(gate, written) == 0 || Sum(rows, gate.user) + others + Extra(gate, written) <= quota
  {
  }

  // ---------------------------------------------------------------------------
  // One step
  // ---------------------------------------------------------------------------

  /** Setting one upload aside splits every sum over the uploads. */
  lemma Aside(s: Server, key: string, user: string)
    requires key in s.uploads && !s.uploads[key].refused
    ensures Sum(Adding(s), user)
            == Sum(Adding(Without(s, key)), user)
               + Share(Charge(s.uploads[key].gate.user, Extra(s.uploads[key].gate, s.uploads[key].written)), user)
    ensures Sum(Ceilings(s), user)
            == Sum(Ceilings(Without(s, key)), user)
               + Share(Charge(s.uploads[key].gate.user, Ceiling(s.uploads[key].gate)), user)
    ensures Sum(Allowances(s), user)
            == Sum(Allowances(Without(s, key)), user)
               + Share(Charge(s.uploads[key].gate.user, QUOTA_REFRESH_BYTES - 1), user)
  {
    assert Adding(s) - {key} == Adding(Without(s, key));
    assert Ceilings(s) - {key} == Ceilings(Without(s, key));
    assert Allowances(s) - {key} == Allowances(Without(s, key));
    SumTake(Adding(s), key, user);
    SumTake(Ceilings(s), key, user);
    SumTake(Allowances(s), key, user);
  }

  lemma NothingAside(s: Server, key: string)
    requires key !in s.uploads || s.uploads[key].refused
    ensures Adding(Without(s, key)) == Adding(s) && Ceilings(Without(s, key)) == Ceilings(s)
            && Allowances(Without(s, key)) == Allowances(s)
  {
  }

  lemma ClosingAddsNothing(s: Server, key: string, user: string, limit: nat)
    requires Shaped(s) && CountedUpTo(s, user, limit)
    ensures var t := Without(s, key);
            && Shaped(t) && CountedUpTo(t, user, limit)
            && Total(t, user) <= Total(s, user)
            && Sum(Ceilings(t), user) <= Sum(Ceilings(s), user)
            && Sum(Allowances(t), user) <= Sum(Allowances(s), user)
  {
    if key in s.uploads && !s.uploads[key].refused {
      Aside(s, key, user);
    } else {
      NothingAside(s, key);
    }
    hide Sum, Adding, Ceilings, Allowances;
  }

  /** What a check finds: its upload in order. */
  ghost predicate InOrder(s: Server, key: string, up: Upload, written: nat) {
    && Shaped(s)
    && up.gate.readAt <= up.written <= written
    && (key in s.uploads ==> s.uploads[key].gate.user == up.gate.user)
    && (key in s.rows ==> s.rows[key] == Charge(up.gate.user, up.gate.counted))
  }

  /** A check is the last of its upload's, and less than a refresh past its read. */
  lemma CheckedIsPublished(s: Server, key: string, up: Upload, quota: nat, written: nat)
    requires AllPublished(s) && up.gate.readAt <= written
    requires key in s.uploads ==> s.uploads[key].gate.user == up.gate.user
    ensures AllPublished(Checked(s, key, up, quota, written))
  {
    hide Sum, Remaining, Fits, Extra;
    assert Checked(s, key, up, quota, written).entries.Keys == s.entries.Keys + {key};
  }

  lemma CheckedIsCounted(s: Server, key: string, up: Upload, quota: nat, written: nat)
    requires AllCounted(s) && (key in s.rows ==> s.rows[key] == Charge(up.gate.user, up.gate.counted))
    ensures AllCounted(Checked(s, key, up, quota, written))
  {
    hide Sum, Remaining, Fits, Extra, Published;
  }

  /** Everything but one upload is as before. */
  lemma CheckedAside(s: Server, key: string, up: Upload, quota: nat, written: nat)
    ensures Without(Checked(s, key, up, quota, written), key) == Without(s, key)
    ensures Checked(s, key, up, quota, written).entries - {key} == s.entries - {key}
  {
    hide Sum, Remaining, Fits, Extra;
  }

  lemma CheckedShape(s: Server, key: string, up: Upload, quota: nat, written: nat)
    requires InOrder(s, key, up, written)
    ensures Shaped(Checked(s, key, up, quota, written))
    ensures Without(Checked(s, key, up, quota, written), key) == Without(s, key)
    ensures Checked(s, key, up, quota, written).entries - {key} == s.entries - {key}
  {
    CheckedIsPublished(s, key, up, quota, written);
    CheckedIsCounted(s, key, up, quota, written);
    CheckedAside(s, key, up, quota, written);
    hide Checked, Without, AllPublished, AllCounted;
  }

  /** Before an upload's check: the others' ceilings leave it at least one refresh. */
  ghost predicate RoomAside(s: Server, key: string, user: string, quota: nat) {
    var w := Without(s, key);
    && Sum(Allowances(w), user) + QUOTA_REFRESH_BYTES - 1 <= Slack(s.openings[user])
    && Sum(s.rows, user) + Sum(Ceilings(w), user) + QUOTA_REFRESH_BYTES - 1 <= quota + Slack(s.openings[user])
  }

  lemma RefusedCheckKeepsBound(s: Server, key: string, up: Upload, quota: nat, written: nat)
    requires var t := Checked(s, key, up, quota, written);
             Shaped(t) && Without(t, key) == Without(s, key) && t.uploads[key].refused
    requires RoomAside(s, key, up.gate.user, quota)
    ensures Bounded(Checked(s, key, up, quota, written), up.gate.user, quota)
  {
    NothingAside(Checked(s, key, up, quota, written), key);
  }

  /** An admitted check against a budget as good as fresh keeps the bound. */
  lemma FreshCheckKeepsBound(s: Server, key: string, up: Upload, quota: nat, written: nat)
    requires Shaped(s) && quota + up.gate.counted < I64_MAX
    requires var t := Checked(s, key, up, quota, written);
             && Shaped(t) && Without(t, key) == Without(s, key) && t.entries - {key} == s.entries - {key}
             && !t.uploads[key].refused
             && t.uploads[key].gate.budget <= Remaining(quota, s.rows, up.gate.user, up.gate.counted)
    requires RoomAside(s, key, up.gate.user, quota)
    ensures Bounded(Checked(s, key, up, quota, written), up.gate.user, quota)
  {
    var t, w, user := Checked(s, key, up, quota, written), Without(s, key), up.gate.user;
    var gate := t.uploads[key].gate;
    hide Checked, Without, Sum, Adding, Ceilings, Allowances, Fits, Remaining;
    Aside(t, key, user);
    WithoutShaped(s, key);
    CeilingsAbove(w, user);
    OthersCovered(s, key, user);
    CheckedFits(s, key, up, quota, written);
    AdmittedWithinQuota(gate, key, t.entries, s.rows, quota, written, Sum(Adding(w), user));
    BelowCeiling(gate, written);
  }

  lemma WithoutShaped(s: Server, key: string)
    requires Shaped(s)
    ensures Shaped(Without(s, key))
  {
  }

  lemma CheckedFits(s: Server, key: string, up: Upload, quota: nat, written: nat)
    ensures var t := Checked(s, key, up, quota, written);
            && t.rows == s.rows && t.openings == s.openings && key in t.uploads
            && t.uploads[key].gate == Refreshed(up.gate, quota, s.rows, written)
            && t.uploads[key].written == written
            && (!t.uploads[key].refused ==> Fits(t.uploads[key].gate, key, t.entries, written))
  {
  }

  /** A check leaves every other user's sums alone. */
  lemma CheckKeepsOthers(s: Server, key: string, up: Upload, quota: nat, written: nat, user: string)
    requires Shaped(s) && up.gate.user != user
    requires key in s.uploads ==> s.uploads[key].gate.user == up.gate.user
    requires Without(Checked(s, key, up, quota, written), key) == Without(s, key)
    ensures var t := Checked(s, key, up, quota, written);
            && Sum(Adding(t), user) == Sum(Adding(s), user) && Sum(Ceilings(t), user) == Sum(Ceilings(s), user)
            && Sum(Allowances(t), user) == Sum(Allowances(s), user)
  {
    var t := Checked(s, key, up, quota, written);
    SetAside(s, key, user);
    SetAside(t, key, user);
  }

  lemma SetAside(s: Server, key: string, user: string)
    requires key in s.uploads ==> s.uploads[key].gate.user != user
    ensures Sum(Adding(s), user) == Sum(Adding(Without(s, key)), user)
    ensures Sum(Ceilings(s), user) == Sum(Ceilings(Without(s, key)), user)
    ensures Sum(Allowances(s), user) == Sum(Allowances(Without(s, key)), user)
  {
    if key in s.uploads && !s.uploads[key].refused {
      Aside(s, key, user);
    } else {
      NothingAside(s, key);
    }
  }

  lemma CheckedCountedUpTo(s: Server, key: string, up: Upload, quota: nat, written: nat, user: string, limit: nat)
    requires CountedUpTo(s, user, limit) && (up.gate.user == user ==> up.gate.counted <= limit)
    ensures CountedUpTo(Checked(s, key, up, quota, written), user, limit)
  {
    hide Sum, Remaining, Fits, Extra;
  }

  lemma OpensInOrder(s: Server, key: string, user: string, quota: nat, declared: nat, written: nat)
    requires Shaped(s) && key !in s.uploads && (key in s.rows ==> s.rows[key].user == user)
    ensures InOrder(Announced(s, user), key, Opening(s, key, user, quota, declared), written)
  {
    hide Sum, Remaining, Extra;
  }

  lemma OpensCounted(s: Server, key: string, user: string, quota: nat, declared: nat)
    requires key in s.rows ==> s.rows[key].user == user
    ensures Opening(s, key, user, quota, declared).gate.counted <= Sum(s.rows, user)
  {
    if key in s.rows {
      SumTake(s.rows, key, user);
    }
  }

  lemma ReadyToOpen(s: Server, key: string, user: string, quota: nat, declared: nat, written: nat, other: string,
                    limit: nat)
    requires Inv(s, other, limit) && key !in s.uploads && (user == other ==> quota == limit)
    requires key in s.rows ==> s.rows[key].user == user
    ensures Ready(Announced(s, user), key, Opening(s, key, user, quota, declared), written, other, limit)
  {
    var s' := Announced(s, user);
    OpensInOrder(s, key, user, quota, declared, written);
    OpensCounted(s, key, user, quota, declared);
    assert Without(s', key) == s' && Allowances(s') == Allowances(s) && Ceilings(s') == Ceilings(s);
    hide Opening, InOrder, Shaped, Sum, Allowances, Ceilings, Without;
    assert Opening(s, key, user, quota, declared).gate.user == user by { OpeningUser(s, key, user, quota, declared); }
  }

  lemma OpeningUser(s: Server, key: string, user: string, quota: nat, declared: nat)
    ensures Opening(s, key, user, quota, declared).gate.user == user
  {
  }

  /** What a check of the bound has to find besides: room set aside for its upload. */
  ghost predicate Ready(s: Server, key: string, up: Upload, written: nat, user: string, limit: nat) {
    && InOrder(s, key, up, written) && CountedUpTo(s, user, limit + Slack(s.openings[user]))
    && (if up.gate.user == user then
          RoomAside(s, key, user, limit) && up.gate.counted <= limit + Slack(s.openings[user])
        else
          Bounded(s, user, limit))
  }

  lemma OthersCheckKeepsBound(s: Server, key: string, up: Upload, quota: nat, written: nat, user: string, limit: nat)
    requires Shaped(s) && up.gate.user != user && Bounded(s, user, limit)
    requires key in s.uploads ==> s.uploads[key].gate.user == up.gate.user
    requires Without(Checked(s, key, up, quota, written), key) == Without(s, key)
    ensures Bounded(Checked(s, key, up, quota, written), user, limit)
  {
    CheckedFits(s, key, up, quota, written);
    CheckKeepsOthers(s, key, up, quota, written, user);
    hide Checked, Sum, Allowances, Ceilings, Adding, Without, Shaped;
  }

  /** A chunk of this upload that does not read the database again. */
  predicate StillInside(s: Server, key: string, up: Upload, written: nat) {
    key in s.uploads && s.uploads[key] == up && !up.refused && !Rereads(up.gate, written)
  }

  /** Inside a refresh the ceiling stays where it was. */
  lemma LaterCheckKeepsBound(s: Server, key: string, up: Upload, quota: nat, written: nat, user: string)
    requires StillInside(s, key, up, written)
    requires Bounded(s, user, quota) && !Checked(s, key, up, quota, written).uploads[key].refused
    requires Without(Checked(s, key, up, quota, written), key) == Without(s, key)
    ensures Bounded(Checked(s, key, up, quota, written), user, quota)
  {
    CheckedFits(s, key, up, quota, written);
    Aside(s, key, user);
    Aside(Checked(s, key, up, quota, written), key, user);
    hide Checked, Sum, Allowances, Ceilings, Adding, Without, Fits;
  }

  /** A check whose budget is as good as fresh - or which is still inside the last one - keeps the invariant. */
  lemma CheckKeepsInv(s: Server, key: string, up: Upload, quota: nat, written: nat, user: string, limit: nat)
    requires Ready(s, key, up, written, user, limit) && Fathomable(s, user, limit)
    requires up.gate.user == user ==> quota == limit
    requires up.gate.user == user && !StillInside(s, key, up, written) ==>
               Refreshed(up.gate, quota, s.rows, written).budget <= Remaining(quota, s.rows, user, up.gate.counted)
    requires up.gate.user == user && key in s.uploads ==> Bounded(s, user, limit)
    ensures Inv(Checked(s, key, up, quota, written), user, limit)
  {
    var t := Checked(s, key, up, quota, written);
    CheckedShape(s, key, up, quota, written);
    CheckedFits(s, key, up, quota, written);
    CheckedCountedUpTo(s, key, up, quota, written, user, limit + Slack(s.openings[user]));
    hide Checked, Sum, Allowances, Ceilings, Adding, Shaped, CountedUpTo, RoomAside, Without, Remaining, Fits, Bounded;
    if up.gate.user != user {
      OthersCheckKeepsBound(s, key, up, quota, written, user, limit);
    } else if t.uploads[key].refused {
      RefusedCheckKeepsBound(s, key, up, quota, written);
    } else if StillInside(s, key, up, written) {
      LaterCheckKeepsBound(s, key, up, quota, written, user);
    } else {
      FreshCheckKeepsBound(s, key, up, quota, written);
    }
  }

  lemma OpenKeepsInv(s: Server, op: Op, quotas: string -> nat, user: string)
    requires op.Open? && Inv(s, user, quotas(user)) && Fathomable(Step(s, op, quotas), user, quotas(user))
    ensures Inv(Step(s, op, quotas), user, quotas(user))
  {
    var key, owner := op.key, OwnerOf(s, op.key, op.prefixUser);
    if key !in s.uploads && quotas(owner) != 0 {
      var s', up := Announced(s, owner), Opening(s, key, owner, quotas(owner), op.declared);
      hide Sum, Allowances, Ceilings, Adding, CountedUpTo, RoomAside, Without, Remaining, Inv;
      ReadyToOpen(s, key, owner, quotas(owner), op.declared, op.offset, user, quotas(user));
      CheckedFits(s', key, up, quotas(owner), op.offset);
      hide Checked, Shaped, Bounded;
      CheckKeepsInv(s', key, up, quotas(owner), op.offset, user, quotas(user));
    }
  }

  lemma ReadyToCheck(s: Server, key: string, written: nat, user: string, limit: nat)
    requires Inv(s, user, limit) && key in s.uploads && !s.uploads[key].refused && s.uploads[key].written <= written
    ensures Ready(s, key, s.uploads[key], written, user, limit) && Bounded(s, user, limit)
  {
    Aside(s, key, user);
  }

  lemma ChunkKeepsInv(s: Server, op: Op, quotas: string -> nat, user: string)
    requires op.Chunk? && Inv(s, user, quotas(user)) && Fathomable(Step(s, op, quotas), user, quotas(user))
    ensures Inv(Step(s, op, quotas), user, quotas(user))
  {
    var key := op.key;
    if key in s.uploads && !s.uploads[key].refused && op.written >= s.uploads[key].written {
      var up := s.uploads[key];
      hide Inv, Ready, Remaining;
      ReadyToCheck(s, key, op.written, user, quotas(user));
      CheckedFits(s, key, up, quotas(up.gate.user), op.written);
      hide Checked, Shaped, Bounded;
      CheckKeepsInv(s, key, up, quotas(up.gate.user), op.written, user, quotas(user));
    }
  }

  /** The row takes over what the upload was adding. */
  lemma LandedSums(s: Server, key: string, user: string)
    requires Shaped(s) && key in s.uploads && !s.uploads[key].refused && key in s.rows
    ensures var rows := s.rows[key := s.rows[key].(bytes := s.uploads[key].written)];
            && Sum(rows, user) + Sum(Adding(Without(s, key)), user) <= Sum(s.rows, user) + Sum(Adding(s), user)
            && Sum(rows, user) + Sum(Ceilings(Without(s, key)), user) <= Sum(s.rows, user) + Sum(Ceilings(s), user)
  {
    var up := s.uploads[key];
    assert s.rows[key] == Charge(up.gate.user, up.gate.counted);
    Aside(s, key, user);
    BelowCeiling(up.gate, up.written);
    hide Sum, Adding, Ceilings, Allowances;
    SumTake(s.rows, key, user);
    SumPut(s.rows, key, s.rows[key].(bytes := up.written), user);
  }

  lemma CrowdingKeepsSums(w: Server, key: string, row: Charge, owner: string)
    ensures var t := Settled(w, key, row, owner);
            Adding(t) == Adding(w) && Ceilings(t) == Ceilings(w) && Allowances(t) == Allowances(w)
  {
  }

  lemma LandingKeepsShape(s: Server, key: string, row: Charge, owner: string, user: string, limit: nat)
    requires Shaped(s) && CountedUpTo(s, user, limit)
    ensures var t := Settled(Without(s, key), key, row, owner);
            Shaped(t) && CountedUpTo(t, user, limit)
  {
  }

  lemma LandAddsNothing(s: Server, op: Op, quotas: string -> nat, user: string, limit: nat)
    requires op.Land? && Shaped(s) && CountedUpTo(s, user, limit)
    ensures var t := Step(s, op, quotas);
            && Shaped(t) && CountedUpTo(t, user, limit) && t.openings == s.openings
            && Total(t, user) <= Total(s, user)
            && Sum(t.rows, user) + Sum(Ceilings(t), user) <= Sum(s.rows, user) + Sum(Ceilings(s), user)
            && Sum(Allowances(t), user) <= Sum(Allowances(s), user)
  {
    var key := op.key;
    ClosingAddsNothing(s, key, user, limit);
    if key in s.uploads && !s.uploads[key].refused && key in s.rows {
      var row := s.rows[key].(bytes := s.uploads[key].written);
      LandedSums(s, key, user);
      CrowdingKeepsSums(Without(s, key), key, row, s.uploads[key].gate.user);
      hide Sum, Adding, Ceilings, Allowances, Without, Shaped, CountedUpTo;
      LandingKeepsShape(s, key, row, s.uploads[key].gate.user, user, limit);
    }
  }

  lemma DeleteAddsNothing(s: Server, op: Op, quotas: string -> nat, user: string, limit: nat)
    requires op.Delete? && Shaped(s) && CountedUpTo(s, user, limit)
    ensures var t := Step(s, op, quotas);
            && Shaped(t) && CountedUpTo(t, user, limit) && t.openings == s.openings
            && Total(t, user) <= Total(s, user)
            && Sum(t.rows, user) <= Sum(s.rows, user) && Ceilings(t) == Ceilings(s) && Allowances(t) == Allowances(s)
  {
    var t := Step(s, op, quotas);
    assert Adding(t) == Adding(s) && Ceilings(t) == Ceilings(s) && Allowances(t) == Allowances(s);
    SumBelow(t.rows, s.rows, user);
    hide Sum, Adding, Ceilings, Allowances;
  }

  lemma ClosingIsStep(s: Server, op: Op, quotas: string -> nat)
    requires op.Close?
    ensures Step(s, op, quotas) == Without(s, op.key) && Step(s, op, quotas).rows == s.rows
    ensures Step(s, op, quotas).openings == s.openings
  {
  }

  lemma StepKeepsInv(s: Server, op: Op, quotas: string -> nat, user: string)
    requires Inv(s, user, quotas(user)) && Fathomable(Step(s, op, quotas), user, quotas(user))
    ensures Inv(Step(s, op, quotas), user, quotas(user))
  {
    hide Total, Checked, Without, Shaped, CountedUpTo, Sum, Ceilings, Allowances;
    var limit := quotas(user) + Slack(s.openings[user]);
    match op
    case Open(_, _, _, _) => OpenKeepsInv(s, op, quotas, user);
    case Chunk(_, _) => ChunkKeepsInv(s, op, quotas, user);
    case Close(key) => ClosingAddsNothing(s, key, user, limit); ClosingIsStep(s, op, quotas);
    case Land(_) => LandAddsNothing(s, op, quotas, user, limit);
    case Delete(_) => DeleteAddsNothing(s, op, quotas, user, limit);
  }

  // ---------------------------------------------------------------------------
  // Whole runs
  // ---------------------------------------------------------------------------

  lemma {:induction false} OpeningsGrow(s: Server, ops: seq<Op>, quotas: string -> nat, user: string)
    ensures s.openings[user] <= After(s, ops, quotas).openings[user]
    decreases |ops|
  {
    if ops != [] {
      OpeningsGrow(Step(s, ops[0], quotas), ops[1..], quotas, user);
    }
  }

  lemma {:induction false} RunKeepsInv(s: Server, ops: seq<Op>, quotas: string -> nat, user: string)
    requires Inv(s, user, quotas(user)) && Fathomable(After(s, ops, quotas), user, quotas(user))
    ensures Inv(After(s, ops, quotas), user, quotas(user))
    decreases |ops|
  {
    hide Inv, Step;
    if ops != [] {
      OpeningsGrow(Step(s, ops[0], quotas), ops[1..], quotas, user);
      StepKeepsInv(s, ops[0], quotas, user);
      RunKeepsInv(Step(s, ops[0], quotas), ops[1..], quotas, user);
    }
  }

  /** A server with no upload in flight. */
  function Idle(rows: Charges): Server {
    Server(rows, map[], map[], multiset{})
  }

  // ---------------------------------------------------------------------------
  // Runs in which no upload lands behind a gate's back
  // ---------------------------------------------------------------------------

  /** No chunk of the user's is checked against a budget read before another of their uploads landed. */
  ghost predicate Unsurprised(s: Server, ops: seq<Op>, quotas: string -> nat, user: string)
    decreases |ops|
  {
    ops != [] ==>
      && (ops[0].Chunk? && ops[0].key in s.uploads && s.uploads[ops[0].key].gate.user == user
          && s.uploads[ops[0].key].crowded ==>
            Rereads(s.uploads[ops[0].key].gate, ops[0].written))
      && Unsurprised(Step(s, ops[0], quotas), ops[1..], quotas, user)
  }

  /** The budget of a gate that nobody landed behind is no better than a fresh one. */
  ghost predicate BudgetsGood(s: Server, user: string, quota: nat) {
    forall key | key in s.uploads && s.uploads[key].gate.user == user && !s.uploads[key].crowded ::
      s.uploads[key].gate.budget <= Remaining(quota, s.rows, user, s.uploads[key].gate.counted)
  }

  /** Within the quota, for good: no budget is better than a fresh one. */
  ghost predicate Within(s: Server, user: string, quota: nat) {
    Shaped(s) && BudgetsGood(s, user, quota) && CountedUpTo(s, user, quota) && Total(s, user) <= quota
  }

  lemma CheckStaysWithin(s: Server, key: string, up: Upload, quota: nat, written: nat, user: string, limit: nat)
    requires InOrder(s, key, up, written) && Within(s, user, limit) && 2 * limit < I64_MAX
    requires up.gate.user == user ==>
               && quota == limit && up.gate.counted <= limit
               && Refreshed(up.gate, quota, s.rows, written).budget <= Remaining(quota, s.rows, user, up.gate.counted)
    ensures Within(Checked(s, key, up, quota, written), user, limit)
  {
    var t, w := Checked(s, key, up, quota, written), Without(s, key);
    CheckedShape(s, key, up, quota, written);
    CheckedFits(s, key, up, quota, written);
    CheckedCountedUpTo(s, key, up, quota, written, user, limit);
    ChecksLeaveBudgets(s, key, up, quota, written, user, limit);
    hide Checked, Sum, Adding, Shaped, CountedUpTo, Without, Remaining, Fits, Extra, BudgetsGood;
    if up.gate.user != user {
      CheckKeepsOthers(s, key, up, quota, written, user);
    } else {
      WithoutAddsLess(s, key, user);
      if t.uploads[key].refused {
        NothingAside(t, key);
      } else {
        Aside(t, key, user);
        OthersCovered(s, key, user);
        AdmittedWithinQuota(t.uploads[key].gate, key, t.entries, s.rows, quota, written, Sum(Adding(w), user));
      }
    }
  }

  lemma WithoutAddsLess(s: Server, key: string, user: string)
    ensures Sum(Adding(Without(s, key)), user) <= Sum(Adding(s), user)
  {
    if key in s.uploads && !s.uploads[key].refused {
      Aside(s, key, user);
    } else {
      NothingAside(s, key);
    }
  }

  lemma ChecksLeaveBudgets(s: Server, key: string, up: Upload, quota: nat, written: nat, user: string, limit: nat)
    requires BudgetsGood(s, user, limit)
    requires up.gate.user == user ==>
               Refreshed(up.gate, quota, s.rows, written).budget <= Remaining(limit, s.rows, user, up.gate.counted)
    ensures BudgetsGood(Checked(s, key, up, quota, written), user, limit)
  {
  }

  lemma SettlingLeavesBudgets(s: Server, key: string, user: string, limit: nat)
    requires Shaped(s) && BudgetsGood(s, user, limit) && key in s.uploads && key in s.rows
    ensures var up := s.uploads[key];
            BudgetsGood(Settled(Without(s, key), key, s.rows[key].(bytes := up.written), up.gate.user), user, limit)
  {
    var row := s.rows[key].(bytes := s.uploads[key].written);
    SumTake(s.rows, key, user);
    SumPut(s.rows, key, row, user);
  }

  lemma AnnouncedWithin(s: Server, owner: string, user: string, limit: nat)
    requires Within(s, user, limit)
    ensures Within(Announced(s, owner), user, limit)
  {
  }

  lemma OpenStaysWithin(s: Server, op: Op, quotas: string -> nat, user: string)
    requires op.Open? && Within(s, user, quotas(user)) && 2 * quotas(user) < I64_MAX
    ensures Within(Step(s, op, quotas), user, quotas(user))
  {
    var limit, key := quotas(user), op.key;
    var owner := OwnerOf(s, key, op.prefixUser);
    if key !in s.uploads && quotas(owner) != 0 {
      var s', up := Announced(s, owner), Opening(s, key, owner, quotas(owner), op.declared);
      OpensInOrder(s, key, owner, quotas(owner), op.declared, op.offset);
      OpensCounted(s, key, owner, quotas(owner), op.declared);
      AnnouncedWithin(s, owner, user, limit);
      CheckedFits(s', key, up, quotas(owner), op.offset);
      hide Checked, InOrder, Within, Remaining, Sum, Adding;
      assert Within(s, user, limit) ==> Sum(s.rows, user) <= limit by { WithinRows(s, user, limit); }
      CheckStaysWithin(s', key, up, quotas(owner), op.offset, user, limit);
    }
  }

  lemma WithinRows(s: Server, user: string, limit: nat)
    ensures Within(s, user, limit) ==> Sum(s.rows, user) <= limit
  {
  }

  lemma ChunkStaysWithin(s: Server, op: Op, quotas: string -> nat, user: string)
    requires op.Chunk? && Within(s, user, quotas(user)) && 2 * quotas(user) < I64_MAX
    requires Unsurprised(s, [op], quotas, user)
    ensures Within(Step(s, op, quotas), user, quotas(user))
  {
    var limit, key, written := quotas(user), op.key, op.written;
    if key in s.uploads && !s.uploads[key].refused && s.uploads[key].written <= written {
      var up := s.uploads[key];
      assert InOrder(s, key, up, written);
      CheckedFits(s, key, up, quotas(up.gate.user), written);
      hide Checked, InOrder, Sum, Adding, Shaped;
      CheckStaysWithin(s, key, up, quotas(up.gate.user), written, user, limit);
    }
  }

  lemma StepStaysWithin(s: Server, op: Op, quotas: string -> nat, user: string)
    requires Within(s, user, quotas(user)) && 2 * quotas(user) < I64_MAX
    requires Unsurprised(s, [op], quotas, user)
    ensures Within(Step(s, op, quotas), user, quotas(user))
  {
    hide Total, Checked, Shaped, CountedUpTo, Sum, Ceilings, Allowances;
    match op {
      case Open(key, prefixUser, offset, declared) => OpenStaysWithin(s, op, quotas, user);
      case Chunk(key, written) => ChunkStaysWithin(s, op, quotas, user);
      case Close(key) => ClosingAddsNothing(s, key, user, quotas(user));
      case Land(key) =>
        LandAddsNothing(s, op, quotas, user, quotas(user));
        if key in s.uploads && key in s.rows {
          SettlingLeavesBudgets(s, key, user, quotas(user));
        }
      case Delete(key) =>
        DeleteAddsNothing(s, op, quotas, user, quotas(user));
    }
  }

  lemma {:induction false} RunStaysWithin(s: Server, ops: seq<Op>, quotas: string -> nat, user: string)
    requires Within(s, user, quotas(user)) && 2 * quotas(user) < I64_MAX
    requires Unsurprised(s, ops, quotas, user)
    ensures Within(After(s, ops, quotas), user, quotas(user))
    decreases |ops|
  {
    hide Step, Within;
    if ops != [] {
      assert [ops[0]][1..] == [];
      StepStaysWithin(s, ops[0], quotas, user);
      RunStaysWithin(Step(s, ops[0], quotas), ops[1..], quotas, user);
    }
  }

  /** When no upload of the account lands between a gate's read and its later checks, the quota is never passed. */
  lemma QuotaHolds(rows: Charges, ops: seq<Op>, quotas: string -> nat, user: string)
    requires Sum(rows, user) <= quotas(user) && 2 * quotas(user) < I64_MAX
    requires Unsurprised(Idle(rows), ops, quotas, user)
    ensures Total(After(Idle(rows), ops, quotas), user) <= quotas(user)
  {
    assert Adding(Idle(rows)) == map[];
    hide Step, After, Unsurprised;
    RunStaysWithin(Idle(rows), ops, quotas, user);
  }

  // ---------------------------------------------------------------------------
  // Any runs
  // ---------------------------------------------------------------------------

  /** None of the user's uploads has landed behind another's back. */
  ghost predicate Calm(s: Server, user: string) {
    forall key | key in s.uploads && s.uploads[key].gate.user == user :: !s.uploads[key].crowded
  }

  /** Before the first landing. */
  ghost predicate Early(s: Server, user: string, quota: nat) {
    Within(s, user, quota) && Calm(s, user) && Sum(Allowances(s), user) <= Slack(s.openings[user])
  }

  ghost predicate Lands(s: Server, op: Op, user: string) {
    op.Land? && op.key in s.uploads && !s.uploads[op.key].refused && op.key in s.rows
      && s.uploads[op.key].gate.user == user
  }

  lemma CheckAllows(s: Server, key: string, up: Upload, quota: nat, written: nat, user: string)
    ensures Sum(Allowances(Checked(s, key, up, quota, written)), user)
            <= Sum(Allowances(Without(s, key)), user) + Share(Charge(up.gate.user, QUOTA_REFRESH_BYTES - 1), user)
  {
    var t := Checked(s, key, up, quota, written);
    CheckedAside(s, key, up, quota, written);
    CheckedFits(s, key, up, quota, written);
    hide Checked, Sum, Allowances, Ceilings, Adding, Without, Fits;
    if t.uploads[key].refused {
      NothingAside(t, key);
    } else {
      Aside(t, key, user);
    }
  }

  lemma CheckStaysCalm(s: Server, key: string, up: Upload, quota: nat, written: nat, user: string)
    requires Calm(s, user) && (up.gate.user == user ==> !up.crowded)
    ensures Calm(Checked(s, key, up, quota, written), user)
  {
  }

  lemma OpenStaysEarly(s: Server, op: Op, quotas: string -> nat, user: string)
    requires op.Open? && Early(s, user, quotas(user))
    ensures var t := Step(s, op, quotas); Calm(t, user) && Sum(Allowances(t), user) <= Slack(t.openings[user])
  {
    var key, owner := op.key, OwnerOf(s, op.key, op.prefixUser);
    if key !in s.uploads && quotas(owner) != 0 {
      var s', up := Announced(s, owner), Opening(s, key, owner, quotas(owner), op.declared);
      assert Without(s', key).uploads == s.uploads && Allowances(Without(s', key)) == Allowances(s);
      CheckStaysCalm(s', key, up, quotas(owner), op.offset, user);
      CheckAllows(s', key, up, quotas(owner), op.offset, user);
      CheckedFits(s', key, up, quotas(owner), op.offset);
      hide Checked, Sum, Allowances, Without, Within, Calm;
    }
  }

  lemma ChunkStaysEarly(s: Server, op: Op, quotas: string -> nat, user: string)
    requires op.Chunk? && Early(s, user, quotas(user))
    ensures var t := Step(s, op, quotas); Calm(t, user) && Sum(Allowances(t), user) <= Slack(t.openings[user])
  {
    var key := op.key;
    if key in s.uploads && !s.uploads[key].refused && op.written >= s.uploads[key].written {
      var up := s.uploads[key];
      CheckStaysCalm(s, key, up, quotas(up.gate.user), op.written, user);
      CheckAllows(s, key, up, quotas(up.gate.user), op.written, user);
      CheckedFits(s, key, up, quotas(up.gate.user), op.written);
      Aside(s, key, user);
      hide Checked, Sum, Allowances, Without, Within, Calm;
    }
  }

  lemma LandStaysCalm(s: Server, op: Op, quotas: string -> nat, user: string)
    requires op.Land? && Calm(s, user) && !Lands(s, op, user)
    ensures Calm(Step(s, op, quotas), user)
  {
  }

  lemma UnsurprisedWhenCalm(s: Server, op: Op, quotas: string -> nat, user: string)
    requires Calm(s, user)
    ensures Unsurprised(s, [op], quotas, user)
  {
    hide Step;
  }

  lemma StepStaysEarly(s: Server, op: Op, quotas: string -> nat, user: string)
    requires Early(s, user, quotas(user)) && 2 * quotas(user) < I64_MAX && !Lands(s, op, user)
    ensures Early(Step(s, op, quotas), user, quotas(user))
  {
    UnsurprisedWhenCalm(s, op, quotas, user);
    StepStaysWithin(s, op, quotas, user);
    hide Total, Checked, Shaped, BudgetsGood, CountedUpTo, Sum, Ceilings, Allowances, Unsurprised;
    match op {
      case Open(_, _, _, _) => OpenStaysEarly(s, op, quotas, user);
      case Chunk(_, _) => ChunkStaysEarly(s, op, quotas, user);
      case Close(key) => ClosingAddsNothing(s, key, user, quotas(user));
      case Land(_) =>
        LandAddsNothing(s, op, quotas, user, quotas(user));
        LandStaysCalm(s, op, quotas, user);
      case Delete(_) => DeleteAddsNothing(s, op, quotas, user, quotas(user));
    }
  }

  /** One opening less on the account. */
  function Less(s: Server, user: string): Server {
    s.(openings := s.openings - multiset{user})
  }

  /** The first landing is within the quota, and its gate is no longer there to go past it. */
  lemma FirstLanding(s: Server, op: Op, quotas: string -> nat, user: string)
    requires Early(s, user, quotas(user)) && Lands(s, op, user)
    ensures var t := Step(s, op, quotas); t.openings[user] > 0 && Inv(Less(t, user), user, quotas(user))
  {
    var limit, t := quotas(user), Step(s, op, quotas);
    assert op.Land?;
    hide Lands, Step, Shaped, CountedUpTo, Sum, Adding, Ceilings, Allowances, BudgetsGood, Calm, Less, Inv;
    LandAddsNothing(s, op, quotas, user, limit);
    LandingAllows(s, op, quotas, user);
    CeilingsAbove(t, user);
    RoomForLess(t, user, limit);
  }

  lemma RoomForLess(s: Server, user: string, limit: nat)
    requires Shaped(s) && CountedUpTo(s, user, limit)
    requires Sum(Allowances(s), user) + QUOTA_REFRESH_BYTES - 1 <= Slack(s.openings[user])
    requires Sum(s.rows, user) + Sum(Ceilings(s), user) <= limit + Sum(Allowances(s), user)
    ensures s.openings[user] > 0 && Inv(Less(s, user), user, limit)
  {
    hide Shaped, CountedUpTo, Sum, Ceilings, Allowances, Less;
    LessIsTheSame(s, user, limit);
  }

  lemma LandingAllows(s: Server, op: Op, quotas: string -> nat, user: string)
    requires Lands(s, op, user)
    ensures Sum(Allowances(s), user) == Sum(Allowances(Step(s, op, quotas)), user) + QUOTA_REFRESH_BYTES - 1
  {
    var key := op.key;
    Aside(s, key, user);
    CrowdingKeepsSums(Without(s, key), key, s.rows[key].(bytes := s.uploads[key].written), s.uploads[key].gate.user);
    hide Sum, Allowances;
  }

  lemma LessIsTheSame(s: Server, user: string, limit: nat)
    requires Shaped(s) && CountedUpTo(s, user, limit)
    ensures var t := Less(s, user);
            && Shaped(t) && t.rows == s.rows && CountedUpTo(t, user, limit + Slack(t.openings[user]))
            && Adding(t) == Adding(s) && Ceilings(t) == Ceilings(s) && Allowances(t) == Allowances(s)
            && t.openings[user] == if s.openings[user] > 0 then s.openings[user] - 1 else 0
  {
  }

  lemma CheckedWithLess(s: Server, key: string, up: Upload, quota: nat, written: nat, openings: multiset<string>)
    ensures Checked(s.(openings := openings), key, up, quota, written)
            == Checked(s, key, up, quota, written).(openings := openings)
  {
    hide Fits, Remaining, Extra, Published, Sum;
  }

  lemma OpenWithLess(s: Server, op: Op, quotas: string -> nat, user: string)
    requires op.Open? && s.openings[user] > 0
    ensures Step(Less(s, user), op, quotas) == Less(Step(s, op, quotas), user)
  {
    var key, owner := op.key, OwnerOf(s, op.key, op.prefixUser);
    if key !in s.uploads && quotas(owner) != 0 {
      var up := Opening(s, key, owner, quotas(owner), op.declared);
      var openings := s.openings + multiset{owner} - multiset{user};
      assert s.openings - multiset{user} + multiset{owner} == openings;
      assert Announced(Less(s, user), owner) == Announced(s, owner).(openings := openings);
      CheckedFits(Announced(s, owner), key, up, quotas(owner), op.offset);
      CheckedWithLess(Announced(s, owner), key, up, quotas(owner), op.offset, openings);
      hide Checked, Remaining;
    }
  }

  lemma ChunkWithLess(s: Server, op: Op, quotas: string -> nat, user: string)
    requires op.Chunk?
    ensures Step(Less(s, user), op, quotas) == Less(Step(s, op, quotas), user)
  {
    var key := op.key;
    if key in s.uploads {
      var up := s.uploads[key];
      CheckedFits(s, key, up, quotas(up.gate.user), op.written);
      CheckedWithLess(s, key, up, quotas(up.gate.user), op.written, s.openings - multiset{user});
      hide Checked;
    }
  }

  lemma StepWithLess(s: Server, op: Op, quotas: string -> nat, user: string)
    requires s.openings[user] > 0
    ensures Step(Less(s, user), op, quotas) == Less(Step(s, op, quotas), user)
  {
    if op.Open? {
      OpenWithLess(s, op, quotas, user);
    } else if op.Chunk? {
      ChunkWithLess(s, op, quotas, user);
    } else {
      hide Checked;
    }
  }

  lemma {:induction false} RunWithLess(s: Server, ops: seq<Op>, quotas: string -> nat, user: string)
    requires s.openings[user] > 0
    ensures After(Less(s, user), ops, quotas) == Less(After(s, ops, quotas), user)
    decreases |ops|
  {
    hide Step;
    if ops != [] {
      OpeningsGrow(s, [ops[0]], quotas, user);
      AfterOne(s, ops[0], quotas);
      StepWithLess(s, ops[0], quotas, user);
      RunWithLess(Step(s, ops[0], quotas), ops[1..], quotas, user);
    }
  }

  lemma AfterOne(s: Server, op: Op, quotas: string -> nat)
    ensures After(s, [op], quotas) == Step(s, op, quotas)
  {
    hide Step;
    assert [op][1..] == [];
  }

  /** What the gates can take an account past its quota by: a refresh less a byte for each but one. */
  function Overrun(gates: nat): nat {
    if gates == 0 then 0 else Slack(gates - 1)
  }

  lemma {:induction false} RunStaysBounded(s: Server, ops: seq<Op>, quotas: string -> nat, user: string)
    requires Early(s, user, quotas(user))
    requires 2 * quotas(user) + Overrun(After(s, ops, quotas).openings[user]) < I64_MAX
    ensures var end := After(s, ops, quotas); Total(end, user) <= quotas(user) + Overrun(end.openings[user])
    decreases |ops|
  {
    hide Step, Lands, Inv, Within, Calm;
    if ops == [] {
      WithinTotal(s, user, quotas(user));
    } else if Lands(s, ops[0], user) {
      FirstLanding(s, ops[0], quotas, user);
      RunPastLanding(Step(s, ops[0], quotas), ops[1..], quotas, user);
    } else {
      hide Early;
      StepStaysEarly(s, ops[0], quotas, user);
      RunStaysBounded(Step(s, ops[0], quotas), ops[1..], quotas, user);
    }
  }

  lemma WithinTotal(s: Server, user: string, quota: nat)
    requires Within(s, user, quota)
    ensures Total(s, user) <= quota
  {
  }

  lemma RunPastLanding(s: Server, ops: seq<Op>, quotas: string -> nat, user: string)
    requires s.openings[user] > 0 && Inv(Less(s, user), user, quotas(user))
    requires 2 * quotas(user) + Overrun(After(s, ops, quotas).openings[user]) < I64_MAX
    ensures var end := After(s, ops, quotas); Total(end, user) <= quotas(user) + Overrun(end.openings[user])
  {
    var end := After(s, ops, quotas);
    OpeningsGrow(s, ops, quotas, user);
    RunWithLess(s, ops, quotas, user);
    hide After;
    RunKeepsInv(Less(s, user), ops, quotas, user);
    CeilingsAbove(Less(end, user), user);
    assert Adding(Less(end, user)) == Adding(end);
    hide Shaped, Sum, Adding, Ceilings, Allowances;
  }

  /** However openings, chunks, landings, aborts and deletions interleave, an account that starts within its
      quota never holds more - stored or on its way in - than the quota and one refresh less a byte for every
      gate it has opened but one. */
  lemma QuotaBound(rows: Charges, ops: seq<Op>, quotas: string -> nat, user: string)
    requires Sum(rows, user) <= quotas(user)
    requires 2 * quotas(user) + Overrun(After(Idle(rows), ops, quotas).openings[user]) < I64_MAX
    ensures var s := After(Idle(rows), ops, quotas);
            Sum(s.rows, user) <= Total(s, user) <= quotas(user) + Overrun(s.openings[user])
  {
    var s := Idle(rows);
    assert Adding(s) == map[] && Allowances(s) == map[];
    hide Step, After;
    RunStaysBounded(s, ops, quotas, user);
  }
}
