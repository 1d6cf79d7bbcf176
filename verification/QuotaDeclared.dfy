/** What an upload's declared size is for: it is held against the owner's other uploads from the first check on, and
    decides that check. */
module QuotaDeclared {
  import opened Quota
  import opened QuotaBound

  // ---------------------------------------------------------------------------
  // Reachable states
  // ---------------------------------------------------------------------------

  lemma LandingShaped(s: Server, op: Op, quotas: string -> nat)
    requires op.Land? && Shaped(s)
    ensures Shaped(Step(s, op, quotas))
  {
    WithoutShaped(s, op.key);
  }

  lemma StepShaped(s: Server, op: Op, quotas: string -> nat)
    requires Shaped(s)
    ensures Shaped(Step(s, op, quotas))
  {
    match op
    case Open(key, prefixUser, offset, declared) =>
      var owner := OwnerOf(s, key, prefixUser);
      if key !in s.uploads && quotas(owner) != 0 {
        OpensInOrder(s, key, owner, quotas(owner), declared, offset);
        CheckedShape(Announced(s, owner), key, Opening(s, key, owner, quotas(owner), declared), quotas(owner), offset);
      }
      hide Checked, Shaped, InOrder;
    case Chunk(key, written) =>
      if key in s.uploads && !s.uploads[key].refused && s.uploads[key].written <= written {
        CheckedShape(s, key, s.uploads[key], quotas(s.uploads[key].gate.user), written);
      }
      hide Checked;
    case Close(key) => WithoutShaped(s, key);
    case Land(_) => LandingShaped(s, op, quotas);
    case Delete(_) =>
  }

  lemma {:induction false} RunShaped(s: Server, ops: seq<Op>, quotas: string -> nat)
    requires Shaped(s)
    ensures Shaped(After(s, ops, quotas))
    decreases |ops|
  {
    hide Step, Shaped;
    if ops != [] {
      StepShaped(s, ops[0], quotas);
      RunShaped(Step(s, ops[0], quotas), ops[1..], quotas);
    }
  }

  /** In every reachable state each upload has published, under its owner, all that it declared and all that it has
      written, less what the database counts for its key, and no more. */
  lemma DeclaredIsPublished(rows: Charges, ops: seq<Op>, quotas: string -> nat, key: string)
    requires key in After(Idle(rows), ops, quotas).uploads
    ensures var s := After(Idle(rows), ops, quotas);
            var up := s.uploads[key];
            && key in s.entries && s.entries[key].user == up.gate.user
            && s.entries[key].bytes + up.gate.counted >= up.gate.declared
            && s.entries[key].bytes + up.gate.counted >= up.written
            && (s.entries[key].bytes > 0 ==>
                  s.entries[key].bytes + up.gate.counted == up.gate.declared
                  || s.entries[key].bytes + up.gate.counted == up.written)
  {
    assert Shaped(Idle(rows));
    RunShaped(Idle(rows), ops, quotas);
    hide After;
  }

  // ---------------------------------------------------------------------------
  // The first check
  // ---------------------------------------------------------------------------

  /** The larger of what is written and what was declared. */
  function Size(written: nat, declared: nat): nat {
    if written >= declared then written else declared
  }

  /** What the account holds besides the key, stored and on its way in. */
  ghost function Besides(s: Server, key: string, user: string): nat {
    Sum(s.rows - {key}, user) + Sum(s.entries - {key}, user)
  }

  lemma StoredBesides(s: Server, key: string, user: string)
    requires key in s.rows ==> s.rows[key].user == user
    ensures Sum(s.rows, user) == Sum(s.rows - {key}, user) + if key in s.rows then s.rows[key].bytes else 0
  {
    if key in s.rows {
      SumTake(s.rows, key, user);
    } else {
      assert s.rows - {key} == s.rows;
    }
  }

  /** An opening is admitted exactly if the declared size, or what has been written already, fits the quota beside the
      owner's other files and uploads; an empty one with no others in flight is always admitted. */
  lemma OpeningDecidedExactly(s: Server, op: Op, quotas: string -> nat)
    requires op.Open? && op.key !in s.uploads && 0 < quotas(OwnerOf(s, op.key, op.prefixUser)) < I64_MAX
    ensures var user, t := OwnerOf(s, op.key, op.prefixUser), Step(s, op, quotas);
            && op.key in t.uploads
            && t.uploads[op.key].gate.declared == op.declared && t.uploads[op.key].gate.user == user
            && t.uploads[op.key].gate.counted == (if op.key in s.rows then s.rows[op.key].bytes else 0)
            && (!t.uploads[op.key].refused <==>
                  || Besides(s, op.key, user) + Size(op.offset, op.declared) <= quotas(user)
                  || (Size(op.offset, op.declared) == 0 && Sum(s.entries - {op.key}, user) == 0))
  {
    var user := OwnerOf(s, op.key, op.prefixUser);
    StoredBesides(s, op.key, user);
    var t := Step(s, op, quotas);
    assert t.entries - {op.key} == s.entries - {op.key};
    hide Sum;
  }

  /** A chunk that comes eight mebibytes or more after the last read is measured against the rows as they are, without
      what was counted for its own key, and any other against what the last read left. */
  lemma ChunkDecidedExactly(s: Server, op: Op, quotas: string -> nat)
    requires op.Chunk? && op.key in s.uploads && !s.uploads[op.key].refused && s.uploads[op.key].written <= op.written
    requires quotas(s.uploads[op.key].gate.user) + s.uploads[op.key].gate.counted < I64_MAX
    requires s.uploads[op.key].gate.budget < I64_MAX
    ensures var up, t := s.uploads[op.key], Step(s, op, quotas);
            var user, size := up.gate.user, Size(op.written, up.gate.declared);
            var others := Sum(s.entries - {op.key}, user);
            && op.key in t.uploads && t.uploads[op.key].written == op.written
            && if op.written < up.gate.readAt + 8_388_608 then
                 && t.uploads[op.key].gate == up.gate
                 && (!t.uploads[op.key].refused <==> others + size <= up.gate.budget)
               else
                 && t.uploads[op.key].gate == up.gate.(readAt := op.written, budget := t.uploads[op.key].gate.budget)
                 && (!t.uploads[op.key].refused <==>
                       || Sum(s.rows, user) + others + size <= quotas(user) + up.gate.counted
                       || (size == 0 && others == 0))
  {
    var t := Step(s, op, quotas);
    assert t.entries - {op.key} == s.entries - {op.key};
    hide Sum;
  }

  // ---------------------------------------------------------------------------
  // The end
  // ---------------------------------------------------------------------------

  /** A landing takes the upload off the books and writes its length into its row, if it has one. */
  lemma LandingSettlesExactly(s: Server, op: Op, quotas: string -> nat)
    requires op.Land? && op.key in s.uploads && !s.uploads[op.key].refused
    ensures var t := Step(s, op, quotas);
            && t.entries == s.entries - {op.key} && t.uploads.Keys == s.uploads.Keys - {op.key}
            && t.rows.Keys == s.rows.Keys
            && (forall other | other in s.rows && other != op.key :: t.rows[other] == s.rows[other])
            && (op.key in s.rows ==> t.rows[op.key] == Charge(s.rows[op.key].user, s.uploads[op.key].written))
  {
  }

  /** One that ends otherwise leaves no trace, and a deleted row's bytes are free again. */
  lemma EndingsAreClean(s: Server, key: string, user: string, quotas: string -> nat)
    ensures var t := Step(s, Close(key), quotas);
            key !in t.entries && key !in t.uploads && t.rows == s.rows
    ensures var t := Step(s, Delete(key), quotas);
            && t.entries == s.entries && t.uploads == s.uploads
            && Sum(t.rows, user) == Sum(s.rows, user) - if key in s.rows then Share(s.rows[key], user) else 0
  {
    if key in s.rows {
      SumTake(s.rows, key, user);
    } else {
      assert s.rows - {key} == s.rows;
    }
    hide Sum;
  }
}
