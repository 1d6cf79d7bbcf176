/** The quota gate of src/storage.rs: several bodies stream at once, each measured against a budget it reads
    from the database only now and then, and each publishing what it is about to add so the others count it. */
module Quota {
  const QUOTA_REFRESH_BYTES: nat := 8_388_608

  /** One refresh less a byte for each of so many gates. */
  function Slack(gates: nat): nat {
    gates * 8_388_607
  }

  const I64_MAX: nat := 0x7fff_ffff_ffff_ffff

  /** So many bytes on somebody's account: a metered row, or what an upload in flight adds. */
  datatype Charge = Charge(user: string, bytes: nat)

  type Charges = map<string, Charge>

  function Signed(bytes: nat): nat {
    if bytes <= I64_MAX then bytes else I64_MAX
  }

  function SaturatingSub(a: nat, b: nat): nat {
    if a >= b then a - b else 0
  }

  function Max(a: nat, b: nat): nat {
    if a >= b then a else b
  }

  /** What one charge adds to a user's total. */
  function Share(charge: Charge, user: string): nat {
    if charge.user == user then charge.bytes else 0
  }

  ghost function Sum(charges: Charges, user: string): nat
    decreases |charges|
  {
    if charges == map[] then 0 else
      var key :| key in charges;
      Share(charges[key], user) + Sum(charges - {key}, user)
  }

  lemma {:induction false} SumTake(charges: Charges, key: string, user: string)
    requires key in charges
    ensures Sum(charges, user) == Share(charges[key], user) + Sum(charges - {key}, user)
    decreases |charges|
  {
    var first :| first in charges && Sum(charges, user) == Share(charges[first], user) + Sum(charges - {first}, user);
    if first != key {
      SumTake(charges - {first}, key, user);
      SumTake(charges - {key}, first, user);
      assert charges - {first} - {key} == charges - {key} - {first};
    }
  }

  lemma SumPut(charges: Charges, key: string, charge: Charge, user: string)
    ensures Sum(charges[key := charge], user) == Share(charge, user) + Sum(charges - {key}, user)
  {
    assert charges[key := charge] - {key} == charges - {key};
    SumTake(charges[key := charge], key, user);
  }

  lemma {:induction false} SumBelow(small: Charges, big: Charges, user: string)
    requires forall key | key in small :: key in big && Share(small[key], user) <= Share(big[key], user)
    ensures Sum(small, user) <= Sum(big, user)
    decreases |small|
  {
    if small != map[] {
      var key :| key in small;
      SumTake(small, key, user);
      SumTake(big, key, user);
      SumBelow(small - {key}, big - {key}, user);
    }
  }

  // ---------------------------------------------------------------------------
  // The gate
  // ---------------------------------------------------------------------------

  /** A gate's fields: whom the key is charged to, what the database already counts for it, the budget as of the
      last read, the bytes written at that read, and the size declared. */
  datatype Gate = Gate(user: string, counted: nat, budget: nat, readAt: nat, declared: nat)

  /** `remaining_quota`: the whole quota, less everything else the owner stores. */
  ghost function Remaining(quota: nat, rows: Charges, user: string, counted: nat): nat {
    var left := Signed(quota) - (Sum(rows, user) - counted);
    if left >= 0 then left else 0
  }

  function Footprint(gate: Gate, written: nat): nat {
    Max(written, gate.declared)
  }

  /** The bytes an upload adds beyond what the database counts for its key. */
  function Extra(gate: Gate, written: nat): nat {
    SaturatingSub(Footprint(gate, written), gate.counted)
  }

  predicate Rereads(gate: Gate, written: nat) {
    written >= gate.readAt + QUOTA_REFRESH_BYTES
  }

  ghost function Refreshed(gate: Gate, quota: nat, rows: Charges, written: nat): Gate {
    if Rereads(gate, written)
    then gate.(budget := Remaining(quota, rows, gate.user, gate.counted), readAt := written)
    else gate
  }

  /** The uploads map once a gate has published itself. */
  function Published(entries: Charges, key: string, user: string, bytes: nat): Charges {
    entries[key := if key in entries then entries[key].(bytes := bytes) else Charge(user, bytes)]
  }

  ghost predicate Fits(gate: Gate, key: string, entries: Charges, written: nat) {
    Signed(Footprint(gate, written)) <= gate.budget - Signed(Sum(entries - {key}, gate.user))
  }

  class InFlightUploads {
    var entries: Charges

    constructor ()
      ensures entries == map[]
    {
      entries := map[];
    }

    method Publish(key: string, user: string, bytes: nat)
      modifies this
      ensures entries == Published(old(entries), key, user, bytes)
    {
      if key in entries {
        entries := entries[key := entries[key].(bytes := bytes)];
      } else {
        entries := entries[key := Charge(user, bytes)];
      }
    }

    method Release(key: string)
      modifies this
      ensures entries == old(entries) - {key}
    {
      entries := entries - {key};
    }

    /** Bytes the owner's other uploads are about to add: a saturating sum, in whatever order. */
    method ExtraBytes(user: string, exceptKey: string) returns (total: nat)
      ensures total == Signed(Sum(entries - {exceptKey}, user))
    {
      var others := entries - {exceptKey};
      total := Saturated(others, user);
    }
  }

  /** The fold over the map. */
  method Saturated(others: Charges, user: string) returns (total: nat)
    ensures total == Signed(Sum(others, user))
  {
    hide Sum, Share, Signed;
    var left := others;
    total := 0;
    ghost var rest: nat := Sum(others, user);
    ZeroIsSigned();
    while left != map[]
      invariant rest == Sum(left, user)
      invariant Signed(total + rest) == Signed(Sum(others, user))
      invariant total == Signed(total)
      decreases |left|
    {
      var key :| key in left;
      SumTake(left, key, user);
      rest := Sum(left - {key}, user);
      SaturationIsAssociative(total, Share(left[key], user), rest);
      total := Signed(total + Signed(Share(left[key], user)));
      left := left - {key};
    }
    SumOfNone(left, user);
  }

  lemma ZeroIsSigned()
    ensures Signed(0) == 0
  {
  }

  lemma SumOfNone(charges: Charges, user: string)
    requires charges == map[]
    ensures Sum(charges, user) == 0
  {
  }

  lemma SaturationIsAssociative(a: nat, b: nat, c: nat)
    ensures Signed(Signed(a + Signed(b)) + c) == Signed(a + (b + c))
    ensures Signed(Signed(a + Signed(b))) == Signed(a + Signed(b))
  {
  }

  class QuotaGate {
    const quota: nat
    const key: string
    const user: string
    const counted: nat
    const declared: nat
    const uploads: InFlightUploads
    var budget: nat
    var readAt: nat

    ghost function Value(): Gate
      reads this
    {
      Gate(user, counted, budget, readAt, declared)
    }

    /** Opened against the rows as they are; `used` is the sum the database answers with. */
    constructor (quota: nat, key: string, user: string, counted: nat, declared: nat, uploads: InFlightUploads,
                 ghost rows: Charges, used: nat)
      requires used == Sum(rows, user)
      ensures Value() == Gate(user, counted, Remaining(quota, rows, user, counted), 0, declared)
      ensures this.quota == quota && this.key == key && this.uploads == uploads
    {
      this.quota, this.key, this.user, this.counted, this.declared := quota, key, user, counted, declared;
      this.uploads := uploads;
      var left := Signed(quota) - (used - counted);
      budget := if left >= 0 then left else 0;
      readAt := 0;
    }

    /** Called for every chunk; refuses once `written` bytes would take the owner past the quota. */
    method Check(ghost rows: Charges, used: nat, written: nat) returns (admitted: bool)
      requires used == Sum(rows, user)
      modifies this, uploads
      ensures Value() == Refreshed(old(Value()), quota, rows, written)
      ensures uploads.entries == Published(old(uploads.entries), key, user, Extra(Value(), written))
      ensures admitted == Fits(Value(), key, uploads.entries, written)
    {
      if written >= readAt + QUOTA_REFRESH_BYTES {
        var left := Signed(quota) - (used - counted);
        budget := if left >= 0 then left else 0;
        readAt := written;
      }
      var footprint := Max(written, declared);
      uploads.Publish(key, user, SaturatingSub(footprint, counted));
      var others := uploads.ExtraBytes(user, key);
      admitted := Signed(footprint) <= budget - others;
    }
  }

  // ---------------------------------------------------------------------------
  // Interleaved uploads
  // ---------------------------------------------------------------------------

  /** One request's upload: its gate, the bytes at its last check, whether that check refused it, and whether
      another upload of its owner has landed since its last read. */
  datatype Upload = Upload(gate: Gate, written: nat, refused: bool, crowded: bool)

  datatype Server = Server(rows: Charges, entries: Charges, uploads: map<string, Upload>, openings: multiset<string>)

  datatype Op =
    | Open(key: string, prefixUser: string, offset: nat, declared: nat)
    | Chunk(key: string, written: nat)
    | Close(key: string)
    | Land(key: string)
    | Delete(key: string)

  /** A check, on the values: the gate refreshed, the extra published, the answer noted. */
  ghost function Checked(s: Server, key: string, up: Upload, quota: nat, written: nat): Server {
    var gate := Refreshed(up.gate, quota, s.rows, written);
    var entries := Published(s.entries, key, gate.user, Extra(gate, written));
    var crowded := up.crowded && !Rereads(up.gate, written);
    s.(entries := entries,
       uploads := s.uploads[key := Upload(gate, written, !Fits(gate, key, entries, written), crowded)])
  }

  function Without(s: Server, key: string): Server {
    s.(entries := s.entries - {key}, uploads := s.uploads - {key})
  }

  function Crowded(uploads: map<string, Upload>, user: string): map<string, Upload> {
    map key | key in uploads ::
      if uploads[key].gate.user == user then uploads[key].(crowded := true) else uploads[key]
  }

  /** The row takes the bytes that landed, and every other gate of the owner is now behind. */
  function Settled(w: Server, key: string, row: Charge, owner: string): Server {
    w.(rows := w.rows[key := row], uploads := Crowded(w.uploads, owner))
  }

  function OwnerOf(s: Server, key: string, prefixUser: string): string {
    if key in s.rows then s.rows[key].user else prefixUser
  }

  /** `QuotaGate::open`, before its first check. */
  ghost function Opening(s: Server, key: string, user: string, quota: nat, declared: nat): Upload {
    var counted := if key in s.rows then s.rows[key].bytes else 0;
    Upload(Gate(user, counted, Remaining(quota, s.rows, user, counted), 0, declared), 0, false, false)
  }

  function Announced(s: Server, user: string): Server {
    s.(openings := s.openings + multiset{user})
  }

  /** One atomic step: a read with the check that follows it, or a row update with the release that follows it.
      A zero quota opens no gate; a step on a key in the wrong phase does nothing. */
  ghost function Step(s: Server, op: Op, quotas: string -> nat): Server {
    match op
    case Open(key, prefixUser, offset, declared) =>
      var user := OwnerOf(s, key, prefixUser);
      if key in s.uploads || quotas(user) == 0 then s
      else Checked(Announced(s, user), key, Opening(s, key, user, quotas(user), declared), quotas(user), offset)
    case Chunk(key, written) =>
      if key !in s.uploads || s.uploads[key].refused || written < s.uploads[key].written then s
      else Checked(s, key, s.uploads[key], quotas(s.uploads[key].gate.user), written)
    case Close(key) => Without(s, key)
    case Land(key) =>
      if key !in s.uploads || s.uploads[key].refused then s
      else
        var up := s.uploads[key];
        var t := Without(s, key);
        if key !in s.rows then t else Settled(t, key, s.rows[key].(bytes := up.written), up.gate.user)
    case Delete(key) => s.(rows := s.rows - {key})
  }

  ghost function After(s: Server, ops: seq<Op>, quotas: string -> nat): Server
    decreases |ops|
  {
    if ops == [] then s else After(Step(s, ops[0], quotas), ops[1..], quotas)
  }

  /** What the admitted uploads are about to add. */
  function Adding(s: Server): Charges {
    map key | key in s.uploads && !s.uploads[key].refused ::
      Charge(s.uploads[key].gate.user, Extra(s.uploads[key].gate, s.uploads[key].written))
  }

  /** Stored bytes, and those on their way in. */
  ghost function Total(s: Server, user: string): nat {
    Sum(s.rows, user) + Sum(Adding(s), user)
  }

  /** What an upload may come to add before its gate reads the database again. */
  function Ceiling(gate: Gate): nat {
    Extra(gate, gate.readAt) + QUOTA_REFRESH_BYTES - 1
  }

  function Ceilings(s: Server): Charges {
    map key | key in s.uploads && !s.uploads[key].refused ::
      Charge(s.uploads[key].gate.user, Ceiling(s.uploads[key].gate))
  }

  /** The growth each upload is allowed between reads. */
  function Allowances(s: Server): Charges {
    map key | key in s.uploads && !s.uploads[key].refused :: Charge(s.uploads[key].gate.user, QUOTA_REFRESH_BYTES - 1)
  }

  /** Every upload has published its extra, and is less than a refresh past its last read. */
  ghost predicate AllPublished(s: Server) {
    && s.entries.Keys == s.uploads.Keys
    && forall key | key in s.uploads ::
         var up := s.uploads[key];
         && s.entries[key] == Charge(up.gate.user, Extra(up.gate, up.written))
         && up.gate.readAt <= up.written < up.gate.readAt + QUOTA_REFRESH_BYTES
  }

  /** Every upload knows its row. */
  ghost predicate AllCounted(s: Server) {
    forall key | key in s.uploads && key in s.rows ::
      s.rows[key] == Charge(s.uploads[key].gate.user, s.uploads[key].gate.counted)
  }

  ghost predicate Shaped(s: Server) {
    AllPublished(s) && AllCounted(s)
  }

  /** The bound that every step keeps, for one user. */
  ghost predicate Bounded(s: Server, user: string, quota: nat) {
    && Sum(Allowances(s), user) <= Slack(s.openings[user])
    && Sum(s.rows, user) + Sum(Ceilings(s), user) <= quota + Slack(s.openings[user])
  }

  /** What the database counted for the user's uploads. */
  ghost predicate CountedUpTo(s: Server, user: string, limit: nat) {
    forall key | key in s.uploads && s.uploads[key].gate.user == user :: s.uploads[key].gate.counted <= limit
  }

  ghost predicate Inv(s: Server, user: string, quota: nat) {
    Shaped(s) && Bounded(s, user, quota) && CountedUpTo(s, user, quota + Slack(s.openings[user]))
  }

  /** The server's 64-bit sums do not saturate. */
  ghost predicate Fathomable(s: Server, user: string, quota: nat) {
    2 * quota + Slack(s.openings[user]) < I64_MAX
  }
}
