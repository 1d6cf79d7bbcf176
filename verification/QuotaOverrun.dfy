/** Runs that go past the quota: as far as the bound allows, and past every bound where the sums saturate. */
module QuotaOverrun {
  import opened Quota
  import opened QuotaBound

  // ---------------------------------------------------------------------------
  // As far as the bound allows
  // ---------------------------------------------------------------------------

  /** A refresh less a byte. */
  const STRIDE: nat := 8_388_607

  /** Different keys for different numbers. */
  function Name(i: nat): (key: string)
    ensures |key| == i
  {
    if i == 0 then "" else Name(i - 1) + "x"
  }

  /** What so many keys hold, or their uploads add, once the first of them have gone a stride. */
  function Charged(user: string, n: nat, gone: nat): Charges {
    if n == 0 then map[]
    else Charged(user, n - 1, gone)[Name(n - 1) := Charge(user, if n - 1 < gone then STRIDE else 0)]
  }

  /** Gates of declared size zero, opened for empty files when the whole quota was left. */
  function Gates(user: string, n: nat, gone: nat, quota: nat, crowded: bool): map<string, Upload> {
    if n == 0 then map[]
    else
      Gates(user, n - 1, gone, quota, crowded)
      [Name(n - 1) := Upload(Gate(user, 0, quota, 0, 0), if n - 1 < gone then STRIDE else 0, false, crowded)]
  }

  lemma {:induction false} ChargedAt(user: string, n: nat, gone: nat, key: string)
    ensures key in Charged(user, n, gone) <==> |key| < n && key == Name(|key|)
    ensures key in Charged(user, n, gone) ==>
            Charged(user, n, gone)[key] == Charge(user, if |key| < gone then STRIDE else 0)
  {
    if n > 0 {
      ChargedAt(user, n - 1, gone, key);
    }
  }

  lemma {:induction false} GateAt(user: string, n: nat, gone: nat, quota: nat, crowded: bool, key: string)
    ensures key in Gates(user, n, gone, quota, crowded) <==> |key| < n && key == Name(|key|)
    ensures key in Gates(user, n, gone, quota, crowded) ==>
              Gates(user, n, gone, quota, crowded)[key]
              == Upload(Gate(user, 0, quota, 0, 0), if |key| < gone then STRIDE else 0, false, crowded)
  {
    if n > 0 {
      GateAt(user, n - 1, gone, quota, crowded, key);
    }
  }

  /** The last of them, set aside. */
  lemma LastAside(user: string, n: nat, gone: nat, quota: nat, crowded: bool)
    ensures Name(n) !in Charged(user, n, gone) && Name(n) !in Gates(user, n, gone, quota, crowded)
    ensures Name(n) in Charged(user, n + 1, gone) && Name(n) in Gates(user, n + 1, gone, quota, crowded)
    ensures Charged(user, n, gone) - {Name(n)} == Charged(user, n, gone) == Charged(user, n + 1, gone) - {Name(n)}
    ensures Gates(user, n + 1, gone, quota, crowded) - {Name(n)} == Gates(user, n, gone, quota, crowded)
  {
    ChargedAt(user, n, gone, Name(n));
    GateAt(user, n, gone, quota, crowded, Name(n));
  }

  lemma {:induction false} ChargedSum(user: string, n: nat, gone: nat)
    requires gone <= n
    ensures Sum(Charged(user, n, gone), user) == Slack(gone)
  {
    hide Sum;
    if n == 0 {
      SumOfNone(map[], user);
    } else {
      var before := Charged(user, n - 1, gone);
      ChargedAt(user, n - 1, gone, Name(n - 1));
      assert before - {Name(n - 1)} == before;
      SumPut(before, Name(n - 1), Charge(user, if n - 1 < gone then STRIDE else 0), user);
      if gone == n {
        SameBelow(user, n - 1, gone);
        ChargedSum(user, n - 1, n - 1);
      } else {
        ChargedSum(user, n - 1, gone);
      }
    }
  }

  /** Of so many, no more than all have gone. */
  lemma {:induction false} SameBelow(user: string, n: nat, gone: nat)
    requires n <= gone
    ensures Charged(user, n, gone) == Charged(user, n, n)
  {
    forall key
      ensures key in Charged(user, n, gone) <==> key in Charged(user, n, n)
      ensures key in Charged(user, n, gone) ==> Charged(user, n, gone)[key] == Charged(user, n, n)[key]
    {
      ChargedAt(user, n, gone, key);
      ChargedAt(user, n, n, key);
    }
    hide Charged;
  }

  /** One more has gone. */
  lemma OneMoreGone(user: string, n: nat, i: nat, quota: nat)
    requires i < n
    ensures Name(i) in Charged(user, n, i) && Charged(user, n, i)[Name(i)] == Charge(user, 0)
    ensures Charged(user, n, i)[Name(i) := Charge(user, STRIDE)] == Charged(user, n, i + 1)
    ensures Name(i) in Gates(user, n, i, quota, true)
    ensures Gates(user, n, i, quota, true)[Name(i)] == Upload(Gate(user, 0, quota, 0, 0), 0, false, true)
    ensures Gates(user, n, i, quota, true)[Name(i) := Upload(Gate(user, 0, quota, 0, 0), STRIDE, false, true)]
            == Gates(user, n, i + 1, quota, true)
  {
    hide Charged, Gates;
    OneMoreCharge(user, n, i);
    OneMoreGate(user, n, i, quota);
  }

  lemma OneMoreCharge(user: string, n: nat, i: nat)
    requires i < n
    ensures Name(i) in Charged(user, n, i) && Charged(user, n, i)[Name(i)] == Charge(user, 0)
    ensures Charged(user, n, i)[Name(i) := Charge(user, STRIDE)] == Charged(user, n, i + 1)
  {
    hide Charged, Name;
    forall key | key != Name(i)
      ensures key in Charged(user, n, i) <==> key in Charged(user, n, i + 1)
      ensures key in Charged(user, n, i) ==> Charged(user, n, i)[key] == Charged(user, n, i + 1)[key]
    {
      ChargedAt(user, n, i, key);
      ChargedAt(user, n, i + 1, key);
    }
    ChargedAt(user, n, i, Name(i));
    ChargedAt(user, n, i + 1, Name(i));
  }

  lemma OneMoreGate(user: string, n: nat, i: nat, quota: nat)
    requires i < n
    ensures Name(i) in Gates(user, n, i, quota, true)
    ensures Gates(user, n, i, quota, true)[Name(i)] == Upload(Gate(user, 0, quota, 0, 0), 0, false, true)
    ensures Gates(user, n, i, quota, true)[Name(i) := Upload(Gate(user, 0, quota, 0, 0), STRIDE, false, true)]
            == Gates(user, n, i + 1, quota, true)
  {
    hide Gates, Name;
    forall key | key != Name(i)
      ensures key in Gates(user, n, i, quota, true) <==> key in Gates(user, n, i + 1, quota, true)
      ensures key in Gates(user, n, i, quota, true) ==>
                Gates(user, n, i, quota, true)[key] == Gates(user, n, i + 1, quota, true)[key]
    {
      GateAt(user, n, i, quota, true, key);
      GateAt(user, n, i + 1, quota, true, key);
    }
    GateAt(user, n, i, quota, true, Name(i));
    GateAt(user, n, i + 1, quota, true, Name(i));
  }

  // ---------------------------------------------------------------------------
  // The steps
  // ---------------------------------------------------------------------------

  function Openings(user: string, n: nat): multiset<string> {
    multiset{}[user := n]
  }

  function Opened(user: string, n: nat, k: nat, quota: nat): Server {
    Server(Charged(user, n, 0), Charged(user, k, 0), Gates(user, k, 0, quota, false), Openings(user, k))
  }

  lemma OpensOneMore(user: string, n: nat, k: nat, quotas: string -> nat)
    requires k < n && 0 < quotas(user) < I64_MAX
    ensures Step(Opened(user, n, k, quotas(user)), Open(Name(k), user, 0, 0), quotas)
            == Opened(user, n, k + 1, quotas(user))
  {
    var quota, s := quotas(user), Opened(user, n, k, quotas(user));
    ChargedAt(user, n, 0, Name(k));
    LastAside(user, k, 0, quota, false);
    ChargedSum(user, n, 0);
    ChargedSum(user, k, 0);
    var up := Upload(Gate(user, 0, quota, 0, 0), 0, false, false);
    hide Sum;
    assert Opening(s, Name(k), user, quota, 0) == up;
    assert Openings(user, k) + multiset{user} == Openings(user, k + 1);
    hide Opening, Remaining, Name;
    AdmitsFirst(Announced(s, user), Name(k), up, quota, 0);
    hide Checked;
  }

  /** A check of a key nobody else's uploads compete with: it is admitted up to the budget. */
  lemma AdmitsFirst(s: Server, key: string, up: Upload, quota: nat, written: nat)
    requires up.gate == Gate(up.gate.user, 0, quota, 0, 0) && written <= quota < I64_MAX
    requires key in s.entries ==> s.entries[key].user == up.gate.user
    requires Sum(s.entries - {key}, up.gate.user) == 0 && Sum(s.rows, up.gate.user) == 0
    ensures Checked(s, key, up, quota, written)
            == s.(entries := s.entries[key := Charge(up.gate.user, written)],
                  uploads := s.uploads[key := Upload(
                    up.gate.(readAt := if Rereads(up.gate, written) then written else 0),
                    written, false, up.crowded && !Rereads(up.gate, written))])
  {
    hide Sum;
    var entries := s.entries[key := Charge(up.gate.user, written)];
    assert entries - {key} == s.entries - {key};
  }

  /** The last fills the quota and lands, and the others are behind. */
  function Landed(user: string, n: nat, gone: nat, quota: nat): Server
    requires n > 0
  {
    Server(Charged(user, n, 0)[Name(n - 1) := Charge(user, quota)], Charged(user, n - 1, gone),
           Gates(user, n - 1, gone, quota, true), Openings(user, n))
  }

  lemma LastFills(user: string, n: nat, quota: nat)
    requires n > 0 && 0 < quota < I64_MAX
    ensures var s, key := Opened(user, n, n, quota), Name(n - 1);
            && key in s.uploads && s.uploads[key] == Upload(Gate(user, 0, quota, 0, 0), 0, false, false)
            && var t := Checked(s, key, s.uploads[key], quota, quota);
            && key in t.uploads && !t.uploads[key].refused && t.uploads[key].written == quota
               && t.uploads[key].gate.user == user
            && t.rows == s.rows && t.openings == s.openings
            && t.entries - {key} == Charged(user, n - 1, 0) && t.uploads - {key} == Gates(user, n - 1, 0, quota, false)
  {
    var key, s := Name(n - 1), Opened(user, n, n, quota);
    LastAside(user, n - 1, 0, quota, false);
    ChargedAt(user, n, 0, key);
    GateAt(user, n, 0, quota, false, key);
    ChargedSum(user, n, 0);
    ChargedSum(user, n - 1, 0);
    hide Sum, Gates, Charged, Name;
    AdmitsFirst(s, key, s.uploads[key], quota, quota);
    CheckedAside(s, key, s.uploads[key], quota, quota);
    hide Checked;
  }

  lemma LastLands(user: string, n: nat, quotas: string -> nat)
    requires n > 0 && 0 < quotas(user) < I64_MAX
    ensures Step(Step(Opened(user, n, n, quotas(user)), Chunk(Name(n - 1), quotas(user)), quotas), Land(Name(n - 1)),
                 quotas)
            == Landed(user, n, 0, quotas(user))
  {
    var quota, key, s := quotas(user), Name(n - 1), Opened(user, n, n, quotas(user));
    LastFills(user, n, quota);
    ChargedAt(user, n, 0, key);
    AllBehind(user, n - 1, quota);
    hide Sum, Checked, Gates, Charged, Name, Crowded;
    var t := Step(s, Chunk(key, quota), quotas);
    assert t == Checked(s, key, s.uploads[key], quota, quota);
    assert t.rows[key].(bytes := quota) == Charge(user, quota);
  }

  lemma AllBehind(user: string, n: nat, quota: nat)
    ensures Crowded(Gates(user, n, 0, quota, false), user) == Gates(user, n, 0, quota, true)
  {
    forall key
      ensures key in Gates(user, n, 0, quota, false) <==> key in Gates(user, n, 0, quota, true)
      ensures key in Gates(user, n, 0, quota, true) ==>
                Gates(user, n, 0, quota, true)[key] == Gates(user, n, 0, quota, false)[key].(crowded := true)
      ensures key in Gates(user, n, 0, quota, false) ==> Gates(user, n, 0, quota, false)[key].gate.user == user
    {
      GateAt(user, n, 0, quota, false, key);
      GateAt(user, n, 0, quota, true, key);
    }
    hide Gates;
  }

  /** Each of the others goes on for a stride, on the budget it read before. */
  lemma OneGoesOn(user: string, n: nat, i: nat, quotas: string -> nat)
    requires i + 1 < n && Slack(n - 1) <= quotas(user) < I64_MAX
    ensures Step(Landed(user, n, i, quotas(user)), Chunk(Name(i), STRIDE), quotas)
            == Landed(user, n, i + 1, quotas(user))
  {
    var quota, key, s := quotas(user), Name(i), Landed(user, n, i, quotas(user));
    OneMoreGone(user, n - 1, i, quota);
    ChargedSum(user, n - 1, i);
    hide Sum, Gates, Charged, Name;
    SumTake(s.entries, key, user);
    StrideFits(s, key, user, quota, i);
    hide Checked;
  }

  lemma StrideFits(s: Server, key: string, user: string, quota: nat, i: nat)
    requires key in s.uploads && s.uploads[key] == Upload(Gate(user, 0, quota, 0, 0), 0, false, true)
    requires key in s.entries && s.entries[key] == Charge(user, 0)
    requires Sum(s.entries - {key}, user) == Slack(i) && Slack(i + 1) <= quota < I64_MAX
    ensures Checked(s, key, s.uploads[key], quota, STRIDE)
            == s.(entries := s.entries[key := Charge(user, STRIDE)],
                  uploads := s.uploads[key := Upload(Gate(user, 0, quota, 0, 0), STRIDE, false, true)])
  {
    hide Sum;
    assert s.entries[key := Charge(user, STRIDE)] - {key} == s.entries - {key};
  }

  // ---------------------------------------------------------------------------
  // The run
  // ---------------------------------------------------------------------------

  function Opens(user: string, n: nat): seq<Op> {
    if n == 0 then [] else Opens(user, n - 1) + [Open(Name(n - 1), user, 0, 0)]
  }

  function GoesOn(n: nat): seq<Op> {
    if n == 0 then [] else GoesOn(n - 1) + [Chunk(Name(n - 1), STRIDE)]
  }

  function Overrunning(user: string, n: nat, quota: nat): seq<Op>
    requires n > 0
  {
    Opens(user, n) + ([Chunk(Name(n - 1), quota)] + [Land(Name(n - 1))] + GoesOn(n - 1))
  }

  lemma {:induction false} AfterJoined(s: Server, a: seq<Op>, b: seq<Op>, quotas: string -> nat)
    ensures After(s, a + b, quotas) == After(After(s, a, quotas), b, quotas)
    decreases |a|
  {
    hide Step;
    if a == [] {
      assert a + b == b;
    } else {
      assert (a + b)[1..] == a[1..] + b;
      AfterJoined(Step(s, a[0], quotas), a[1..], b, quotas);
    }
  }

  lemma {:induction false} AllOpen(user: string, n: nat, k: nat, quotas: string -> nat)
    requires k <= n && 0 < quotas(user) < I64_MAX
    ensures After(Idle(Charged(user, n, 0)), Opens(user, k), quotas) == Opened(user, n, k, quotas(user))
  {
    hide Step, Charged;
    if k == 0 {
      assert Charged(user, 0, 0) == map[] by { ChargedNone(user); }
    } else {
      AllOpen(user, n, k - 1, quotas);
      var op := Open(Name(k - 1), user, 0, 0);
      AfterJoined(Idle(Charged(user, n, 0)), Opens(user, k - 1), [op], quotas);
      AfterOne(Opened(user, n, k - 1, quotas(user)), op, quotas);
      OpensOneMore(user, n, k - 1, quotas);
      hide Opened;
    }
  }

  lemma ChargedNone(user: string)
    ensures Charged(user, 0, 0) == map[]
  {
  }

  lemma {:induction false} AllGoOn(user: string, n: nat, k: nat, quotas: string -> nat)
    requires k < n && Slack(n - 1) <= quotas(user) < I64_MAX
    ensures After(Landed(user, n, 0, quotas(user)), GoesOn(k), quotas) == Landed(user, n, k, quotas(user))
  {
    hide Step, Landed;
    if k > 0 {
      AllGoOn(user, n, k - 1, quotas);
      var op := Chunk(Name(k - 1), STRIDE);
      AfterJoined(Landed(user, n, 0, quotas(user)), GoesOn(k - 1), [op], quotas);
      AfterOne(Landed(user, n, k - 1, quotas(user)), op, quotas);
      OneGoesOn(user, n, k - 1, quotas);
    }
  }

  lemma AddingOverrun(user: string, n: nat, quota: nat)
    requires n > 0
    ensures Adding(Landed(user, n, n - 1, quota)) == Charged(user, n - 1, n - 1)
  {
    var s := Landed(user, n, n - 1, quota);
    forall key
      ensures key in Adding(s) <==> key in Charged(user, n - 1, n - 1)
      ensures key in Adding(s) ==> Adding(s)[key] == Charged(user, n - 1, n - 1)[key]
    {
      GateAt(user, n - 1, n - 1, quota, true, key);
      ChargedAt(user, n - 1, n - 1, key);
      hide Charged, Gates, Name;
    }
    hide Charged, Gates, Name, Adding;
  }

  lemma TotalOverrun(user: string, n: nat, quota: nat)
    requires n > 0
    ensures Total(Landed(user, n, n - 1, quota), user) == quota + Overrun(n)
    ensures Landed(user, n, n - 1, quota).openings[user] == n
  {
    hide Sum, Charged, Gates, Adding;
    AddingOverrun(user, n, quota);
    ChargedSum(user, n - 1, n - 1);
    LastAside(user, n - 1, 0, quota, true);
    SumPut(Charged(user, n, 0), Name(n - 1), Charge(user, quota), user);
    ChargedSum(user, n - 1, 0);
  }

  /** The bound is the least: for every number of gates there are empty files and a run over them that opens so
      many, and ends with exactly the quota and the whole overrun. */
  lemma QuotaBoundIsLeast(quotas: string -> nat, user: string, gates: nat)
    requires gates > 0 && 0 < quotas(user) < I64_MAX && Overrun(gates) <= quotas(user)
    ensures var rows := Charged(user, gates, 0);
            var s := After(Idle(rows), Overrunning(user, gates, quotas(user)), quotas);
            && Sum(rows, user) == 0 && s.openings[user] == gates
            && Total(s, user) == quotas(user) + Overrun(gates)
  {
    hide After, Step, Opened, Opens, GoesOn, Sum, Charged, Adding, Landed, Total, Name, Idle;
    var quota, key := quotas(user), Name(gates - 1);
    var start := Idle(Charged(user, gates, 0));
    var all := Opened(user, gates, gates, quota);
    ChargedSum(user, gates, 0);
    AllOpen(user, gates, gates, quotas);
    AfterJoined(start, Opens(user, gates), [Chunk(key, quota)] + [Land(key)] + GoesOn(gates - 1), quotas);
    AfterJoined(all, [Chunk(key, quota)] + [Land(key)], GoesOn(gates - 1), quotas);
    AfterJoined(all, [Chunk(key, quota)], [Land(key)], quotas);
    AfterOne(all, Chunk(key, quota), quotas);
    AfterOne(Step(all, Chunk(key, quota), quotas), Land(key), quotas);
    LastLands(user, gates, quotas);
    AllGoOn(user, gates, gates - 1, quotas);
    TotalOverrun(user, gates, quota);
  }

  // ---------------------------------------------------------------------------
  // Where the sums saturate
  // ---------------------------------------------------------------------------

  const ANN := "ann"

  /** Deleting a row does not make a gate forget what it counted for it. */
  lemma GateRemembers(quotas: string -> nat, counted: nat)
    requires 0 < quotas(ANN) && counted <= quotas(ANN)
    ensures var s := Step(Step(Idle(map["a" := Charge(ANN, counted)]), Open("a", ANN, 0, 0), quotas), Delete("a"),
                          quotas);
            && s.rows == map[] && s.entries == map["a" := Charge(ANN, 0)] && s.openings == multiset{ANN}
            && "a" in s.uploads && s.uploads["a"].gate == Gate(ANN, counted, Signed(quotas(ANN)), 0, 0)
            && s.uploads["a"].written == 0 && !s.uploads["a"].refused && !s.uploads["a"].crowded
  {
    var rows := map["a" := Charge(ANN, counted)];
    SumTake(rows, "a", ANN);
    assert rows - {"a"} == map[] && map["a" := Charge(ANN, 0)] - {"a"} == map[];
    SumOfNone(map[], ANN);
    hide Sum;
  }

  lemma NothingIsTooMuch(s: Server, quota: nat, counted: nat)
    requires s.rows == map[] && s.entries == map["a" := Charge(ANN, 0)] && "a" in s.uploads
    requires s.uploads.Keys == {"a"} && s.uploads["a"].gate == Gate(ANN, counted, Signed(quota), 0, 0)
    requires Signed(quota) + counted >= I64_MAX && counted <= GREATEST
    ensures var t := Checked(s, "a", s.uploads["a"], quota, GREATEST);
            Total(t, ANN) == GREATEST - counted && t.openings == s.openings
  {
    var t := Checked(s, "a", s.uploads["a"], quota, GREATEST);
    SumOfNone(map[], ANN);
    assert t.entries - {"a"} == map[];
    hide Sum;
    assert !t.uploads["a"].refused;
    assert Adding(t) == map["a" := Charge(ANN, GREATEST - counted)];
    SumTake(Adding(t), "a", ANN);
    assert Adding(t) - {"a"} == map[];
  }

  /** The greatest unsigned number. */
  const GREATEST: nat := 0xffff_ffff_ffff_ffff

  /** The quota itself where it can be signed, and nothing otherwise. */
  function Start(quota: nat): nat {
    if quota < I64_MAX then quota else 0
  }

  /** Nor is there any bound where the sums saturate, which is from half the greatest signed number on: one gate is
      enough, and nothing lands. */
  lemma SaturatedQuotaIsPassed(quotas: string -> nat)
    requires I64_MAX <= 2 * quotas(ANN) && quotas(ANN) < GREATEST
    ensures var rows := map["a" := Charge(ANN, Start(quotas(ANN)))];
            var ops := [Open("a", ANN, 0, 0), Delete("a"), Chunk("a", GREATEST)];
            var s := After(Idle(rows), ops, quotas);
            && Sum(rows, ANN) <= quotas(ANN) && Unsurprised(Idle(rows), ops, quotas, ANN)
            && s.openings[ANN] == 1 && Total(s, ANN) > quotas(ANN) + Overrun(1)
  {
    var counted := Start(quotas(ANN));
    var rows := map["a" := Charge(ANN, counted)];
    var ops := [Open("a", ANN, 0, 0), Delete("a"), Chunk("a", GREATEST)];
    SumTake(rows, "a", ANN);
    assert rows - {"a"} == map[];
    SumOfNone(map[], ANN);
    GateRemembers(quotas, counted);
    var s1 := Step(Idle(rows), ops[0], quotas);
    var s2 := Step(s1, ops[1], quotas);
    NothingIsTooMuch(s2, quotas(ANN), counted);
    hide Sum, Checked;
    OneByOne(Idle(rows), ops[0], ops[1], ops[2], quotas);
    hide After, Unsurprised;
    assert Step(s2, ops[2], quotas) == Checked(s2, "a", s2.uploads["a"], quotas(ANN), GREATEST);
  }

  lemma OneByOne(s: Server, a: Op, b: Op, c: Op, quotas: string -> nat)
    requires !a.Chunk? && !b.Chunk? && Calm(Step(Step(s, a, quotas), b, quotas), ANN)
    ensures After(s, [a, b, c], quotas) == Step(Step(Step(s, a, quotas), b, quotas), c, quotas)
    ensures Unsurprised(s, [a, b, c], quotas, ANN)
  {
    hide Step, Calm;
    assert [a, b, c][1..] == [b, c] && [b, c][1..] == [c] && [c][1..] == [];
    var t := Step(Step(s, a, quotas), b, quotas);
    AfterOne(t, c, quotas);
    UnsurprisedWhenCalm(t, c, quotas, ANN);
    assert After(s, [a, b, c], quotas) == After(Step(s, a, quotas), [b, c], quotas) == After(t, [c], quotas);
    assert Unsurprised(t, [c], quotas, ANN) ==> Unsurprised(Step(s, a, quotas), [b, c], quotas, ANN);
  }
}
