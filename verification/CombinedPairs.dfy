/** Which definitions the combined view puts together, said on their display names, and where those are blank, on their
    internal ones. */
module CombinedPairs {
  import opened Options
  import opened Combined
  import opened CombinedView

  /** Normalising keeps letters and digits only, so no text it gives looks like an internal name's. */
  ghost predicate LettersAndDigits(c: Casing) {
    forall text: string :: !("name:" <= c.normalize(text))
  }

  /** The same achievement: the same display name but for case, spacing and punctuation, or the same internal name but
      for case where neither has a display name. */
  predicate Pairs(d: Definition, e: Definition, c: Casing) {
    var shown, other := c.normalize(d.displayName.Or("")), c.normalize(e.displayName.Or(""));
    && d.name.Some? && e.name.Some?
    && shown == other && (shown == "" ==> c.upper(d.name.value) == c.upper(e.name.value))
  }

  lemma KeysArePairs(d: Definition, e: Definition, c: Casing)
    requires LettersAndDigits(c) && d.name.Some? && e.name.Some?
    ensures Paired(d, c) && Paired(e, c)
    ensures PairingKey(d, c) == PairingKey(e, c) <==> Pairs(d, e, c)
  {
    var shown, other := c.normalize(d.displayName.Or("")), c.normalize(e.displayName.Or(""));
    var n, m := "name:" + c.upper(d.name.value), "name:" + c.upper(e.name.value);
    assert "name:" <= n && "name:" <= m && n[5..] == c.upper(d.name.value) && m[5..] == c.upper(e.name.value);
  }

  /** The definitions that pair with one, in order. */
  function PairedWith(definitions: seq<Definition>, d: Definition, c: Casing): (paired: seq<Definition>)
    ensures forall e | e in paired :: e.name.Some?
  {
    if definitions == [] then []
    else
      var last := definitions[|definitions| - 1];
      PairedWith(definitions[..|definitions| - 1], d, c) + if Pairs(d, last, c) then [last] else []
  }

  lemma {:induction false} OccurrencesArePaired(definitions: seq<Definition>, d: Definition, c: Casing)
    requires LettersAndDigits(c) && d.name.Some?
    ensures PairingKey(d, c).Some?
    ensures Occurrences(definitions, PairingKey(d, c).value, c) == PairedWith(definitions, d, c)
  {
    KeysArePairs(d, d, c);
    hide PairingKey, Pairs;
    if definitions != [] {
      var last := definitions[|definitions| - 1];
      OccurrencesArePaired(definitions[..|definitions| - 1], d, c);
      if last.name.Some? {
        KeysArePairs(d, last, c);
      } else {
        NamelessPairsNothing(d, last, c);
      }
    }
  }

  lemma NamelessPairsNothing(d: Definition, e: Definition, c: Casing)
    requires e.name.None?
    ensures !Pairs(d, e, c) && !Paired(e, c)
  {
  }

  /** The n-th definition of each copy that pairs with `d`, in copy order. */
  function NthPaired(copies: seq<Copy>, fallback: seq<Definition>, d: Definition, n: nat, c: Casing): seq<Variant> {
    if copies == [] then []
    else
      var last := copies[|copies| - 1];
      NthPaired(copies[..|copies| - 1], fallback, d, n, c)
      + AtMostOne(last, PairedWith(Effective(last, fallback), d, c), n, c)
  }

  lemma {:induction false} NthIsPaired(copies: seq<Copy>, fallback: seq<Definition>, d: Definition, n: nat, c: Casing)
    requires LettersAndDigits(c) && d.name.Some?
    ensures PairingKey(d, c).Some?
    ensures NthOfEach(copies, fallback, PairingKey(d, c).value, n, c) == NthPaired(copies, fallback, d, n, c)
  {
    KeysArePairs(d, d, c);
    hide PairingKey, AtMostOne;
    if copies != [] {
      NthIsPaired(copies[..|copies| - 1], fallback, d, n, c);
      OccurrencesArePaired(Effective(copies[|copies| - 1], fallback), d, c);
    }
  }

  // ---------------------------------------------------------------------------
  // Where a definition stands
  // ---------------------------------------------------------------------------

  /** What a copy shows: its own definitions, or those of the first copy that has any. */
  lemma {:induction false} FallbackIsFirst(copies: seq<Copy>, k: nat)
    requires k < |copies| && copies[k].definitions != [] && forall j | 0 <= j < k :: copies[j].definitions == []
    ensures Fallback(copies) == copies[k].definitions
  {
    if k > 0 {
      FallbackIsFirst(copies[1..], k - 1);
    }
  }

  lemma {:induction false} NothingToBorrow(copies: seq<Copy>)
    requires forall copy | copy in copies :: copy.definitions == []
    ensures Fallback(copies) == []
  {
    if copies != [] {
      NothingToBorrow(copies[1..]);
    }
  }

  /** A copy shows its own definitions, or those of the first copy with any if it has none. */
  lemma ShownAreOwnOrBorrowed(copies: seq<Copy>, a: nat, k: nat)
    requires a < |copies| && k < |copies| && copies[k].definitions != []
    requires forall j | 0 <= j < k :: copies[j].definitions == []
    ensures Effective(copies[a], Fallback(copies))
            == if copies[a].definitions != [] then copies[a].definitions else copies[k].definitions
  {
    FallbackIsFirst(copies, k);
  }

  /** The i-th definition that the a-th copy shows, its own or borrowed. */
  ghost predicate Shows(copies: seq<Copy>, a: nat, i: nat) {
    a < |copies| && i < |Effective(copies[a], Fallback(copies))| && Effective(copies[a], Fallback(copies))[i].name.Some?
  }

  function ShownAt(copies: seq<Copy>, a: nat, i: nat): Definition
    requires Shows(copies, a, i)
  {
    Effective(copies[a], Fallback(copies))[i]
  }

  /** How many before it in its copy pair with it. */
  function Rank(copies: seq<Copy>, a: nat, i: nat, c: Casing): nat
    requires Shows(copies, a, i)
  {
    |PairedWith(Effective(copies[a], Fallback(copies))[..i], ShownAt(copies, a, i), c)|
  }

  /** The group it is put in. */
  ghost function GroupOf(copies: seq<Copy>, a: nat, i: nat, c: Casing): nat
    requires Shows(copies, a, i)
  {
    IndexOf(Order(AllTags(copies, Fallback(copies), c)), TagKey(copies, a, i, c))
  }

  function TagKey(copies: seq<Copy>, a: nat, i: nat, c: Casing): string
    requires Shows(copies, a, i)
  {
    GroupKey(PairingKey(ShownAt(copies, a, i), c).Or(""), Rank(copies, a, i, c))
  }

  function IndexOf(order: seq<string>, key: string): (at: nat)
    ensures at <= |order|
    ensures key in order ==> at < |order| && order[at] == key
  {
    if order == [] || order[0] == key then 0 else 1 + IndexOf(order[1..], key)
  }

  lemma {:induction false} TagIsThere(copy: Copy, definitions: seq<Definition>, i: nat, c: Casing)
    requires LettersAndDigits(c) && i < |definitions| && definitions[i].name.Some?
    ensures PairingKey(definitions[i], c).Some?
    ensures Tag(GroupKey(PairingKey(definitions[i], c).value, |PairedWith(definitions[..i], definitions[i], c)|),
                VariantOf(copy, definitions[i], c)) in TagsOf(copy, definitions, c)
  {
    var n := |definitions| - 1;
    KeysArePairs(definitions[i], definitions[i], c);
    if i < n {
      TagIsThere(copy, definitions[..n], i, c);
      assert definitions[..n][..i] == definitions[..i];
    } else {
      OccurrencesArePaired(definitions[..n], definitions[n], c);
    }
    hide PairingKey, PairedWith, VariantOf, GroupKey, Pairs;
  }

  lemma {:induction false} TagsAreAll(copies: seq<Copy>, fallback: seq<Definition>, a: nat, tag: Tag, c: Casing)
    requires a < |copies| && tag in TagsOf(copies[a], Effective(copies[a], fallback), c)
    ensures tag in AllTags(copies, fallback, c)
  {
    hide TagsOf, Effective;
    if a < |copies| - 1 {
      TagsAreAll(copies[..|copies| - 1], fallback, a, tag, c);
    }
  }

  lemma StandsInOrder(copies: seq<Copy>, a: nat, i: nat, c: Casing)
    requires LettersAndDigits(c) && Shows(copies, a, i)
    ensures var order := Order(AllTags(copies, Fallback(copies), c));
            GroupOf(copies, a, i, c) < |order| && order[GroupOf(copies, a, i, c)] == TagKey(copies, a, i, c)
  {
    var d, tags := ShownAt(copies, a, i), AllTags(copies, Fallback(copies), c);
    TagIsThere(copies[a], Effective(copies[a], Fallback(copies)), i, c);
    hide PairingKey, VariantOf, GroupKey, TagsOf, AllTags, Order, PairedWith, Effective;
    var tag := Tag(TagKey(copies, a, i, c), VariantOf(copies[a], d, c));
    TagsAreAll(copies, Fallback(copies), a, tag, c);
    var k :| 0 <= k < |tags| && tags[k] == tag;
    assert HasKey(tags, tag.key);
    DistinctOrder(tags);
  }

  /** Each definition stands in one group, which holds exactly the definitions of all copies that pair with it and have
      as many such before them. */
  lemma GroupHoldsItsPairs(canonicalId: string, copies: seq<Copy>, a: nat, i: nat, c: Casing)
    requires LettersAndDigits(c) && Shows(copies, a, i)
    ensures var g, d := GroupOf(copies, a, i, c), ShownAt(copies, a, i);
            && g < |Combine(canonicalId, copies, c)|
            && Combine(canonicalId, copies, c)[g].variants
               == NthPaired(copies, Fallback(copies), d, Rank(copies, a, i, c), c)
            && VariantOf(copies[a], d, c) in Combine(canonicalId, copies, c)[g].variants
  {
    var d, n, fallback := ShownAt(copies, a, i), Rank(copies, a, i, c), Fallback(copies);
    StandsInOrder(copies, a, i, c);
    KeysArePairs(d, d, c);
    GroupHoldsNth(copies, fallback, PairingKey(d, c).value, n, c);
    NthIsPaired(copies, fallback, d, n, c);
    OwnPlace(Effective(copies[a], fallback), i, c);
    OwnIsShown(copies, fallback, a, d, n, c);
    hide PairingKey, VariantOf, GroupKey, AllTags, Order, PairedWith, Effective, Pairs, NthOfEach, NthPaired, GroupOf;
  }

  /** What is unlocked when under a name in any case, or else under the other. */
  predicate UnlockedWhen(copy: Copy, name: string, other: Option<string>, when: Option<int>, c: Casing) {
    if c.upper(name) in copy.unlocks then when == Some(copy.unlocks[c.upper(name)])
    else if other.Some? && c.upper(other.value) in copy.unlocks then when == Some(copy.unlocks[c.upper(other.value)])
    else when == None
  }

  /** The variant shows the definition as the copy has it: unlocked when the copy says so under the definition's own
      name or else its external id, with blank display names and grey icons filled in. */
  predicate Depicts(v: Variant, copy: Copy, d: Definition, c: Casing) {
    && v.shop == copy.shop && v.objectId == copy.objectId && d.name == Some(v.name)
    && UnlockedWhen(copy, v.name, d.externalId, v.unlockTime, c)
    && (if c.upper(v.name) in copy.images then v.imageUrl == Some(copy.images[c.upper(v.name)]) else v.imageUrl == None)
    && (d.displayName in {None, Some("")} ==> v.displayName == v.name)
    && (d.displayName !in {None, Some("")} ==> d.displayName == Some(v.displayName))
    && (v.hidden <==> d.hidden == Some(true))
    && (if d.icon == None then v.icon == "" else d.icon == Some(v.icon))
    && (if d.iconGray == None then v.iconGray == v.icon else d.iconGray == Some(v.iconGray))
    && v.description == d.description && v.points == d.points
  }

  lemma VariantDepicts(copy: Copy, d: Definition, c: Casing)
    requires d.name.Some?
    ensures Depicts(VariantOf(copy, d, c), copy, d, c)
  {
  }

  /** Every named definition of every copy is depicted in its group. */
  lemma DefinitionIsDepicted(canonicalId: string, copies: seq<Copy>, a: nat, i: nat, c: Casing) returns (v: Variant)
    requires LettersAndDigits(c) && Shows(copies, a, i)
    ensures GroupOf(copies, a, i, c) < |Combine(canonicalId, copies, c)|
    ensures v in Combine(canonicalId, copies, c)[GroupOf(copies, a, i, c)].variants
    ensures Depicts(v, copies[a], ShownAt(copies, a, i), c)
  {
    v := VariantOf(copies[a], ShownAt(copies, a, i), c);
    GroupHoldsItsPairs(canonicalId, copies, a, i, c);
    VariantDepicts(copies[a], ShownAt(copies, a, i), c);
    hide *;
  }

  /** A definition is the one after those before it that pair with it. */
  lemma {:induction false} OwnPlace(definitions: seq<Definition>, i: nat, c: Casing)
    requires i < |definitions| && definitions[i].name.Some?
    ensures var d := definitions[i];
            var n := |PairedWith(definitions[..i], d, c)|;
            n < |PairedWith(definitions, d, c)| && PairedWith(definitions, d, c)[n] == d
  {
    var n := |definitions| - 1;
    if i < n {
      OwnPlace(definitions[..n], i, c);
      assert definitions[..n][..i] == definitions[..i];
    } else {
      assert Pairs(definitions[i], definitions[i], c);
    }
    hide Pairs;
  }

  lemma {:induction false} OwnIsShown(copies: seq<Copy>, fallback: seq<Definition>, a: nat, d: Definition, n: nat,
                                      c: Casing)
    requires a < |copies| && d.name.Some?
    requires n < |PairedWith(Effective(copies[a], fallback), d, c)|
    requires PairedWith(Effective(copies[a], fallback), d, c)[n] == d
    ensures VariantOf(copies[a], d, c) in NthPaired(copies, fallback, d, n, c)
  {
    hide PairedWith, VariantOf, Effective;
    if a < |copies| - 1 {
      OwnIsShown(copies[..|copies| - 1], fallback, a, d, n, c);
    }
  }

  /** Two definitions stand in the same group exactly if they pair and have as many before them in their copies that
      pair with them. */
  lemma SameGroupExactly(copies: seq<Copy>, a: nat, i: nat, b: nat, j: nat, c: Casing)
    requires LettersAndDigits(c) && Shows(copies, a, i) && Shows(copies, b, j)
    ensures GroupOf(copies, a, i, c) == GroupOf(copies, b, j, c)
            <==> Pairs(ShownAt(copies, a, i), ShownAt(copies, b, j), c)
                 && Rank(copies, a, i, c) == Rank(copies, b, j, c)
  {
    var d, e := ShownAt(copies, a, i), ShownAt(copies, b, j);
    StandsInOrder(copies, a, i, c);
    StandsInOrder(copies, b, j, c);
    DistinctOrder(AllTags(copies, Fallback(copies), c));
    KeysArePairs(d, e, c);
    hide PairingKey, AllTags, Order, Effective, Pairs, Rank, GroupKey;
    if TagKey(copies, a, i, c) == TagKey(copies, b, j, c) {
      KeysAreInjective(PairingKey(d, c).value, Rank(copies, a, i, c), PairingKey(e, c).value, Rank(copies, b, j, c));
    }
  }

  lemma {:induction false} TagComesFrom(copy: Copy, definitions: seq<Definition>, k: nat, c: Casing) returns (i: nat)
    requires LettersAndDigits(c) && k < |TagsOf(copy, definitions, c)|
    ensures i < |definitions| && definitions[i].name.Some? && PairingKey(definitions[i], c).Some?
    ensures TagsOf(copy, definitions, c)[k].key
            == GroupKey(PairingKey(definitions[i], c).value, |PairedWith(definitions[..i], definitions[i], c)|)
  {
    var n := |definitions| - 1;
    if k < |TagsOf(copy, definitions[..n], c)| {
      i := TagComesFrom(copy, definitions[..n], k, c);
      assert definitions[..n][..i] == definitions[..i];
    } else {
      i := n;
      OccurrencesArePaired(definitions[..n], definitions[n], c);
    }
  }

  lemma {:induction false} AnyTagComesFrom(copies: seq<Copy>, fallback: seq<Definition>, k: nat, c: Casing)
    returns (a: nat, i: nat)
    requires LettersAndDigits(c) && k < |AllTags(copies, fallback, c)|
    ensures a < |copies| && i < |Effective(copies[a], fallback)|
    ensures var definitions := Effective(copies[a], fallback);
            && definitions[i].name.Some? && PairingKey(definitions[i], c).Some?
            && AllTags(copies, fallback, c)[k].key
               == GroupKey(PairingKey(definitions[i], c).value, |PairedWith(definitions[..i], definitions[i], c)|)
  {
    hide TagsOf, PairedWith, PairingKey, GroupKey, Effective;
    var n := |copies| - 1;
    var before := AllTags(copies[..n], fallback, c);
    if k < |before| {
      a, i := AnyTagComesFrom(copies[..n], fallback, k, c);
    } else {
      a := n;
      i := TagComesFrom(copies[n], Effective(copies[n], fallback), k - |before|, c);
    }
  }

  /** Every group is some definition's, and different groups have different ids. */
  lemma EveryGroupHasADefinition(canonicalId: string, copies: seq<Copy>, g: nat, c: Casing) returns (a: nat, i: nat)
    requires LettersAndDigits(c) && g < |Combine(canonicalId, copies, c)|
    ensures Shows(copies, a, i) && GroupOf(copies, a, i, c) == g
    ensures forall h | 0 <= h < |Combine(canonicalId, copies, c)| && h != g ::
              Combine(canonicalId, copies, c)[h].id != Combine(canonicalId, copies, c)[g].id
  {
    var tags := AllTags(copies, Fallback(copies), c);
    KeyListed(tags, g);
    var k :| 0 <= k < |tags| && tags[k].key == Order(tags)[g];
    a, i := AnyTagComesFrom(copies, Fallback(copies), k, c);
    StandsInOrder(copies, a, i, c);
    DistinctOrder(tags);
    hide PairingKey, AllTags, Order, Effective, PairedWith, GroupKey, GroupOf;
    assert Order(tags)[GroupOf(copies, a, i, c)] == Order(tags)[g];
    forall h | 0 <= h < |Order(tags)| && h != g
      ensures canonicalId + ":" + Order(tags)[h] != canonicalId + ":" + Order(tags)[g]
    {
      SuffixesDiffer(canonicalId + ":", Order(tags)[h], Order(tags)[g]);
    }
  }

  lemma SuffixesDiffer(prefix: string, a: string, b: string)
    requires a != b
    ensures prefix + a != prefix + b
  {
    assert (prefix + a)[|prefix|..] == a && (prefix + b)[|prefix|..] == b;
  }
}
