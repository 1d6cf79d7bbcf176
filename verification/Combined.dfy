/** The combined view of one game's achievements in several stores, src/combined_achievements.rs. What counts as
    the same display name, and upper-casing, are parameters. */
module Combined {
  import opened Options

  /** `normalize` keeps a display name's letters and digits, lower-cased; `upper` upper-cases a name. */
  datatype Casing = Casing(normalize: string -> string, upper: string -> string)

  datatype Definition = Definition(
    name: Option<string>,
    displayName: Option<string>,
    description: Option<string>,
    icon: Option<string>,
    iconGray: Option<string>,
    hidden: Option<bool>,
    points: Option<int>,
    externalId: Option<string>)

  datatype Copy = Copy(shop: string, objectId: string, definitions: seq<Definition>,
                       unlocks: map<string, int>, images: map<string, string>)

  datatype Variant = Variant(
    shop: string,
    objectId: string,
    name: string,
    displayName: string,
    hidden: bool,
    icon: string,
    iconGray: string,
    unlockTime: Option<int>,
    imageUrl: Option<string>,
    description: Option<string>,
    points: Option<int>)

  datatype Group = Group(id: string, variants: seq<Variant>)

  function Get<T>(m: map<string, T>, key: string): Option<T> {
    if key in m then Some(m[key]) else None
  }

  function PairingKey(d: Definition, c: Casing): Option<string> {
    var display := c.normalize(d.displayName.Or(""));
    if display != "" then Some(display)
    else if d.name.Some? then Some("name:" + c.upper(d.name.value))
    else None
  }

  predicate Paired(d: Definition, c: Casing) {
    d.name.Some? && PairingKey(d, c).Some?
  }

  /** One definition as one store's copy shows it; Epic unlocks may be filed under the external id. */
  function VariantOf(copy: Copy, d: Definition, c: Casing): Variant
    requires d.name.Some?
  {
    var name := d.name.value;
    var icon := d.icon.Or("");
    var own := Get(copy.unlocks, c.upper(name));
    Variant(copy.shop, copy.objectId, name,
            if d.displayName.Some? && d.displayName.value != "" then d.displayName.value else name,
            d.hidden.Or(false), icon, d.iconGray.Or(icon),
            if own.Some? || d.externalId.None? then own else Get(copy.unlocks, c.upper(d.externalId.value)),
            Get(copy.images, c.upper(name)), d.description, d.points)
  }

  function Digits(n: nat): string {
    if n < 10 then [Digit(n)] else Digits(n / 10) + [Digit(n % 10)]
  }

  function Digit(n: nat): char
    requires n < 10
  {
    '0' + n as char
  }

  function GroupKey(base: string, n: nat): string {
    base + "#" + Digits(n)
  }

  // ---------------------------------------------------------------------------
  // Grouping
  // ---------------------------------------------------------------------------

  datatype Tag = Tag(key: string, variant: Variant)

  /** The paired definitions with a given base key, in order. */
  function Occurrences(definitions: seq<Definition>, base: string, c: Casing): seq<Definition> {
    if definitions == [] then []
    else
      var last := definitions[|definitions| - 1];
      Occurrences(definitions[..|definitions| - 1], base, c)
      + if Paired(last, c) && PairingKey(last, c) == Some(base) then [last] else []
  }

  lemma {:induction false} OccurrencesAreNamed(definitions: seq<Definition>, base: string, c: Casing)
    ensures forall i | 0 <= i < |Occurrences(definitions, base, c)| :: Occurrences(definitions, base, c)[i].name.Some?
  {
    if definitions != [] {
      OccurrencesAreNamed(definitions[..|definitions| - 1], base, c);
    }
  }

  /** One copy's variants, each under the key that counts its name's earlier occurrences. */
  function TagsOf(copy: Copy, definitions: seq<Definition>, c: Casing): seq<Tag> {
    if definitions == [] then []
    else
      var init, last := definitions[..|definitions| - 1], definitions[|definitions| - 1];
      TagsOf(copy, init, c)
      + if Paired(last, c)
        then [Tag(GroupKey(PairingKey(last, c).value, |Occurrences(init, PairingKey(last, c).value, c)|),
                  VariantOf(copy, last, c))]
        else []
  }

  /** The definitions of the first copy that has any. */
  function Fallback(copies: seq<Copy>): seq<Definition> {
    if copies == [] then []
    else if copies[0].definitions != [] then copies[0].definitions
    else Fallback(copies[1..])
  }

  function Effective(copy: Copy, fallback: seq<Definition>): seq<Definition> {
    if copy.definitions == [] then fallback else copy.definitions
  }

  function AllTags(copies: seq<Copy>, fallback: seq<Definition>, c: Casing): seq<Tag> {
    if copies == [] then []
    else
      var last := copies[|copies| - 1];
      AllTags(copies[..|copies| - 1], fallback, c) + TagsOf(last, Effective(last, fallback), c)
  }

  predicate HasKey(tags: seq<Tag>, key: string) {
    exists i | 0 <= i < |tags| :: tags[i].key == key
  }

  /** The keys in order of first appearance. */
  function Order(tags: seq<Tag>): seq<string> {
    if tags == [] then []
    else
      var init, last := tags[..|tags| - 1], tags[|tags| - 1];
      Order(init) + if HasKey(init, last.key) then [] else [last.key]
  }

  function VariantsFor(tags: seq<Tag>, key: string): seq<Variant> {
    if tags == [] then []
    else
      var last := tags[|tags| - 1];
      VariantsFor(tags[..|tags| - 1], key) + if last.key == key then [last.variant] else []
  }

  function Grouped(canonicalId: string, tags: seq<Tag>): seq<Group> {
    seq(|Order(tags)|, i requires 0 <= i < |Order(tags)| =>
      Group(canonicalId + ":" + Order(tags)[i], VariantsFor(tags, Order(tags)[i])))
  }

  function Combine(canonicalId: string, copies: seq<Copy>, c: Casing): seq<Group> {
    Grouped(canonicalId, AllTags(copies, Fallback(copies), c))
  }

  /** The order list and the groups map, when they hold exactly what a sequence of tags puts there. */
  ghost predicate Holds(order: seq<string>, groups: map<string, seq<Variant>>, tags: seq<Tag>) {
    && order == Order(tags)
    && (forall key :: key in groups <==> HasKey(tags, key))
    && (forall key | key in groups :: groups[key] == VariantsFor(tags, key))
  }

  lemma PushHolds(order: seq<string>, groups: map<string, seq<Variant>>, tags: seq<Tag>, tag: Tag)
    requires Holds(order, groups, tags)
    ensures Holds(if tag.key in groups then order else order + [tag.key],
                  groups[tag.key := (if tag.key in groups then groups[tag.key] else []) + [tag.variant]],
                  tags + [tag])
  {
    var more := tags + [tag];
    assert more[..|tags|] == tags && more[|tags|] == tag;
    NoKeyNoVariants(tags, tag.key);
    forall key
      ensures HasKey(more, key) <==> HasKey(tags, key) || key == tag.key
    {
      if HasKey(tags, key) {
        var i :| 0 <= i < |tags| && tags[i].key == key;
        assert more[i].key == key;
      }
    }
  }

  lemma {:induction false} NoKeyNoVariants(tags: seq<Tag>, key: string)
    ensures HasKey(tags, key) <==> VariantsFor(tags, key) != []
  {
    if tags != [] {
      var n := |tags| - 1;
      NoKeyNoVariants(tags[..n], key);
      if HasKey(tags[..n], key) {
        var i :| 0 <= i < n && tags[..n][i].key == key;
        assert tags[i].key == key;
      }
      if HasKey(tags, key) && tags[n].key != key {
        var i :| 0 <= i < |tags| && tags[i].key == key;
        assert tags[..n][i].key == key;
      }
    }
  }

  lemma OneMoreCopy(copies: seq<Copy>, i: nat, fallback: seq<Definition>, c: Casing)
    requires i < |copies|
    ensures AllTags(copies[..i + 1], fallback, c)
            == AllTags(copies[..i], fallback, c) + TagsOf(copies[i], Effective(copies[i], fallback), c)
  {
    assert copies[..i + 1][..i] == copies[..i];
  }

  /** Every count of occurrences so far. */
  ghost predicate Counts(seen: map<string, nat>, definitions: seq<Definition>, c: Casing) {
    forall base :: (if base in seen then seen[base] else 0) == |Occurrences(definitions, base, c)|
  }

  lemma OneMoreDefinition(copy: Copy, definitions: seq<Definition>, j: nat, seen: map<string, nat>, c: Casing)
    requires j < |definitions| && Counts(seen, definitions[..j], c)
    ensures var d := definitions[j];
            if Paired(d, c) then
              var base := PairingKey(d, c).value;
              var n := if base in seen then seen[base] else 0;
              && TagsOf(copy, definitions[..j + 1], c)
                 == TagsOf(copy, definitions[..j], c) + [Tag(GroupKey(base, n), VariantOf(copy, d, c))]
              && Counts(seen[base := n + 1], definitions[..j + 1], c)
            else
              && TagsOf(copy, definitions[..j + 1], c) == TagsOf(copy, definitions[..j], c)
              && Counts(seen, definitions[..j + 1], c)
  {
    hide GroupKey, VariantOf;
    assert definitions[..j + 1][..j] == definitions[..j];
  }

  lemma NothingYet(copy: Copy, c: Casing)
    ensures Counts(map[], [], c) && TagsOf(copy, [], c) == []
  {
  }

  method CombineCopies(canonicalId: string, copies: seq<Copy>, c: Casing) returns (result: seq<Group>)
    ensures result == Combine(canonicalId, copies, c)
  {
    hide Holds, TagsOf, AllTags, Counts, GroupKey, VariantOf, PairingKey;
    var fallback := FindFallback(copies);
    var order: seq<string> := [];
    var groups: map<string, seq<Variant>> := map[];
    ghost var tags: seq<Tag> := [];
    NothingHeld(copies, fallback, c);
    for i := 0 to |copies|
      invariant tags == AllTags(copies[..i], fallback, c)
      invariant Holds(order, groups, tags)
    {
      var copy := copies[i];
      var definitions := if copy.definitions == [] then fallback else copy.definitions;
      var seen: map<string, nat> := map[];
      ghost var before := tags;
      NothingYet(copy, c);
      for j := 0 to |definitions|
        invariant tags == before + TagsOf(copy, definitions[..j], c)
        invariant Counts(seen, definitions[..j], c)
        invariant Holds(order, groups, tags)
      {
        var d := definitions[j];
        OneMoreDefinition(copy, definitions, j, seen, c);
        if d.name.Some? && PairingKey(d, c).Some? {
          var base := PairingKey(d, c).value;
          var occurrence := if base in seen then seen[base] else 0;
          seen := seen[base := occurrence + 1];
          var key := GroupKey(base, occurrence);
          var variant := VariantOf(copy, d, c);
          PushHolds(order, groups, tags, Tag(key, variant));
          if key !in groups {
            order := order + [key];
          }
          groups := groups[key := (if key in groups then groups[key] else []) + [variant]];
          tags := tags + [Tag(key, variant)];
        }
      }
      assert definitions[..|definitions|] == definitions;
      OneMoreCopy(copies, i, fallback, c);
    }
    assert copies[..|copies|] == copies;
    result := [];
    var i := 0;
    while i < |order|
      invariant order == Order(tags) && 0 <= i <= |order| == |Grouped(canonicalId, tags)|
      invariant result == Grouped(canonicalId, tags)[..i]
    {
      ListedGroup(order, groups, tags, i);
      result := result + [Group(canonicalId + ":" + order[i], groups[order[i]])];
      i := i + 1;
    }
  }

  lemma NothingHeld(copies: seq<Copy>, fallback: seq<Definition>, c: Casing)
    ensures Holds([], map[], []) && AllTags(copies[..0], fallback, c) == []
    ensures forall order, groups, tags | Holds(order, groups, tags) :: order == Order(tags)
  {
  }

  lemma ListedGroup(order: seq<string>, groups: map<string, seq<Variant>>, tags: seq<Tag>, i: nat)
    requires Holds(order, groups, tags) && i < |order|
    ensures order[i] in groups && groups[order[i]] == VariantsFor(tags, order[i])
  {
    KeyListed(tags, i);
  }

  method FindFallback(copies: seq<Copy>) returns (fallback: seq<Definition>)
    ensures fallback == Fallback(copies)
  {
    var i := 0;
    while i < |copies|
      invariant 0 <= i <= |copies|
      invariant Fallback(copies) == Fallback(copies[i..])
    {
      if copies[i].definitions != [] {
        return copies[i].definitions;
      }
      i := i + 1;
    }
    return [];
  }

  lemma {:induction false} KeyListed(tags: seq<Tag>, i: nat)
    requires i < |Order(tags)|
    ensures HasKey(tags, Order(tags)[i])
  {
    var n := |tags| - 1;
    if i < |Order(tags[..n])| {
      KeyListed(tags[..n], i);
      var k :| 0 <= k < n && tags[..n][k].key == Order(tags)[i];
      assert tags[k].key == Order(tags)[i];
    } else {
      assert tags[n].key == Order(tags)[i];
    }
  }
}
