/** What the combined view shows, read without its keys and maps: each group is the n-th definition of one name
    in every copy that has one. */
module CombinedView {
  import opened Combined

  // ---------------------------------------------------------------------------
  // Keys
  // ---------------------------------------------------------------------------

  function Parse(digits: string): nat
    requires forall i | 0 <= i < |digits| :: '0' <= digits[i] <= '9'
  {
    if digits == [] then 0
    else 10 * Parse(digits[..|digits| - 1]) + (digits[|digits| - 1] - '0') as nat
  }

  lemma {:induction false} DigitsParse(n: nat)
    ensures forall i | 0 <= i < |Digits(n)| :: '0' <= Digits(n)[i] <= '9'
    ensures Parse(Digits(n)) == n
  {
    if n < 10 {
      assert Digits(n)[..0] == [];
    } else {
      DigitsParse(n / 10);
      assert Digits(n)[..|Digits(n)| - 1] == Digits(n / 10);
    }
  }

  /** The last `#` is where a key splits. */
  lemma SplitIsUnique(base: string, d: string, other: string, e: string)
    requires '#' !in d && '#' !in e
    requires base + "#" + d == other + "#" + e
    ensures base == other && d == e
  {
    var key := base + "#" + d;
    assert key[|base|] == '#' && key[|other|] == '#';
    assert forall i | |base| < i < |key| :: key[i] == d[i - |base| - 1];
    assert forall i | |other| < i < |key| :: key[i] == e[i - |other| - 1];
    assert |base| == |other|;
    assert base == key[..|base|] && other == key[..|other|];
    assert d == key[|base| + 1..] && e == key[|other| + 1..];
  }

  /** The written key tells base and count apart, even where the base itself holds a `#`. */
  lemma KeysAreInjective(base: string, n: nat, other: string, m: nat)
    requires GroupKey(base, n) == GroupKey(other, m)
    ensures base == other && n == m
  {
    DigitsParse(n);
    DigitsParse(m);
    hide Digits, Parse;
    SplitIsUnique(base, Digits(n), other, Digits(m));
  }

  // ---------------------------------------------------------------------------
  // Contents
  // ---------------------------------------------------------------------------

  /** The n-th definition of a name from each copy that has one, in copy order. */
  function NthOfEach(copies: seq<Copy>, fallback: seq<Definition>, base: string, n: nat, c: Casing): seq<Variant> {
    if copies == [] then []
    else
      var last := copies[|copies| - 1];
      var named := Occurrences(Effective(last, fallback), base, c);
      OccurrencesAreNamed(Effective(last, fallback), base, c);
      NthOfEach(copies[..|copies| - 1], fallback, base, n, c) + AtMostOne(last, named, n, c)
  }

  lemma {:induction false} VariantsConcat(s: seq<Tag>, t: seq<Tag>, key: string)
    ensures VariantsFor(s + t, key) == VariantsFor(s, key) + VariantsFor(t, key)
  {
    if t == [] {
      assert s + t == s;
    } else {
      assert (s + t)[..|s + t| - 1] == s + t[..|t| - 1];
      VariantsConcat(s, t[..|t| - 1], key);
    }
  }

  function AtMostOne(copy: Copy, named: seq<Definition>, n: nat, c: Casing): seq<Variant>
    requires forall d | d in named :: d.name.Some?
  {
    if n < |named| then [VariantOf(copy, named[n], c)] else []
  }

  lemma AppendTag(tags: seq<Tag>, tag: Tag, key: string)
    ensures VariantsFor(tags + [tag], key) == VariantsFor(tags, key) + if tag.key == key then [tag.variant] else []
  {
  }

  /** The definition counted as the k-th of its name is the k-th of its name. */
  lemma AppendNth(copy: Copy, named: seq<Definition>, last: Definition, n: nat, c: Casing)
    requires forall d | d in named :: d.name.Some?
    requires last.name.Some?
    ensures AtMostOne(copy, named + [last], n, c)
            == AtMostOne(copy, named, n, c) + if n == |named| then [VariantOf(copy, last, c)] else []
  {
  }

  /** One copy gives a group at most one variant: its n-th definition of that name. */
  lemma {:induction false} CopyGivesNth(copy: Copy, definitions: seq<Definition>, base: string, n: nat, c: Casing)
    ensures forall d | d in Occurrences(definitions, base, c) :: d.name.Some?
    ensures VariantsFor(TagsOf(copy, definitions, c), GroupKey(base, n))
            == AtMostOne(copy, Occurrences(definitions, base, c), n, c)
  {
    hide GroupKey, VariantOf, VariantsFor, PairingKey, AtMostOne;
    if definitions == [] {
      NothingForNothing(copy, base, n, c);
    } else {
      var k := |definitions| - 1;
      var init, last := definitions[..k], definitions[k];
      CopyGivesNth(copy, init, base, n, c);
      if Paired(last, c) {
        var own := PairingKey(last, c).value;
        var count := |Occurrences(init, own, c)|;
        AppendTag(TagsOf(copy, init, c), Tag(GroupKey(own, count), VariantOf(copy, last, c)), GroupKey(base, n));
        if own == base {
          AppendNth(copy, Occurrences(init, base, c), last, n, c);
        } else {
          assert Occurrences(definitions, base, c) == Occurrences(init, base, c);
        }
        if GroupKey(own, count) == GroupKey(base, n) {
          KeysAreInjective(own, count, base, n);
        }
      } else {
        assert TagsOf(copy, definitions, c) == TagsOf(copy, init, c);
        assert Occurrences(definitions, base, c) == Occurrences(init, base, c);
      }
    }
  }

  lemma NothingForNothing(copy: Copy, base: string, n: nat, c: Casing)
    ensures VariantsFor([], GroupKey(base, n)) == AtMostOne(copy, [], n, c) == []
  {
  }

  /** Group (key, n) holds exactly the n-th definition with that pairing key from each copy that has one, its own
      or borrowed, in copy order. */
  lemma {:induction false} GroupHoldsNth(copies: seq<Copy>, fallback: seq<Definition>, base: string, n: nat, c: Casing)
    ensures VariantsFor(AllTags(copies, fallback, c), GroupKey(base, n)) == NthOfEach(copies, fallback, base, n, c)
  {
    if copies != [] {
      var k := |copies| - 1;
      GroupHoldsNth(copies[..k], fallback, base, n, c);
      var own := TagsOf(copies[k], Effective(copies[k], fallback), c);
      VariantsConcat(AllTags(copies[..k], fallback, c), own, GroupKey(base, n));
      CopyGivesNth(copies[k], Effective(copies[k], fallback), base, n, c);
    }
  }

  /** Every group is one of these: its key is some base and count. */
  lemma {:induction false} TagKeysAreGroupKeys(copy: Copy, definitions: seq<Definition>, c: Casing, i: nat)
    returns (base: string, n: nat)
    requires i < |TagsOf(copy, definitions, c)|
    ensures TagsOf(copy, definitions, c)[i].key == GroupKey(base, n)
  {
    var k := |definitions| - 1;
    var init, last := definitions[..k], definitions[k];
    if i < |TagsOf(copy, init, c)| {
      base, n := TagKeysAreGroupKeys(copy, init, c, i);
    } else {
      base := PairingKey(last, c).value;
      n := |Occurrences(init, base, c)|;
    }
  }

  lemma {:induction false} AllKeysAreGroupKeys(copies: seq<Copy>, fallback: seq<Definition>, c: Casing, i: nat)
    returns (base: string, n: nat)
    requires i < |AllTags(copies, fallback, c)|
    ensures AllTags(copies, fallback, c)[i].key == GroupKey(base, n)
  {
    var k := |copies| - 1;
    var before := AllTags(copies[..k], fallback, c);
    if i < |before| {
      base, n := AllKeysAreGroupKeys(copies[..k], fallback, c, i);
    } else {
      base, n := TagKeysAreGroupKeys(copies[k], Effective(copies[k], fallback), c, i - |before|);
    }
  }

  /** The view is the specification: each group, in order, is the n-th definition of one name in each copy, and
      none is empty. */
  lemma ViewIsNthOfEach(canonicalId: string, copies: seq<Copy>, c: Casing, i: nat) returns (base: string, n: nat)
    requires i < |Combine(canonicalId, copies, c)|
    ensures var group := Combine(canonicalId, copies, c)[i];
            && group.id == canonicalId + ":" + GroupKey(base, n)
            && group.variants == NthOfEach(copies, Fallback(copies), base, n, c)
            && group.variants != []
  {
    var fallback := Fallback(copies);
    var tags := AllTags(copies, fallback, c);
    KeyListed(tags, i);
    NoKeyNoVariants(tags, Order(tags)[i]);
    var k :| 0 <= k < |tags| && tags[k].key == Order(tags)[i];
    base, n := AllKeysAreGroupKeys(copies, fallback, c, k);
    GroupHoldsNth(copies, fallback, base, n, c);
  }

  // ---------------------------------------------------------------------------
  // Order and conservation
  // ---------------------------------------------------------------------------

  /** Where a key first appears. */
  function FirstIndex(tags: seq<Tag>, key: string): (at: nat)
    ensures at <= |tags|
    ensures at < |tags| ==> tags[at].key == key
    ensures forall i | 0 <= i < at :: tags[i].key != key
  {
    if tags == [] || tags[0].key == key then 0
    else
      var rest := FirstIndex(tags[1..], key);
      assert forall i | 1 <= i < 1 + rest :: tags[i] == tags[1..][i - 1];
      1 + rest
  }

  lemma FirstIndexStays(tags: seq<Tag>, n: nat, key: string)
    requires n <= |tags| && FirstIndex(tags[..n], key) < n
    ensures FirstIndex(tags, key) == FirstIndex(tags[..n], key)
  {
  }

  lemma OneMoreKey(tags: seq<Tag>, key: string)
    requires tags != []
    ensures HasKey(tags, key) <==> HasKey(tags[..|tags| - 1], key) || key == tags[|tags| - 1].key
  {
  }

  lemma NewKeyIsLast(tags: seq<Tag>)
    requires tags != [] && !HasKey(tags[..|tags| - 1], tags[|tags| - 1].key)
    ensures FirstIndex(tags, tags[|tags| - 1].key) == |tags| - 1
  {
    var n := |tags| - 1;
    assert forall i | 0 <= i < n :: tags[..n][i].key == tags[i].key != tags[n].key;
  }

  /** Groups follow the first appearance of their keys: every key that appears is listed, once, in that order. */
  lemma {:induction false} OrderIsFirstAppearance(tags: seq<Tag>)
    ensures forall i, j | 0 <= i < j < |Order(tags)| ::
            FirstIndex(tags, Order(tags)[i]) < FirstIndex(tags, Order(tags)[j])
    ensures forall i | 0 <= i < |Order(tags)| :: FirstIndex(tags, Order(tags)[i]) < |tags|
    ensures forall key :: key in Order(tags) <==> HasKey(tags, key)
  {
    if tags != [] {
      var n := |tags| - 1;
      var init, last := tags[..n], tags[n];
      OrderIsFirstAppearance(init);
      forall i | 0 <= i < |Order(init)|
        ensures FirstIndex(tags, Order(init)[i]) == FirstIndex(init, Order(init)[i]) < n
      {
        FirstIndexStays(tags, n, Order(init)[i]);
      }
      forall key
        ensures HasKey(tags, key) <==> HasKey(init, key) || key == last.key
      {
        OneMoreKey(tags, key);
      }
      if HasKey(init, last.key) {
        assert Order(tags) == Order(init);
      } else {
        NewKeyIsLast(tags);
        assert Order(tags) == Order(init) + [last.key];
      }
      hide FirstIndex, HasKey, Order;
    }
  }

  function Variants(tags: seq<Tag>): seq<Variant> {
    if tags == [] then [] else Variants(tags[..|tags| - 1]) + [tags[|tags| - 1].variant]
  }

  /** The variants of the listed groups, one group after another. */
  function Gathered(order: seq<string>, tags: seq<Tag>): seq<Variant> {
    if order == [] then []
    else Gathered(order[..|order| - 1], tags) + VariantsFor(tags, order[|order| - 1])
  }

  /** A new tag shows up in the groups listed exactly once if its key is listed once, and not at all if it is not. */
  lemma {:induction false} GatheringOneMore(order: seq<string>, tags: seq<Tag>, tag: Tag)
    requires forall i, j | 0 <= i < j < |order| :: order[i] != order[j]
    ensures multiset(Gathered(order, tags + [tag]))
            == multiset(Gathered(order, tags)) + if tag.key in order then multiset{tag.variant} else multiset{}
  {
    if order != [] {
      var n := |order| - 1;
      GatheringOneMore(order[..n], tags, tag);
      assert (tags + [tag])[..|tags|] == tags;
      assert order == order[..n] + [order[n]];
    }
  }

  lemma {:induction false} DistinctOrder(tags: seq<Tag>)
    ensures forall i, j | 0 <= i < j < |Order(tags)| :: Order(tags)[i] != Order(tags)[j]
    ensures forall key :: key in Order(tags) <==> HasKey(tags, key)
  {
    if tags != [] {
      DistinctOrder(tags[..|tags| - 1]);
    }
  }

  /** A group whose key has only just appeared holds the new variant alone. */
  lemma NewGroup(init: seq<Tag>, last: Tag)
    requires !HasKey(init, last.key)
    ensures Gathered(Order(init) + [last.key], init + [last]) == Gathered(Order(init), init + [last]) + [last.variant]
  {
    NoKeyNoVariants(init, last.key);
    var order := Order(init) + [last.key];
    assert order[..|order| - 1] == Order(init);
    assert (init + [last])[..|init|] == init;
  }

  /** No variant is lost and none is shown twice: the groups hold exactly the variants of all copies. */
  lemma {:induction false} NothingLostOrDuplicated(tags: seq<Tag>)
    ensures multiset(Gathered(Order(tags), tags)) == multiset(Variants(tags))
  {
    if tags != [] {
      var n := |tags| - 1;
      var init, last := tags[..n], tags[n];
      assert tags == init + [last];
      NothingLostOrDuplicated(init);
      DistinctOrder(init);
      GatheringOneMore(Order(init), init, last);
      assert Order(tags) == Order(init) + if HasKey(init, last.key) then [] else [last.key];
      hide HasKey, Order, Gathered;
      if HasKey(init, last.key) {
        assert Order(tags) == Order(init);
      } else {
        NewGroup(init, last);
      }
    }
  }

  /** A copy's variants are its named definitions', one for one and in order. */
  lemma {:induction false} EveryDefinitionIsShown(copy: Copy, definitions: seq<Definition>, c: Casing)
    ensures Variants(TagsOf(copy, definitions, c)) == ShownBy(copy, definitions, c)
  {
    if definitions != [] {
      var k := |definitions| - 1;
      EveryDefinitionIsShown(copy, definitions[..k], c);
      var tags := TagsOf(copy, definitions, c);
      if Paired(definitions[k], c) {
        assert tags[..|tags| - 1] == TagsOf(copy, definitions[..k], c);
      } else {
        assert tags == TagsOf(copy, definitions[..k], c);
      }
    }
  }

  function ShownBy(copy: Copy, definitions: seq<Definition>, c: Casing): seq<Variant> {
    if definitions == [] then []
    else
      var last := definitions[|definitions| - 1];
      ShownBy(copy, definitions[..|definitions| - 1], c) + if last.name.Some? then [VariantOf(copy, last, c)] else []
  }

  function AllShown(copies: seq<Copy>, fallback: seq<Definition>, c: Casing): seq<Variant> {
    if copies == [] then []
    else
      var last := copies[|copies| - 1];
      AllShown(copies[..|copies| - 1], fallback, c) + ShownBy(last, Effective(last, fallback), c)
  }

  lemma {:induction false} VariantsJoin(s: seq<Tag>, t: seq<Tag>)
    ensures Variants(s + t) == Variants(s) + Variants(t)
  {
    if t == [] {
      assert s + t == s;
    } else {
      assert (s + t)[..|s + t| - 1] == s + t[..|t| - 1];
      VariantsJoin(s, t[..|t| - 1]);
    }
  }

  lemma {:induction false} AllTagsShowAll(copies: seq<Copy>, fallback: seq<Definition>, c: Casing)
    ensures Variants(AllTags(copies, fallback, c)) == AllShown(copies, fallback, c)
  {
    if copies != [] {
      var k := |copies| - 1;
      AllTagsShowAll(copies[..k], fallback, c);
      EveryDefinitionIsShown(copies[k], Effective(copies[k], fallback), c);
      VariantsJoin(AllTags(copies[..k], fallback, c), TagsOf(copies[k], Effective(copies[k], fallback), c));
      hide Variants, TagsOf, ShownBy;
    }
  }

  function Flatten(groups: seq<Group>): seq<Variant> {
    if groups == [] then [] else Flatten(groups[..|groups| - 1]) + groups[|groups| - 1].variants
  }

  lemma {:induction false} GroupsGather(canonicalId: string, tags: seq<Tag>, k: nat)
    requires k <= |Order(tags)|
    ensures Flatten(Grouped(canonicalId, tags)[..k]) == Gathered(Order(tags)[..k], tags)
  {
    hide Order, VariantsFor;
    if k > 0 {
      GroupsGather(canonicalId, tags, k - 1);
      assert Grouped(canonicalId, tags)[..k][..k - 1] == Grouped(canonicalId, tags)[..k - 1];
      assert Order(tags)[..k][..k - 1] == Order(tags)[..k - 1];
    }
  }

  /** The whole view: its groups hold exactly the named definitions of every copy, each once. */
  lemma ViewKeepsEveryDefinition(canonicalId: string, copies: seq<Copy>, c: Casing)
    ensures multiset(Flatten(Combine(canonicalId, copies, c))) == multiset(AllShown(copies, Fallback(copies), c))
  {
    var tags := AllTags(copies, Fallback(copies), c);
    AllTagsShowAll(copies, Fallback(copies), c);
    NothingLostOrDuplicated(tags);
    GroupsGather(canonicalId, tags, |Order(tags)|);
    assert Order(tags)[..|Order(tags)|] == Order(tags);
    assert Grouped(canonicalId, tags)[..|Order(tags)|] == Grouped(canonicalId, tags);
    hide Order, AllTags, AllShown, Flatten, Gathered, Grouped;
  }
}
