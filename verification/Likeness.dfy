/** SQL's LIKE with a backslash as its escape, and the pattern src/admin/maintenance.rs builds with it: any text
    that ends with a value. */
module Likeness {
  /** LIKE takes ASCII letters of either case for the same. */
  function Fold(c: char): char {
    if 'A' <= c <= 'Z' then c + 32 as char else c
  }

  lemma FoldExactly(a: char, b: char)
    ensures Fold(a) == Fold(b)
            <==> || a == b
                 || ('A' <= a <= 'Z' && b as int == a as int + 32)
                 || ('A' <= b <= 'Z' && a as int == b as int + 32)
  {
  }

  predicate Like(pattern: string, text: string)
    decreases |pattern| + |text|
  {
    if pattern == "" then text == ""
    else if pattern[0] == '\\' then
      |pattern| > 1 && text != "" && Fold(text[0]) == Fold(pattern[1]) && Like(pattern[2..], text[1..])
    else if pattern[0] == '%' then Like(pattern[1..], text) || (text != "" && Like(pattern, text[1..]))
    else if pattern[0] == '_' then text != "" && Like(pattern[1..], text[1..])
    else text != "" && Fold(text[0]) == Fold(pattern[0]) && Like(pattern[1..], text[1..])
  }

  function Replaced(value: string, c: char, with: string): string {
    if value == "" then "" else (if value[0] == c then with else [value[0]]) + Replaced(value[1..], c, with)
  }

  function EscapeLike(value: string): string {
    Replaced(Replaced(Replaced(value, '\\', "\\\\"), '%', "\\%"), '_', "\\_")
  }

  /** Equal but for the case of ASCII letters. */
  predicate SameFolded(a: string, b: string) {
    |a| == |b| && forall i | 0 <= i < |a| :: Fold(a[i]) == Fold(b[i])
  }

  predicate EndsWithFolded(text: string, value: string) {
    |value| <= |text| && SameFolded(value, text[|text| - |value|..])
  }

  predicate Special(c: char) {
    c == '\\' || c == '%' || c == '_'
  }

  lemma {:induction false} ReplacedJoin(a: string, b: string, c: char, with: string)
    ensures Replaced(a + b, c, with) == Replaced(a, c, with) + Replaced(b, c, with)
  {
    if a == "" {
      assert a + b == b;
    } else {
      assert (a + b)[1..] == a[1..] + b;
      ReplacedJoin(a[1..], b, c, with);
    }
  }

  lemma OneReplaced(x: char, c: char, with: string)
    ensures Replaced([x], c, with) == if x == c then with else [x]
  {
  }

  lemma TwoReplaced(x: char, y: char, c: char, with: string)
    ensures Replaced([x, y], c, with) == (if x == c then with else [x]) + (if y == c then with else [y])
  {
    assert [x, y] == [x] + [y];
    ReplacedJoin([x], [y], c, with);
    OneReplaced(x, c, with);
    OneReplaced(y, c, with);
  }

  /** The three replacements come to a backslash before each special character. */
  lemma EscapeOne(c: char, rest: string)
    ensures EscapeLike([c] + rest) == (if Special(c) then ['\\', c] else [c]) + EscapeLike(rest)
  {
    hide Replaced;
    assert "\\\\" == ['\\', '\\'] && "\\%" == ['\\', '%'] && "\\_" == ['\\', '_'];
    var one := if c == '\\' then "\\\\" else [c];
    var two := if c == '%' then "\\%" else one;
    ReplacedJoin([c], rest, '\\', "\\\\");
    OneReplaced(c, '\\', "\\\\");
    ReplacedJoin(one, Replaced(rest, '\\', "\\\\"), '%', "\\%");
    OneReplaced(c, '%', "\\%");
    TwoReplaced('\\', '\\', '%', "\\%");
    ReplacedJoin(two, Replaced(Replaced(rest, '\\', "\\\\"), '%', "\\%"), '_', "\\_");
    OneReplaced(c, '_', "\\_");
    TwoReplaced('\\', '\\', '_', "\\_");
    TwoReplaced('\\', '%', '_', "\\_");
    assert Replaced(one, '%', "\\%") == two;
    assert Replaced(two, '_', "\\_") == if Special(c) then ['\\', c] else [c];
  }

  /** An escaped value matches itself, in any case, and nothing else. */
  lemma {:induction false} EscapedMatches(value: string, text: string)
    ensures Like(EscapeLike(value), text) <==> SameFolded(value, text)
  {
    if value == "" {
    } else {
      var rest := value[1..];
      assert value == [value[0]] + rest;
      EscapeOne(value[0], rest);
      var pattern := EscapeLike(value);
      var n := if Special(value[0]) then 2 else 1;
      assert pattern[n..] == EscapeLike(rest);
      hide EscapeLike;
      if text != "" {
        EscapedMatches(rest, text[1..]);
        assert SameFolded(value, text) <==> Fold(value[0]) == Fold(text[0]) && SameFolded(rest, text[1..]);
      }
    }
  }

  /** The pattern of the reference check matches exactly the texts that end with the value. */
  lemma {:induction false} SuffixMatches(value: string, text: string)
    ensures Like("%" + EscapeLike(value), text) <==> EndsWithFolded(text, value)
  {
    var pattern := "%" + EscapeLike(value);
    assert pattern[1..] == EscapeLike(value);
    EscapedMatches(value, text);
    hide EscapeLike;
    if |value| == |text| {
      assert text[0..] == text;
    }
    if text != "" {
      SuffixMatches(value, text[1..]);
      if |value| < |text| {
        assert text[1..][|text| - 1 - |value|..] == text[|text| - |value|..];
      }
    }
  }
}
