/** The fragment of Python's `re` the email rules use: a sequence of character classes, each
    repeated at least a given number of times. */
module Pattern {
  import opened Text

  datatype Class =
    | LocalChar    // [a-zA-Z0-9._%+\-]
    | DomainChar   // [a-zA-Z0-9.\-]
    | Letter       // [a-zA-Z]
    | Literal(c: char)

  predicate IsLetter(c: char) {
    'a' <= c <= 'z' || 'A' <= c <= 'Z'
  }

  predicate IsAlphanumeric(c: char) {
    IsLetter(c) || '0' <= c <= '9'
  }

  predicate InClass(cls: Class, c: char) {
    match cls
    case LocalChar => IsAlphanumeric(c) || c in "._%+-"
    case DomainChar => IsAlphanumeric(c) || c in ".-"
    case Letter => IsLetter(c)
    case Literal(x) => c == x
  }

  predicate AllIn(cls: Class, s: string) {
    forall i | 0 <= i < |s| :: InClass(cls, s[i])
  }

  /** One class repeated: exactly once, or `min` or more times. */
  datatype Item = Once(cls: Class) | Repeat(cls: Class, min: nat)

  predicate Accepts(item: Item, s: string) {
    AllIn(item.cls, s) && (if item.Once? then |s| == 1 else |s| >= item.min)
  }

  /** `re.fullmatch(items, s)`: some split of the whole string gives each item its share. */
  predicate FullMatch(items: seq<Item>, s: string) {
    if items == [] then s == ""
    else exists k | 0 <= k <= |s| :: Accepts(items[0], s[..k]) && FullMatch(items[1..], s[k..])
  }

  /** Where an unanchored-by-`\Z` dollar may stop: at the end, or before one final newline. */
  predicate AtDollar(s: string, k: nat) {
    k == |s| || (k + 1 == |s| && s[k] == '\n')
  }

  /** `re.match("^" items "$", s)` */
  predicate MatchDollar(items: seq<Item>, s: string) {
    exists k | 0 <= k <= |s| :: AtDollar(s, k) && FullMatch(items, s[..k])
  }

  /** For every pattern and every string: the dollar adds exactly the strings that match once a
      single final newline is dropped. */
  lemma MatchDollarExact(items: seq<Item>, s: string)
    ensures MatchDollar(items, s) <==>
            || FullMatch(items, s)
            || (s != "" && s[|s| - 1] == '\n' && FullMatch(items, s[..|s| - 1]))
  {
    assert s[..|s|] == s;
    if MatchDollar(items, s) {
      var k :| 0 <= k <= |s| && AtDollar(s, k) && FullMatch(items, s[..k]);
      assert k == |s| || k == |s| - 1;
    }
    if FullMatch(items, s) {
      assert AtDollar(s, |s|) && FullMatch(items, s[..|s|]);
    }
    if s != "" && s[|s| - 1] == '\n' && FullMatch(items, s[..|s| - 1]) {
      assert AtDollar(s, |s| - 1) && FullMatch(items, s[..|s| - 1]);
    }
  }

  /** After `strip` no final newline is left, so the two ways of matching agree. */
  lemma StrippedMatchesAgree(items: seq<Item>, raw: string)
    ensures MatchDollar(items, Strip(raw)) <==> FullMatch(items, Strip(raw))
  {
    var front, back := StripSplit(raw);
    assert IsSpace('\n');
    MatchDollarExact(items, Strip(raw));
  }
}
