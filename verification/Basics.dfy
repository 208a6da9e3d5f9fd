/** Small vocabulary shared by the other modules: optional values and facts about finite sets. */
module Basics {

  datatype Option<+T> = None | Some(value: T) {
    function GetOr(default: T): T {
      if Some? then value else default
    }
  }

  function Max(a: int, b: int): int {
    if a < b then b else a
  }

  function Min(a: int, b: int): int {
    if a < b then a else b
  }

  /** `math.ceil` on a real. */
  function Ceil(x: real): int {
    -((-x).Floor)
  }

  /** `int(x)` on a float: rounds toward zero. */
  function Truncate(x: real): int {
    if x >= 0.0 then x.Floor else Ceil(x)
  }

  /** A subset has no more elements than its superset. */
  lemma SubsetSize<T>(a: set<T>, b: set<T>)
    requires a <= b
    ensures |a| <= |b|
  {
    assert b == a + (b - a);
  }

  /** A set covered by two others is no larger than both together. */
  lemma CoverSize<T>(a: set<T>, b: set<T>, c: set<T>)
    requires a <= b + c
    ensures |a| <= |b| + |c|
  {
    SubsetSize(a, b + c);
    assert |b + c| == |b| + |c| - |b * c|;
  }

  ghost predicate Distinct<T>(xs: seq<T>) {
    forall i, j :: 0 <= i < j < |xs| ==> xs[i] != xs[j]
  }

  ghost function Elements<T>(xs: seq<T>): set<T> {
    set x | x in xs
  }

  lemma {:induction false} DistinctSize<T>(xs: seq<T>)
    requires Distinct(xs)
    ensures |Elements(xs)| == |xs|
  {
    if xs != [] {
      var rest := xs[1..];
      DistinctSize(rest);
      assert Elements(xs) == Elements(rest) + {xs[0]};
      assert xs[0] !in Elements(rest);
    } else {
      assert Elements(xs) == {};
    }
  }

  /** Distinct elements drawn from a finite set are no more than the set holds. */
  lemma DistinctWithin<T>(xs: seq<T>, s: set<T>)
    requires Distinct(xs) && forall i :: 0 <= i < |xs| ==> xs[i] in s
    ensures |xs| <= |s|
  {
    DistinctSize(xs);
    SubsetSize(Elements(xs), s);
  }

  // ----- searching in strings and bytes ------------------------------------

  predicate StartsWith<T(==)>(s: seq<T>, part: seq<T>) {
    |part| <= |s| && s[..|part|] == part
  }

  predicate EndsWith<T(==)>(s: seq<T>, part: seq<T>) {
    |part| <= |s| && s[|s| - |part|..] == part
  }

  predicate At<T(==)>(s: seq<T>, part: seq<T>, i: int) {
    0 <= i && i + |part| <= |s| && s[i..i + |part|] == part
  }

  /** `find`: -1 when absent. */
  function FirstIndex<T(==)>(s: seq<T>, part: seq<T>): int {
    if |s| < |part| then -1
    else if s[..|part|] == part then 0
    else
      var i := FirstIndex(s[1..], part);
      if i < 0 then -1 else i + 1
  }

  lemma {:induction false} FirstIndexMeaning<T>(s: seq<T>, part: seq<T>)
    ensures var i := FirstIndex(s, part);
      if i < 0 then forall k :: !At(s, part, k) else At(s, part, i) && forall k :: k < i ==> !At(s, part, k)
  {
    if |s| >= |part| && s[..|part|] != part {
      FirstIndexMeaning(s[1..], part);
      forall k | k != 0 ensures At(s, part, k) <==> At(s[1..], part, k - 1) {
        if 0 < k && k + |part| <= |s| {
          assert s[1..][k - 1..k - 1 + |part|] == s[k..k + |part|];
        }
      }
      assert !At(s, part, 0);
    }
  }

  /** `part in s`. */
  predicate Contains<T(==)>(s: seq<T>, part: seq<T>) {
    FirstIndex(s, part) >= 0
  }

  // ----- text ------------------------------------------------------------

  function Digit(d: nat): char
    requires d < 10
  {
    ('0' as int + d) as char
  }

  function Decimal(n: nat): string {
    if n < 10 then [Digit(n)] else Decimal(n / 10) + [Digit(n % 10)]
  }

  function DecimalValue(s: string): int {
    if s == "" then 0 else 10 * DecimalValue(s[..|s| - 1]) + (s[|s| - 1] as int - '0' as int)
  }

  lemma {:induction false} DecimalFacts(n: nat)
    ensures Decimal(n) != "" && DecimalValue(Decimal(n)) == n
    ensures forall i :: 0 <= i < |Decimal(n)| ==> '0' <= Decimal(n)[i] <= '9'
  {
    if n < 10 {
      assert Decimal(n)[..0] == "";
    } else {
      DecimalFacts(n / 10);
      assert Decimal(n)[..|Decimal(n)| - 1] == Decimal(n / 10);
    }
  }

  /** `str` of an integer. */
  function IntText(n: int): string {
    if n < 0 then "-" + Decimal(-n) else Decimal(n)
  }

  /** `str.lower` on ASCII text. */
  function Lower(s: string): string {
    seq(|s|, i requires 0 <= i < |s| => LowerChar(s[i]))
  }

  function LowerChar(c: char): char {
    if 'A' <= c <= 'Z' then (c as int + 32) as char else c
  }

  /** The text has this lower-case word at `i`, each letter in either case. */
  predicate SaysAt(text: string, word: string, i: int) {
    && 0 <= i && i + |word| <= |text|
    && forall k :: 0 <= k < |word| ==> text[i + k] == word[k] || text[i + k] as int + 32 == word[k] as int
  }

  predicate Letters(word: string) {
    forall k :: 0 <= k < |word| ==> 'a' <= word[k] <= 'z'
  }

  /** Looking for a word in the lowered text finds it in whatever case it is written. */
  lemma ContainsInAnyCase(text: string, word: string)
    requires Letters(word)
    ensures Contains(Lower(text), word) <==> exists i :: SaysAt(text, word, i)
  {
    FirstIndexMeaning(Lower(text), word);
    forall i ensures At(Lower(text), word, i) <==> SaysAt(text, word, i) {
      LoweredAt(text, word, i);
    }
  }

  lemma LoweredAt(text: string, word: string, i: int)
    requires Letters(word)
    ensures At(Lower(text), word, i) <==> SaysAt(text, word, i)
  {
    if 0 <= i && i + |word| <= |text| {
      var part := Lower(text)[i..i + |word|];
      assert forall k :: 0 <= k < |word| ==> part[k] == LowerChar(text[i + k]);
      if SaysAt(text, word, i) {
        assert forall k :: 0 <= k < |word| ==> part[k] == word[k];
        assert part == word;
      }
      if part == word {
        forall k | 0 <= k < |word| ensures text[i + k] == word[k] || text[i + k] as int + 32 == word[k] as int {
          assert part[k] == word[k];
        }
      }
    }
  }

  /** The characters `str.strip` removes. */
  predicate IsSpace(c: char) {
    var n := c as int;
    9 <= n <= 13 || 28 <= n <= 32 || 0x2000 <= n <= 0x200A
    || n in {0x85, 0xA0, 0x1680, 0x2028, 0x2029, 0x202F, 0x205F, 0x3000}
  }
}
