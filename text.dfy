/** The string behaviour of Python that the pipeline depends on: how an
    f-string renders a number or a missing value, how `str` values compare,
    and how `Series.str.contains(pattern, case=False)` searches for the
    regular expression built from the exclusion keywords. */
module Text {
  import opened Frames

  // ---------------------------------------------------------------------
  // f-string rendering
  // ---------------------------------------------------------------------

  /** `f"{x}"` of a value read with `dict.get`: a missing value prints "None". */
  function PyStr(o: Option<string>): string {
    if o.Some? then o.value else "None"
  }

  function Digit(d: nat): (c: char)
    requires d < 10
    ensures '0' <= c <= '9'
  {
    ('0' as int + d) as char
  }

  /** `f"{n}"` of a non-negative int: its base-10 digits, no leading zero. */
  function Decimal(n: nat): string {
    if n < 10 then [Digit(n)] else Decimal(n / 10) + [Digit(n % 10)]
  }

  /** The numeral is a non-empty string of digits, with two or more digits
      from 10 on. */
  lemma {:induction false} DecimalDigits(n: nat)
    ensures |Decimal(n)| >= 1
    ensures n >= 10 ==> |Decimal(n)| >= 2
    ensures forall i :: 0 <= i < |Decimal(n)| ==> '0' <= Decimal(n)[i] <= '9'
  {
    if n >= 10 {
      DecimalDigits(n / 10);
    }
  }

  /** Distinct numbers print differently. */
  lemma {:induction false} DecimalInjective(a: nat, b: nat)
    requires Decimal(a) == Decimal(b)
    ensures a == b
  {
    DecimalDigits(a);
    DecimalDigits(b);
    if a >= 10 && b >= 10 {
      var da, db := Decimal(a), Decimal(b);
      assert Digit(a % 10) == da[|da| - 1] == db[|db| - 1] == Digit(b % 10);
      assert da[..|da| - 1] == Decimal(a / 10);
      assert db[..|db| - 1] == Decimal(b / 10);
      DecimalInjective(a / 10, b / 10);
    }
  }

  // ---------------------------------------------------------------------
  // Python str ordering
  // ---------------------------------------------------------------------

  /** Python's `a <= b` on str: code point by code point, a proper prefix
      sorting first. */
  predicate StrLe(a: string, b: string) {
    if a == [] then true
    else if b == [] then false
    else if a[0] != b[0] then a[0] < b[0]
    else StrLe(a[1..], b[1..])
  }

  lemma {:induction false} StrLeTotal(a: string, b: string)
    ensures StrLe(a, b) || StrLe(b, a)
  {
    if a != [] && b != [] && a[0] == b[0] {
      StrLeTotal(a[1..], b[1..]);
    }
  }

  lemma {:induction false} StrLeAntisymmetric(a: string, b: string)
    requires StrLe(a, b) && StrLe(b, a)
    ensures a == b
  {
    if a != [] && b != [] {
      StrLeAntisymmetric(a[1..], b[1..]);
      assert a == [a[0]] + a[1..] && b == [b[0]] + b[1..];
    }
  }

  lemma {:induction false} StrLeTransitive(a: string, b: string, c: string)
    requires StrLe(a, b) && StrLe(b, c)
    ensures StrLe(a, c)
  {
    if a != [] && b != [] && c != [] && a[0] == b[0] == c[0] {
      StrLeTransitive(a[1..], b[1..], c[1..]);
    }
  }

  /** Two strings that agree up to position `k` compare alike with any
      string that departs from them at or before `k`. */
  lemma {:induction false} StrLeSharedPrefix(x: string, a: string, b: string, k: nat)
    requires k < |a| && k < |b| && forall i :: 0 <= i <= k ==> a[i] == b[i]
    requires |x| <= k || x[k] != a[k]
    ensures StrLe(x, a) <==> StrLe(x, b)
    ensures StrLe(a, x) <==> StrLe(b, x)
  {
    if x != [] && x[0] == a[0] {
      assert forall i :: 0 <= i <= k - 1 ==> a[1..][i] == a[i + 1] && b[1..][i] == b[i + 1];
      StrLeSharedPrefix(x[1..], a[1..], b[1..], k - 1);
    }
  }

  // ---------------------------------------------------------------------
  // Case-insensitive regular-expression search
  // ---------------------------------------------------------------------

  /** One position of a compiled keyword: a literal character, or `.`. */
  datatype PatternChar = Literal(c: char) | AnyButNewline

  /** A keyword used as a regular expression: every `.` is the wildcard,
      every other character of the keywords stands for itself. */
  function CompileKeyword(k: string): (p: seq<PatternChar>)
    ensures |p| == |k|
    ensures forall i :: 0 <= i < |k| ==> p[i] == if k[i] == '.' then AnyButNewline else Literal(k[i])
  {
    if k == [] then []
    else CompileKeyword(k[..|k| - 1]) + [if k[|k| - 1] == '.' then AnyButNewline else Literal(k[|k| - 1])]
  }

  /** The character Python's `re.IGNORECASE` compares with: the simple
      lower-case mapping onto ASCII letters, with the dotless i, the long s
      and the Kelvin sign treated as i, s and k. */
  function Fold(c: char): char {
    if 'A' <= c <= 'Z' then (c as int + 32) as char
    else if c == '\U{0130}' || c == '\U{0131}' then 'i'
    else if c == '\U{017F}' then 's'
    else if c == '\U{212A}' then 'k'
    else c
  }

  predicate CharMatches(c: char, p: PatternChar) {
    match p
    case Literal(q) => Fold(c) == Fold(q)
    case AnyButNewline => c != '\n'
  }

  /** The pattern matches `s` starting at index `i`. */
  predicate MatchesAt(s: string, i: nat, pat: seq<PatternChar>) {
    i + |pat| <= |s| && forall j :: 0 <= j < |pat| ==> CharMatches(s[i + j], pat[j])
  }

  /** `re.search`: scans the start positions from `from` onwards. */
  function SearchFrom(s: string, pat: seq<PatternChar>, from: nat): (found: bool)
    decreases |s| - from
    ensures found <==> exists i :: from <= i && MatchesAt(s, i, pat)
  {
    if from + |pat| > |s| then
      assert forall i :: from <= i ==> !MatchesAt(s, i, pat);
      false
    else if MatchesAt(s, from, pat) then true
    else SearchFrom(s, pat, from + 1)
  }

  /** Some substring of `s` matches the pattern. */
  function Search(s: string, pat: seq<PatternChar>): (found: bool)
    ensures found <==> exists i :: MatchesAt(s, i, pat)
  {
    SearchFrom(s, pat, 0)
  }

  /** The character class of code points U+3040 to U+30FF (hiragana and
      katakana) and U+4E00 to U+9FFF (the CJK unified ideographs). */
  predicate IsCjk(c: char) {
    '\U{3040}' <= c <= '\U{30FF}' || '\U{4E00}' <= c <= '\U{9FFF}'
  }

  function ContainsCjk(s: string): (found: bool)
    ensures found <==> exists i :: 0 <= i < |s| && IsCjk(s[i])
  {
    if s == [] then false
    else if IsCjk(s[|s| - 1]) then true
    else
      var init := s[..|s| - 1];
      assert forall i :: 0 <= i < |init| ==> init[i] == s[i];
      ContainsCjk(init)
  }
}
