/** The string operations the modelled code takes from its standard libraries. */
module Text {
  import opened Outcomes

  // ---- searching ---------------------------------------------------------

  /** pat stands at position k of s. */
  predicate At(s: string, pat: string, k: nat) {
    k + |pat| <= |s| && s[k..k + |pat|] == pat
  }

  /** The first position from `from` on at which pat stands (indexOf, strings.Index). */
  function IndexFrom(s: string, pat: string, from: nat): (r: Option<nat>)
    ensures r.Some? ==> from <= r.value && At(s, pat, r.value)
    decreases |s| - from
  {
    if from + |pat| > |s| then None
    else if At(s, pat, from) then Some(from)
    else IndexFrom(s, pat, from + 1)
  }

  function Index(s: string, pat: string): (r: Option<nat>)
    ensures r.Some? ==> At(s, pat, r.value)
  {
    IndexFrom(s, pat, 0)
  }

  /** pat stands nowhere in s before position n. */
  ghost predicate NoneBefore(s: string, pat: string, n: nat) {
    forall j :: 0 <= j < n ==> !At(s, pat, j)
  }

  lemma {:induction false} IndexFromIsFirst(s: string, pat: string, from: nat, j: nat)
    requires from <= j && At(s, pat, j)
    ensures IndexFrom(s, pat, from).Some? && IndexFrom(s, pat, from).value <= j
    decreases |s| - from
  {
    if !At(s, pat, from) {
      IndexFromIsFirst(s, pat, from + 1, j);
    }
  }

  /** Index finds the first position, and finds one whenever there is one. */
  lemma IndexIsFirst(s: string, pat: string)
    ensures Index(s, pat).Some? ==> NoneBefore(s, pat, Index(s, pat).value)
    ensures Index(s, pat).None? ==> NoneBefore(s, pat, |s| + 1)
  {
    forall j: nat | At(s, pat, j)
      ensures Index(s, pat).Some? && Index(s, pat).value <= j
    {
      IndexFromIsFirst(s, pat, 0, j);
    }
  }

  /** A position with no earlier one is the one Index finds. */
  lemma IndexIs(s: string, pat: string, k: nat)
    requires At(s, pat, k) && NoneBefore(s, pat, k)
    ensures Index(s, pat) == Some(k)
  {
    IndexFromIsFirst(s, pat, 0, k);
  }

  // ---- splitting ---------------------------------------------------------

  /** s.split(c) / strings.Split(s, c) for a one-character separator. */
  function Split(s: string, c: char): (parts: seq<string>)
    ensures |parts| >= 1
    ensures forall i :: 0 <= i < |parts| ==> c !in parts[i]
  {
    if s == [] then [""]
    else
      var rest := Split(s[1..], c);
      if s[0] == c then [""] + rest else [[s[0]] + rest[0]] + rest[1..]
  }

  function Join(parts: seq<string>, c: char): string {
    if |parts| == 0 then ""
    else if |parts| == 1 then parts[0]
    else parts[0] + [c] + Join(parts[1..], c)
  }

  lemma {:induction false} JoinSplit(s: string, c: char)
    ensures Join(Split(s, c), c) == s
  {
    if s != [] {
      JoinSplit(s[1..], c);
      var rest := Split(s[1..], c);
      if s[0] == c {
        assert ([""] + rest)[1..] == rest;
      } else {
        var parts := [[s[0]] + rest[0]] + rest[1..];
        assert parts[1..] == rest[1..];
      }
    }
  }

  lemma {:induction false} SplitOne(s: string, c: char)
    requires c !in s
    ensures Split(s, c) == [s]
  {
    if s != [] {
      SplitOne(s[1..], c);
      assert [s[0]] + s[1..] == s;
    }
  }

  lemma {:induction false} SplitCons(p: string, c: char, rest: string)
    requires c !in p
    ensures Split(p + [c] + rest, c) == [p] + Split(rest, c)
  {
    var s := p + [c] + rest;
    if p == [] {
      assert s[1..] == rest;
    } else {
      assert s[1..] == p[1..] + [c] + rest;
      SplitCons(p[1..], c, rest);
      assert [p[0]] + p[1..] == p;
      assert ([p[1..]] + Split(rest, c))[1..] == Split(rest, c);
    }
  }

  lemma {:induction false} SplitJoin(parts: seq<string>, c: char)
    requires |parts| >= 1 && forall i :: 0 <= i < |parts| ==> c !in parts[i]
    ensures Split(Join(parts, c), c) == parts
  {
    if |parts| == 1 {
      SplitOne(parts[0], c);
    } else {
      SplitJoin(parts[1..], c);
      SplitCons(parts[0], c, Join(parts[1..], c));
    }
  }

  // ---- decimal integers --------------------------------------------------

  const MIN_INT64: int := -0x8000_0000_0000_0000
  const MAX_INT64: int := 0x7fff_ffff_ffff_ffff

  predicate IsDigit(c: char) { '0' <= c <= '9' }

  function Digit(d: nat): char
    requires d < 10
  {
    ('0' as int + d) as char
  }

  function DigitValue(c: char): nat
    requires IsDigit(c)
  {
    c as int - '0' as int
  }

  function NatText(n: nat): (s: string)
    ensures |s| >= 1 && forall i :: 0 <= i < |s| ==> IsDigit(s[i])
  {
    if n < 10 then [Digit(n)] else NatText(n / 10) + [Digit(n % 10)]
  }

  /** The value of a non-empty string of digits. */
  function NatValue(s: string): Option<nat> {
    if s == [] || !IsDigit(s[|s| - 1]) then None
    else if |s| == 1 then Some(DigitValue(s[0]))
    else
      match NatValue(s[..|s| - 1])
      case None => None
      case Some(high) => Some(10 * high + DigitValue(s[|s| - 1]))
  }

  predicate AllDigits(d: string) {
    d != "" && forall i :: 0 <= i < |d| ==> IsDigit(d[i])
  }

  lemma {:induction false} NatValueIff(d: string)
    ensures NatValue(d).Some? <==> AllDigits(d)
  {
    if |d| > 1 {
      var init := d[..|d| - 1];
      NatValueIff(init);
      if AllDigits(d) {
        assert AllDigits(init);
      }
      if AllDigits(init) && IsDigit(d[|d| - 1]) {
        assert forall i :: 0 <= i < |d| - 1 ==> d[i] == init[i];
      }
    }
  }

  lemma {:induction false} NatRoundTrip(n: nat)
    ensures NatValue(NatText(n)) == Some(n)
  {
    if n >= 10 {
      NatRoundTrip(n / 10);
      var s := NatText(n);
      assert s[..|s| - 1] == NatText(n / 10);
    }
  }

  /** Digits are what NatText prints for their value if and only if they have no leading zero. */
  lemma {:induction false} NatTextIff(s: string)
    requires NatValue(s).Some?
    ensures NatText(NatValue(s).value) == s <==> |s| == 1 || s[0] != '0'
    ensures |s| > 1 && s[0] != '0' ==> NatValue(s).value >= 10
  {
    if |s| > 1 {
      var init, last := s[..|s| - 1], s[|s| - 1];
      NatTextIff(init);
      NoLeadingZero(NatValue(s).value);
      assert s == init + [last];
    }
  }

  lemma {:induction false} NoLeadingZero(n: nat)
    ensures n >= 10 ==> |NatText(n)| > 1 && NatText(n)[0] != '0'
    ensures n < 10 ==> |NatText(n)| == 1
    ensures n > 0 ==> NatText(n)[0] != '0'
  {
    if n >= 10 {
      NoLeadingZero(n / 10);
    }
  }

  /** strconv.Itoa / FormatInt. */
  function Itoa(n: int): string {
    if n < 0 then "-" + NatText(-n) else NatText(n)
  }

  /** strconv.Atoi / ParseInt(s, 10, 64): an optional sign, digits, and the 64-bit range. */
  function Atoi(s: string): (r: Option<int>)
    ensures r.Some? ==> MIN_INT64 <= r.value <= MAX_INT64
  {
    var signed := s != [] && (s[0] == '-' || s[0] == '+');
    match NatValue(if signed then s[1..] else s)
    case None => None
    case Some(v) =>
      var n := if signed && s[0] == '-' then 0 - v as int else v as int;
      if MIN_INT64 <= n <= MAX_INT64 then Some(n) else None
  }

  lemma AtoiItoa(n: int)
    requires MIN_INT64 <= n <= MAX_INT64
    ensures Atoi(Itoa(n)) == Some(n)
  {
    var digits := NatText(if n < 0 then -n else n);
    NatRoundTrip(if n < 0 then -n else n);
    assert IsDigit(digits[0]);
    if n < 0 {
      assert Itoa(n)[0] == '-' && Itoa(n)[1..] == digits;
    }
  }

  // ---- the order of strings: unit by unit, a prefix first -------------------

  predicate Less(a: string, b: string) {
    if b == [] then false
    else if a == [] then true
    else if a[0] != b[0] then a[0] < b[0]
    else Less(a[1..], b[1..])
  }

  lemma {:induction false} LessTotal(a: string, b: string)
    ensures a == b || Less(a, b) || Less(b, a)
  {
    if a != [] && b != [] && a[0] == b[0] {
      LessTotal(a[1..], b[1..]);
      assert a == [a[0]] + a[1..] && b == [b[0]] + b[1..];
    }
  }

  lemma {:induction false} LessTransitive(a: string, b: string, c: string)
    requires !Less(b, a) && !Less(c, b)
    ensures !Less(c, a)
  {
    if a != [] && b != [] && c != [] && a[0] == b[0] == c[0] {
      LessTransitive(a[1..], b[1..], c[1..]);
    }
  }

  lemma {:induction false} LessAsymmetric(a: string, b: string)
    requires Less(a, b)
    ensures !Less(b, a)
  {
    if a != [] && a[0] == b[0] {
      LessAsymmetric(a[1..], b[1..]);
    }
  }

  lemma LessIrreflexive(a: string)
    ensures !Less(a, a)
  {
    if Less(a, a) {
      LessAsymmetric(a, a);
    }
  }
}
