/** The Python string operations the ingest code relies on, restricted to ASCII:
    `str.isspace`, `str.isdigit`, `str.isalpha`, `str.upper`, `str.lower`,
    `str.strip`, `str.rstrip(c)`, `sep.join(xs)` and `s.split(c)`. */
module Text {

  /** `c.isspace()` on ASCII: tab, line feed, vertical tab, form feed, carriage
      return, the four separators 0x1C-0x1F, and space. */
  predicate IsSpace(c: char) {
    var n := c as int;
    (9 <= n <= 13) || (28 <= n <= 32)
  }

  predicate IsDigit(c: char) {
    '0' <= c <= '9'
  }

  predicate IsLowerChar(c: char) {
    'a' <= c <= 'z'
  }

  predicate IsUpperChar(c: char) {
    'A' <= c <= 'Z'
  }

  predicate IsAlpha(c: char) {
    IsLowerChar(c) || IsUpperChar(c)
  }

  function ToUpperChar(c: char): char {
    if IsLowerChar(c) then (c as int - 32) as char else c
  }

  function ToLowerChar(c: char): char {
    if IsUpperChar(c) then (c as int + 32) as char else c
  }

  function Upper(s: string): string {
    seq(|s|, i requires 0 <= i < |s| => ToUpperChar(s[i]))
  }

  function Lower(s: string): string {
    seq(|s|, i requires 0 <= i < |s| => ToLowerChar(s[i]))
  }

  /** `s.isdigit()`: non-empty and made of digits only. */
  predicate IsDigits(s: string) {
    |s| > 0 && forall i :: 0 <= i < |s| ==> IsDigit(s[i])
  }

  predicate AllSpace(s: string) {
    forall i :: 0 <= i < |s| ==> IsSpace(s[i])
  }

  /** No white space at either end: what `strip()` leaves behind. */
  predicate Stripped(s: string) {
    s == [] || (!IsSpace(s[0]) && !IsSpace(s[|s| - 1]))
  }

  /** `s.strip()`: drop white space from both ends. */
  function Strip(s: string): (r: string)
    ensures Stripped(r)
    ensures |r| <= |s|
    decreases |s|
  {
    if |s| > 0 && IsSpace(s[0]) then Strip(s[1..])
    else if |s| > 0 && IsSpace(s[|s| - 1]) then Strip(s[..|s| - 1])
    else s
  }

  /** `s` is `m` with white space on either side of it. */
  ghost predicate Padded(s: string, m: string) {
    exists a, b :: AllSpace(a) && AllSpace(b) && s == a + m + b
  }

  lemma PaddedLeft(c: char, t: string, m: string)
    requires IsSpace(c) && Padded(t, m)
    ensures Padded([c] + t, m)
  {
    var a, b :| AllSpace(a) && AllSpace(b) && t == a + m + b;
    assert [c] + t == ([c] + a) + m + b;
    assert AllSpace([c] + a);
  }

  lemma PaddedRight(t: string, c: char, m: string)
    requires IsSpace(c) && Padded(t, m)
    ensures Padded(t + [c], m)
  {
    var a, b :| AllSpace(a) && AllSpace(b) && t == a + m + b;
    assert t + [c] == a + m + (b + [c]);
    assert AllSpace(b + [c]);
  }

  /** What `strip()` removes is white space and only white space: the input
      is the result with white space on either side of it. */
  lemma {:induction false} StripInfix(s: string)
    ensures Padded(s, Strip(s))
    decreases |s|
  {
    if |s| > 0 && IsSpace(s[0]) {
      StripInfix(s[1..]);
      PaddedLeft(s[0], s[1..], Strip(s));
      assert [s[0]] + s[1..] == s;
    } else if |s| > 0 && IsSpace(s[|s| - 1]) {
      StripInfix(s[..|s| - 1]);
      PaddedRight(s[..|s| - 1], s[|s| - 1], Strip(s));
      assert s[..|s| - 1] + [s[|s| - 1]] == s;
    } else {
      var e: string := [];
      assert AllSpace(e) && s == e + Strip(s) + e;
    }
  }

  lemma {:induction false} BlankStripsToEmpty(s: string)
    requires AllSpace(s)
    ensures Strip(s) == []
    decreases |s|
  {
    if |s| > 0 {
      BlankStripsToEmpty(s[1..]);
    }
  }

  lemma StripsToEmptyIsBlank(s: string)
    requires Strip(s) == []
    ensures AllSpace(s)
  {
    StripInfix(s);
    var a, b :| AllSpace(a) && AllSpace(b) && s == a + Strip(s) + b;
    assert s == a + b;
    forall i | 0 <= i < |s| ensures IsSpace(s[i]) {
      if i >= |a| {
        assert s[i] == b[i - |a|];
      }
    }
  }

  /** `strip()` leaves nothing exactly when the text is blank. */
  lemma StripEmptyIff(s: string)
    ensures Strip(s) == [] <==> AllSpace(s)
  {
    if AllSpace(s) {
      BlankStripsToEmpty(s);
    }
    if Strip(s) == [] {
      StripsToEmptyIsBlank(s);
    }
  }

  /** Stripping text that has no white space at its ends changes nothing. */
  lemma StripStripped(s: string)
    requires Stripped(s)
    ensures Strip(s) == s
  {
  }

  /** `strip()` is idempotent. */
  lemma StripIdempotent(s: string)
    ensures Strip(Strip(s)) == Strip(s)
  {
    StripStripped(Strip(s));
  }

  /** `s.rstrip(c)`: the prefix left after dropping trailing copies of `c`. */
  function StripRightChar(s: string, c: char): (r: string)
    ensures |r| <= |s| && r == s[..|r|]
    ensures forall k :: |r| <= k < |s| ==> s[k] == c
    ensures r == [] || r[|r| - 1] != c
    decreases |s|
  {
    if |s| > 0 && s[|s| - 1] == c then StripRightChar(s[..|s| - 1], c) else s
  }

  /** `s.split(c)[0]`: the prefix before the first `c`, or all of `s`. */
  function TakeUntil(s: string, c: char): (r: string)
    ensures |r| <= |s| && r == s[..|r|]
    ensures c !in r
    ensures |r| < |s| ==> s[|r|] == c
    decreases |s|
  {
    if |s| == 0 || s[0] == c then [] else [s[0]] + TakeUntil(s[1..], c)
  }

  /** The strings of `xs` in order, with `sep` between each neighbouring pair. */
  function Join(xs: seq<string>, sep: string): string
    decreases |xs|
  {
    if |xs| == 0 then []
    else if |xs| == 1 then xs[0]
    else xs[0] + sep + Join(xs[1..], sep)
  }

  /** Joining two non-empty lists is joining each and putting one separator between. */
  lemma {:induction false} JoinAppend(a: seq<string>, b: seq<string>, sep: string)
    requires |a| > 0 && |b| > 0
    ensures Join(a + b, sep) == Join(a, sep) + sep + Join(b, sep)
    decreases |a|
  {
    if |a| == 1 {
      assert (a + b)[1..] == b;
    } else {
      assert (a + b)[1..] == a[1..] + b;
      JoinAppend(a[1..], b, sep);
    }
  }

  /** Position of the first `c` in `s`. */
  function IndexOf(s: string, c: char): (i: nat)
    requires c in s
    ensures i < |s| && s[i] == c && c !in s[..i]
  {
    if s[0] == c then 0 else 1 + IndexOf(s[1..], c)
  }

  /** `s.split(c)` for a one-character separator: the pieces between the occurrences of `c`. */
  function Split(s: string, c: char): (r: seq<string>)
    ensures |r| >= 1
    ensures forall k :: 0 <= k < |r| ==> c !in r[k]
    decreases |s|
  {
    if c !in s then [s]
    else
      var i := IndexOf(s, c);
      [s[..i]] + Split(s[i + 1..], c)
  }

  /** Splitting at `c` undoes joining with `c`, as long as no piece contains `c`. */
  lemma {:induction false} SplitJoin(xs: seq<string>, c: char)
    requires |xs| >= 1
    requires forall k :: 0 <= k < |xs| ==> c !in xs[k]
    ensures Split(Join(xs, [c]), c) == xs
    decreases |xs|
  {
    if |xs| > 1 {
      var s := Join(xs, [c]);
      var rest := Join(xs[1..], [c]);
      assert s == xs[0] + [c] + rest;
      assert s[|xs[0]|] == c;
      assert s[..|xs[0]|] == xs[0];
      assert IndexOf(s, c) == |xs[0]|;
      assert s[|xs[0]| + 1..] == rest;
      SplitJoin(xs[1..], c);
    }
  }
}
