/** Thousands separators as `formatDistance` and `formatVelocity` insert them:
    `s.replace(/\B(?=(\d{3})+(?!\d))/g, ',')` applied to the decimal digits of
    a natural number. */
module Grouping {

  predicate IsDigit(c: char) {
    '0' <= c <= '9'
  }

  predicate AllDigits(s: string) {
    forall i :: 0 <= i < |s| ==> IsDigit(s[i])
  }

  function DigitChar(d: nat): (c: char)
    requires d < 10
    ensures IsDigit(c) && c as int - '0' as int == d
  {
    ('0' as int + d) as char
  }

  function DigitValue(c: char): (d: nat)
    requires IsDigit(c)
    ensures d < 10 && DigitChar(d) == c
  {
    c as int - '0' as int
  }

  /** The decimal representation of `n`, as `n.toFixed(0)` prints it. */
  function Digits(n: nat): (s: string)
    ensures |s| > 0 && AllDigits(s)
    ensures s[0] == '0' ==> n == 0
  {
    if n < 10 then [DigitChar(n)] else Digits(n / 10) + [DigitChar(n % 10)]
  }

  /** The number a digit string denotes. */
  function Value(s: string): nat
    requires AllDigits(s)
  {
    if |s| == 0 then 0 else 10 * Value(s[..|s| - 1]) + DigitValue(s[|s| - 1])
  }

  lemma {:induction false} ValueOfDigits(n: nat)
    ensures Value(Digits(n)) == n
  {
    if n >= 10 {
      ValueOfDigits(n / 10);
      assert Digits(n)[..|Digits(n)| - 1] == Digits(n / 10);
    }
  }

  /** The regular expression inserts a comma before position `p` of an
      all-digit string of length `len` exactly when `p` is not the first
      position (`\B`) and a positive multiple of three digits follows up to
      the end (`(?=(\d{3})+(?!\d))`). */
  predicate CommaBefore(len: nat, p: nat) {
    0 < p < len && (len - p) % 3 == 0
  }

  /** The replacement applied to the first `i` characters of `d`, with the
      positions judged against the whole string. */
  function GroupPrefix(d: string, i: nat): string
    requires i <= |d|
  {
    if i == 0 then []
    else GroupPrefix(d, i - 1) + (if CommaBefore(|d|, i - 1) then [','] else []) + [d[i - 1]]
  }

  /** `d.replace(/\B(?=(\d{3})+(?!\d))/g, ',')` for an all-digit `d`. */
  function InsertSeparators(d: string): string {
    GroupPrefix(d, |d|)
  }

  /** Reference definition: the digit string cut from the right into groups
      of three, the leftmost group keeping what is left over. */
  function Groups(d: string): (gs: seq<string>)
    requires |d| > 0
    ensures |gs| > 0
    ensures 1 <= |gs[0]| <= 3
    ensures forall j :: 1 <= j < |gs| ==> |gs[j]| == 3
    ensures Concat(gs) == d
    decreases |d|
  {
    if |d| <= 3 then [d]
    else
      var gs := Groups(d[..|d| - 3]) + [d[|d| - 3..]];
      ConcatSnoc(Groups(d[..|d| - 3]), d[|d| - 3..]);
      gs
  }

  function Concat(gs: seq<string>): string {
    if |gs| == 0 then [] else Concat(gs[..|gs| - 1]) + gs[|gs| - 1]
  }

  lemma ConcatSnoc(gs: seq<string>, g: string)
    ensures Concat(gs + [g]) == Concat(gs) + g
  {
    assert (gs + [g])[..|gs|] == gs;
  }

  /** The groups written with a comma between neighbours. */
  function Join(gs: seq<string>): string {
    if |gs| == 0 then []
    else if |gs| == 1 then gs[0]
    else Join(gs[..|gs| - 1]) + [','] + gs[|gs| - 1]
  }

  /** `s` with every comma deleted. */
  function RemoveCommas(s: string): string {
    if |s| == 0 then [] else (if s[0] == ',' then [] else [s[0]]) + RemoveCommas(s[1..])
  }

  lemma {:induction false} RemoveCommasAppend(a: string, b: string)
    ensures RemoveCommas(a + b) == RemoveCommas(a) + RemoveCommas(b)
    decreases |a|
  {
    if |a| > 0 {
      assert (a + b)[1..] == a[1..] + b;
      RemoveCommasAppend(a[1..], b);
    } else {
      assert a + b == b;
    }
  }

  /** Positions before `i` that carry no comma leave the prefix unchanged. */
  lemma {:induction false} NoSeparatorsBelow(d: string, i: nat)
    requires i <= |d|
    requires forall p: nat :: p < i ==> !CommaBefore(|d|, p)
    ensures GroupPrefix(d, i) == d[..i]
  {
    if i > 0 {
      NoSeparatorsBelow(d, i - 1);
      assert d[..i] == d[..i - 1] + [d[i - 1]];
    }
  }

  /** The replacement on a prefix depends on the whole string only through its
      first `i` characters and its length modulo three. */
  lemma {:induction false} GroupPrefixTransfer(d: string, e: string, i: nat)
    requires i <= |e| && |d| == |e| + 3
    requires e == d[..|e|]
    ensures GroupPrefix(d, i) == GroupPrefix(e, i)
  {
    if i > 0 {
      GroupPrefixTransfer(d, e, i - 1);
      assert CommaBefore(|d|, i - 1) == CommaBefore(|e|, i - 1);
      assert d[i - 1] == e[i - 1];
    }
  }

  /** The regular-expression replacement and the group-of-three reference
      agree on every non-empty digit string. */
  lemma {:induction false} SeparatorsMatchGroups(d: string)
    requires |d| > 0
    ensures InsertSeparators(d) == Join(Groups(d))
    decreases |d|
  {
    if |d| <= 3 {
      NoSeparatorsBelow(d, |d|);
      assert d[..|d|] == d;
    } else {
      var e := d[..|d| - 3];
      SeparatorsMatchGroups(e);
      GroupPrefixTransfer(d, e, |e|);
      LastGroup(d);
      JoinSnoc(Groups(e), d[|d| - 3..]);
    }
  }

  /** The last three digits of a longer string follow one inserted comma. */
  lemma LastGroup(d: string)
    requires |d| > 3
    ensures GroupPrefix(d, |d|) == GroupPrefix(d, |d| - 3) + [','] + d[|d| - 3..]
  {
    var n := |d|;
    LastCommaPositions(n);
    calc {
      GroupPrefix(d, n);
    == { StepPlain(d, n); }
      GroupPrefix(d, n - 1) + [d[n - 1]];
    == { StepPlain(d, n - 1); }
      GroupPrefix(d, n - 2) + [d[n - 2]] + [d[n - 1]];
    == { StepComma(d, n - 2); }
      GroupPrefix(d, n - 3) + [','] + [d[n - 3]] + [d[n - 2]] + [d[n - 1]];
    == { LastThree(d, GroupPrefix(d, n - 3) + [',']); }
      GroupPrefix(d, n - 3) + [','] + d[n - 3..];
    }
  }

  /** A position without a comma appends just its digit. */
  lemma StepPlain(d: string, i: nat)
    requires 0 < i <= |d| && !CommaBefore(|d|, i - 1)
    ensures GroupPrefix(d, i) == GroupPrefix(d, i - 1) + [d[i - 1]]
  {
  }

  /** A position with a comma appends the comma, then its digit. */
  lemma StepComma(d: string, i: nat)
    requires 0 < i <= |d| && CommaBefore(|d|, i - 1)
    ensures GroupPrefix(d, i) == GroupPrefix(d, i - 1) + [','] + [d[i - 1]]
  {
  }

  /** Of the last three positions only the one three from the end takes a comma. */
  lemma LastCommaPositions(n: nat)
    requires n > 3
    ensures !CommaBefore(n, n - 1) && !CommaBefore(n, n - 2) && CommaBefore(n, n - 3)
  {
  }

  lemma LastThree(d: string, q: string)
    requires |d| >= 3
    ensures q + [d[|d| - 3]] + [d[|d| - 2]] + [d[|d| - 1]] == q + d[|d| - 3..]
  {
    assert d[|d| - 3..] == [d[|d| - 3]] + [d[|d| - 2]] + [d[|d| - 1]];
  }

  /** Appending a group appends a comma and the group. */
  lemma JoinSnoc(gs: seq<string>, g: string)
    requires |gs| > 0
    ensures Join(gs + [g]) == Join(gs) + [','] + g
  {
    assert (gs + [g])[..|gs|] == gs;
  }

  /** Deleting the inserted commas gives back the first `i` digits. */
  lemma {:induction false} RemoveCommasOfPrefix(d: string, i: nat)
    requires i <= |d| && AllDigits(d)
    ensures RemoveCommas(GroupPrefix(d, i)) == d[..i]
  {
    if i > 0 {
      var pre, c := GroupPrefix(d, i - 1), d[i - 1];
      var sep: string := if CommaBefore(|d|, i - 1) then [','] else [];
      calc {
        RemoveCommas(GroupPrefix(d, i));
      ==
        RemoveCommas(pre + sep + [c]);
      == { RemoveCommasAppend(pre + sep, [c]); RemoveCommasAppend(pre, sep); }
        RemoveCommas(pre) + RemoveCommas(sep) + RemoveCommas([c]);
      == { RemoveCommasOfPrefix(d, i - 1); DropSeparator(sep, c); }
        d[..i - 1] + [c];
      == { PrefixSnoc(d, i); }
        d[..i];
      }
    }
  }

  /** The comma, if any, disappears and a digit stays. */
  lemma DropSeparator(sep: string, c: char)
    requires sep == [] || sep == [',']
    requires IsDigit(c)
    ensures RemoveCommas(sep) == [] && RemoveCommas([c]) == [c]
  {
  }

  lemma PrefixSnoc(d: string, i: nat)
    requires 0 < i <= |d|
    ensures d[..i - 1] + [d[i - 1]] == d[..i]
  {
  }

  /** The first character of a non-empty replacement is the first digit. */
  lemma {:induction false} GroupPrefixFirst(d: string, i: nat)
    requires 0 < i <= |d|
    ensures |GroupPrefix(d, i)| > 0 && GroupPrefix(d, i)[0] == d[0]
  {
    if i > 1 {
      GroupPrefixFirst(d, i - 1);
    } else {
      assert !CommaBefore(|d|, 0);
    }
  }

  /** `n` written with thousands separators. */
  function GroupDigits(n: nat): (s: string)
    ensures |s| > 0 && s[0] != ',' && s[0] == Digits(n)[0]
    ensures IsDigit(s[|s| - 1])
    ensures RemoveCommas(s) == Digits(n)
    ensures s == Join(Groups(Digits(n)))
  {
    var d := Digits(n);
    GroupPrefixFirst(d, |d|);
    RemoveCommasOfPrefix(d, |d|);
    assert d[..|d|] == d;
    SeparatorsMatchGroups(d);
    InsertSeparators(d)
  }

  /** The formatted number denotes `n` again once the commas are removed. */
  lemma GroupDigitsRoundTrip(n: nat)
    ensures Value(RemoveCommas(GroupDigits(n))) == n
  {
    ValueOfDigits(n);
  }
}
