/** Character and string facts shared by the validators and the dictionary
    file format: ASCII digits, substring occurrence, and Python's
    `str.split(sep)` with a non-empty separator. */
module Text {
  import opened Wrappers

  predicate IsDigit(c: char) {
    '0' <= c <= '9'
  }

  predicate AllDigits(s: string) {
    forall i :: 0 <= i < |s| ==> IsDigit(s[i])
  }

  /** `s.isdigit()` restricted to ASCII: true iff `s` is non-empty and made
      of the characters 0-9 only. */
  predicate IsDigitString(s: string) {
    |s| > 0 && AllDigits(s)
  }

  /** The regular expression `[0-9]{n}` matched against the whole of `s`. */
  predicate IsDigitsOfLength(s: string, n: nat) {
    |s| == n && AllDigits(s)
  }

  /** The value of a decimal digit string, as `int(s)` reads it. */
  function DigitsValue(s: string): (n: nat)
    requires AllDigits(s)
    ensures |s| > 0 && s[0] != '0' ==> n > 0
  {
    if |s| == 0 then 0
    else
      assert AllDigits(s[..|s| - 1]);
      DigitsValue(s[..|s| - 1]) * 10 + ((s[|s| - 1] as int) - ('0' as int))
  }

  /** The decimal spelling of `n` (`str(n)`). */
  function DigitsOf(n: nat): (s: string)
    ensures IsDigitString(s)
    ensures |s| > 1 ==> s[0] != '0'
  {
    var d := [('0' as int + n % 10) as char];
    if n < 10 then d else DigitsOf(n / 10) + d
  }

  /** `int(str(n)) == n`. */
  lemma {:induction false} DigitsRoundTrip(n: nat)
    ensures DigitsValue(DigitsOf(n)) == n
  {
    var d := [('0' as int + n % 10) as char];
    if n >= 10 {
      DigitsRoundTrip(n / 10);
      var s := DigitsOf(n / 10) + d;
      assert s[..|s| - 1] == DigitsOf(n / 10);
    }
  }

  /** `sep` starts at index `i` of `s`. */
  predicate OccursAt(s: string, sep: string, i: nat) {
    i + |sep| <= |s| && s[i..i + |sep|] == sep
  }

  /** `sep in s` for a non-empty `sep`. */
  predicate Contains(s: string, sep: string) {
    exists i: nat | i <= |s| :: OccursAt(s, sep, i)
  }

  /** The least index at or after `from` where `sep` starts (`s.find(sep, from)`). */
  function FindFrom(s: string, sep: string, from: nat): (r: Option<nat>)
    requires from <= |s|
    ensures r.Some? ==> from <= r.value <= |s| && OccursAt(s, sep, r.value)
    ensures r.Some? ==> forall j: nat :: from <= j < r.value ==> !OccursAt(s, sep, j)
    ensures r.None? ==> forall j: nat :: from <= j ==> !OccursAt(s, sep, j)
    decreases |s| - from
  {
    if OccursAt(s, sep, from) then Some(from)
    else if from == |s| then None
    else FindFrom(s, sep, from + 1)
  }

  /** Python's `s.split(sep)`: the pieces between the successive leftmost
      non-overlapping occurrences of `sep`; always at least one piece. */
  function Split(s: string, sep: string): (r: seq<string>)
    requires |sep| > 0
    ensures |r| > 0
    decreases |s|
  {
    match FindFrom(s, sep, 0)
    case None => [s]
    case Some(i) => [s[..i]] + Split(s[i + |sep|..], sep)
  }

  /** Python's `sep.join(xs)`: the strings in order, `sep` between
      neighbours. */
  function Join(xs: seq<string>, sep: string): (r: string)
    ensures |xs| == 1 ==> r == xs[0]
  {
    if |xs| == 0 then ""
    else if |xs| == 1 then xs[0]
    else xs[0] + sep + Join(xs[1..], sep)
  }

  /** Splitting loses nothing: joining the pieces with the separator gives
      the string back. */
  lemma {:induction false} SplitJoin(s: string, sep: string)
    requires |sep| > 0
    ensures Join(Split(s, sep), sep) == s
    decreases |s|
  {
    match FindFrom(s, sep, 0)
    case None =>
    case Some(i) =>
      var rest := s[i + |sep|..];
      SplitJoin(rest, sep);
      assert Split(s, sep) == [s[..i]] + Split(rest, sep);
      assert s == s[..i] + sep + rest by {
        assert s[i..i + |sep|] == sep;
        assert s == s[..i] + s[i..i + |sep|] + s[i + |sep|..];
      }
  }

  /** No piece of a split holds the separator. */
  lemma {:induction false} SplitPiecesFree(s: string, sep: string)
    requires |sep| > 0
    ensures forall k: nat, j: nat :: k < |Split(s, sep)| ==> !OccursAt(Split(s, sep)[k], sep, j)
    decreases |s|
  {
    match FindFrom(s, sep, 0)
    case None =>
      assert Split(s, sep) == [s];
    case Some(i) =>
      var rest := s[i + |sep|..];
      SplitPiecesFree(rest, sep);
      var r := Split(s, sep);
      assert r == [s[..i]] + Split(rest, sep);
      forall j: nat
        ensures !OccursAt(s[..i], sep, j)
      {
        if OccursAt(s[..i], sep, j) {
          assert s[..i][j..j + |sep|] == s[j..j + |sep|];
          assert OccursAt(s, sep, j);
        }
      }
      forall k: nat, j: nat | k < |r|
        ensures !OccursAt(r[k], sep, j)
      {
        if k > 0 {
          assert r[k] == Split(rest, sep)[k - 1];
        }
      }
  }

  /** Keep the non-empty strings, in order (`list(filter(None, xs))`). */
  function NonEmpty(xs: seq<string>): (r: seq<string>)
    ensures forall x :: x in r ==> x in xs && x != ""
    ensures forall x :: x in xs && x != "" ==> x in r
  {
    if |xs| == 0 then []
    else if xs[0] == "" then NonEmpty(xs[1..])
    else [xs[0]] + NonEmpty(xs[1..])
  }

  /** The trailing empty piece left by a final newline is dropped. */
  lemma {:induction false} NonEmptyAppendEmpty(xs: seq<string>)
    requires forall x :: x in xs ==> x != ""
    ensures NonEmpty(xs + [""]) == xs
  {
    if |xs| == 0 {
      assert NonEmpty([""]) == NonEmpty([]);
    } else {
      assert (xs + [""])[1..] == xs[1..] + [""];
      assert xs[0] in xs;
      assert forall x :: x in xs[1..] ==> x in xs;
      NonEmptyAppendEmpty(xs[1..]);
      assert [xs[0]] + xs[1..] == xs;
    }
  }

  /** A string in which `sep` never occurs is split into itself. */
  lemma SplitNoOccurrence(s: string, sep: string)
    requires |sep| > 0
    requires forall j: nat :: !OccursAt(s, sep, j)
    ensures Split(s, sep) == [s]
  {
    var f := FindFrom(s, sep, 0);
    assert f.None?;
  }

  /** When the first occurrence of `sep` in `a + sep + b` is the displayed
      one, splitting yields `a` followed by the split of `b`. */
  lemma SplitAtFirst(a: string, sep: string, b: string)
    requires |sep| > 0
    requires forall j: nat :: j < |a| ==> !OccursAt(a + sep + b, sep, j)
    ensures Split(a + sep + b, sep) == [a] + Split(b, sep)
  {
    var s := a + sep + b;
    assert OccursAt(s, sep, |a|) by {
      assert s[|a|..|a| + |sep|] == sep;
    }
    var f := FindFrom(s, sep, 0);
    assert f == Some(|a|);
    assert s[..|a|] == a;
    assert s[|a| + |sep|..] == b;
  }

  /** No two consecutive dashes anywhere in `s`. */
  predicate NoDoubleDash(s: string) {
    forall j: nat | j < |s| :: !OccursAt(s, "--", j)
  }

  lemma OccursAtDoubleDash(s: string, j: nat)
    ensures OccursAt(s, "--", j) <==> j + 2 <= |s| && s[j] == '-' && s[j + 1] == '-'
  {
    if j + 2 <= |s| && s[j] == '-' && s[j + 1] == '-' {
      assert s[j..j + 2] == "--";
    }
  }

  /** Joining two dash-free strings with a newline creates no `--`. */
  lemma NoDoubleDashJoin(x: string, y: string)
    requires NoDoubleDash(x) && NoDoubleDash(y)
    ensures NoDoubleDash(x + "\n" + y)
  {
    var s := x + "\n" + y;
    forall j: nat
      ensures !OccursAt(s, "--", j)
    {
      OccursAtDoubleDash(s, j);
      if j + 2 <= |x| {
        OccursAtDoubleDash(x, j);
      } else if j > |x| && j + 2 <= |s| {
        OccursAtDoubleDash(y, j - |x| - 1);
      }
    }
  }
}
