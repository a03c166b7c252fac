/**
 * The few pieces of Python's string behaviour the bot relies on:
 * str() of an integer, int() of a string, and str.split with a separator.
 */
module Text {
  import opened Outcomes

  predicate IsDigit(c: char) { '0' <= c <= '9' }

  function DigitChar(d: nat): (c: char)
    requires d < 10
    ensures IsDigit(c)
  {
    (('0' as int) + d) as char
  }

  function DigitValue(c: char): nat
    requires IsDigit(c)
  {
    (c as int) - ('0' as int)
  }

  predicate AllDigits(s: string) {
    |s| > 0 && forall i :: 0 <= i < |s| ==> IsDigit(s[i])
  }

  /** Decimal text of a natural number, without leading zeros. */
  function NatText(n: nat): (r: string)
    ensures AllDigits(r)
    decreases n
  {
    if n < 10 then [DigitChar(n)] else NatText(n / 10) + [DigitChar(n % 10)]
  }

  /** Python's str(n) for an integer n. */
  function IntText(n: int): string {
    if n < 0 then "-" + NatText(-n) else NatText(n)
  }

  /** The number a run of decimal digits denotes. */
  function DigitsValue(s: string): nat
    requires forall i :: 0 <= i < |s| ==> IsDigit(s[i])
  {
    if s == [] then 0 else DigitsValue(s[..|s| - 1]) * 10 + DigitValue(s[|s| - 1])
  }

  /**
   * Python's int(s) for an optional sign followed by decimal digits;
   * every other string raises ValueError.
   */
  function ParseInt(s: string): Outcome<int> {
    if |s| > 0 && (s[0] == '-' || s[0] == '+') && AllDigits(s[1..]) then
      var magnitude: int := DigitsValue(s[1..]);
      Ok(if s[0] == '-' then -magnitude else magnitude)
    else if AllDigits(s) then
      Ok(DigitsValue(s))
    else
      Raise(ValueError)
  }

  lemma {:induction false} DigitsValueOfNatText(n: nat)
    ensures DigitsValue(NatText(n)) == n
    decreases n
  {
    if n >= 10 {
      var t := NatText(n);
      assert t[..|t| - 1] == NatText(n / 10);
      DigitsValueOfNatText(n / 10);
    }
  }

  /** int(str(n)) == n for every integer n. */
  lemma ParseIntOfIntText(n: int)
    ensures ParseInt(IntText(n)) == Ok(n)
  {
    if n < 0 {
      assert IntText(n)[1..] == NatText(-n);
      DigitsValueOfNatText(-n);
    } else {
      DigitsValueOfNatText(n);
    }
  }

  // ---------------------------------------------------------------- slices

  /** Python's s[:k]: the first k items, or all but the last -k when k is negative. */
  function PyPrefix<T>(s: seq<T>, k: int): (r: seq<T>)
    ensures |r| <= |s| && r == s[..|r|]
    ensures 0 <= k ==> |r| == if k < |s| then k else |s|
    ensures k < 0 ==> |r| == if |s| + k < 0 then 0 else |s| + k
  {
    if 0 <= k then s[..if k < |s| then k else |s|]
    else s[..if |s| + k < 0 then 0 else |s| + k]
  }

  // ---------------------------------------------------------------- split

  predicate OccursAt(s: string, sep: string, i: int) {
    0 <= i && i + |sep| <= |s| && s[i..i + |sep|] == sep
  }

  predicate Contains(s: string, sep: string) {
    exists i | 0 <= i <= |s| :: OccursAt(s, sep, i)
  }

  lemma OccursAtShift(s: string, sep: string, j: int)
    requires 0 < j && |s| > 0
    ensures OccursAt(s, sep, j) <==> OccursAt(s[1..], sep, j - 1)
  {
    if j + |sep| <= |s| {
      assert s[j..j + |sep|] == s[1..][j - 1..j - 1 + |sep|];
    }
  }

  /** Index of the leftmost occurrence of sep in s, as Python's s.find(sep). */
  function Find(s: string, sep: string): (r: Option<nat>)
    requires |sep| > 0
    ensures r.Some? ==> OccursAt(s, sep, r.value)
    ensures r.Some? ==> forall j :: 0 <= j < r.value ==> !OccursAt(s, sep, j)
    ensures r.None? ==> forall j :: !OccursAt(s, sep, j)
    decreases |s|
  {
    if |s| < |sep| then None
    else if s[..|sep|] == sep then Some(0)
    else
      var rest := Find(s[1..], sep);
      assert forall j :: 0 < j ==> (OccursAt(s, sep, j) <==> OccursAt(s[1..], sep, j - 1)) by {
        forall j | 0 < j ensures OccursAt(s, sep, j) <==> OccursAt(s[1..], sep, j - 1) {
          OccursAtShift(s, sep, j);
        }
      }
      match rest
      case None => None
      case Some(k) => Some(k + 1)
  }

  /**
   * Python's s.split(sep) for a nonempty separator: the pieces between
   * the non-overlapping occurrences of sep, found from the left.
   */
  function Split(s: string, sep: string): (r: seq<string>)
    requires |sep| > 0
    ensures |r| >= 1
    decreases |s|
  {
    match Find(s, sep)
    case None => [s]
    case Some(i) => [s[..i]] + Split(s[i + |sep|..], sep)
  }

  /** A string without the separator splits into itself alone. */
  lemma SplitWithoutSeparator(s: string, sep: string)
    requires |sep| > 0 && !Contains(s, sep)
    ensures Split(s, sep) == [s]
  {
  }

  /** A string holding the separator splits into at least two pieces. */
  lemma SplitWithSeparator(s: string, sep: string)
    requires |sep| > 0 && Contains(s, sep)
    ensures |Split(s, sep)| >= 2
  {
    var j :| OccursAt(s, sep, j);
  }

  /**
   * A string that splits into exactly two pieces is the first piece, the
   * separator and the second piece, and neither piece holds the separator.
   */
  lemma SplitInTwo(s: string, sep: string)
    requires |sep| > 0 && |Split(s, sep)| == 2
    ensures var parts := Split(s, sep);
            && s == parts[0] + sep + parts[1]
            && !Contains(parts[0], sep)
            && !Contains(parts[1], sep)
  {
    var i := Find(s, sep).value;
    var rest := s[i + |sep|..];
    assert Split(s, sep) == [s[..i]] + Split(rest, sep);
    assert Find(rest, sep).None?;
    assert s == s[..i] + sep + rest by {
      assert s[i..i + |sep|] == sep;
    }
    forall j | 0 <= j <= i ensures !OccursAt(s[..i], sep, j) {
      if j + |sep| <= i {
        assert !OccursAt(s, sep, j);
        assert s[..i][j..j + |sep|] == s[j..j + |sep|];
      }
    }
  }

  /**
   * When the first piece cannot even begin the separator, splitting
   * a + sep + b yields a followed by the pieces of b.
   */
  lemma SplitAfterPiece(a: string, sep: string, b: string)
    requires |sep| > 0 && sep[0] !in a
    ensures Split(a + sep + b, sep) == [a] + Split(b, sep)
  {
    var s := a + sep + b;
    assert OccursAt(s, sep, |a|) by { assert s[|a|..|a| + |sep|] == sep; }
    forall j | 0 <= j < |a| ensures !OccursAt(s, sep, j) {
      assert s[j] == a[j] != sep[0];
    }
    assert Find(s, sep) == Some(|a|);
    assert s[..|a|] == a;
    assert s[|a| + |sep|..] == b;
  }

  /**
   * When the first piece holds the separator, splitting a + sep + b yields
   * at least three pieces.
   */
  lemma SplitAfterSeparatedPiece(a: string, sep: string, b: string)
    requires |sep| > 0 && Contains(a, sep)
    ensures |Split(a + sep + b, sep)| >= 3
  {
    var s := a + sep + b;
    var j :| 0 <= j <= |a| && OccursAt(a, sep, j);
    assert OccursAt(s, sep, j) by {
      assert s[j..j + |sep|] == a[j..j + |sep|];
    }
    var i := Find(s, sep).value;
    assert i <= j;
    var rest := s[i + |sep|..];
    assert Split(s, sep) == [s[..i]] + Split(rest, sep);
    var k := |a| - i - |sep|;
    assert OccursAt(rest, sep, k) by {
      assert rest[k..k + |sep|] == s[|a|..|a| + |sep|] == sep;
    }
    SplitWithSeparator(rest, sep);
  }
}
