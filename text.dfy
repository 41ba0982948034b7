/**
  Ordinal string replacement, as `String.Replace(string, string)` performs it:
  the string is scanned from the left, every occurrence of the old value is
  replaced, and the scan resumes after the replaced occurrence, so
  occurrences never overlap and replaced text is never rescanned.
 */
module Text {

  /** `pat` occurs in `s` starting at index `i`. */
  predicate OccursAt(s: string, pat: string, i: nat) {
    i + |pat| <= |s| && s[i..i + |pat|] == pat
  }

  predicate Contains(s: string, pat: string) {
    exists i: nat | i <= |s| :: OccursAt(s, pat, i)
  }

  /**
    Every occurrence of `oldValue` in `s` replaced by `newValue`. An empty
    `oldValue` is refused by `String.Replace` (ArgumentException), hence the
    precondition. A new value as long as the old one keeps the length; a
    shorter one never lengthens the string, a longer one never shortens it.
   */
  function ReplaceAll(s: string, oldValue: string, newValue: string): (r: string)
    requires oldValue != []
    ensures |newValue| == |oldValue| ==> |r| == |s|
    ensures |newValue| <= |oldValue| ==> |r| <= |s|
    ensures |newValue| >= |oldValue| ==> |r| >= |s|
    decreases |s|
  {
    if |s| < |oldValue| then s
    else if s[..|oldValue|] == oldValue then newValue + ReplaceAll(s[|oldValue|..], oldValue, newValue)
    else [s[0]] + ReplaceAll(s[1..], oldValue, newValue)
  }

  /** A string without an occurrence of the old value is returned unchanged. */
  lemma {:induction false} ReplaceAllWithoutOccurrence(s: string, oldValue: string, newValue: string)
    requires oldValue != []
    requires !Contains(s, oldValue)
    ensures ReplaceAll(s, oldValue, newValue) == s
    decreases |s|
  {
    if |s| >= |oldValue| {
      assert !OccursAt(s, oldValue, 0);
      forall i: nat | OccursAt(s[1..], oldValue, i) ensures false {
        OccursInTail(s, oldValue, i);
      }
      SkipHead(s, oldValue, newValue);
      ReplaceAllWithoutOccurrence(s[1..], oldValue, newValue);
      assert s == [s[0]] + s[1..];
    }
  }

  /** Replacing a value by itself changes nothing. */
  lemma {:induction false} ReplaceAllBySelf(s: string, value: string)
    requires value != []
    ensures ReplaceAll(s, value, value) == s
    decreases |s|
  {
    if |s| >= |value| {
      if s[..|value|] == value {
        ReplaceAllBySelf(s[|value|..], value);
        assert s == s[..|value|] + s[|value|..];
      } else {
        ReplaceAllBySelf(s[1..], value);
        assert s == [s[0]] + s[1..];
      }
    }
  }

  /** An occurrence at the very start is replaced and the scan resumes after it. */
  lemma LeadingOccurrence(oldValue: string, rest: string, newValue: string)
    requires oldValue != []
    ensures ReplaceAll(oldValue + rest, oldValue, newValue) == newValue + ReplaceAll(rest, oldValue, newValue)
  {
    var s := oldValue + rest;
    assert s[..|oldValue|] == oldValue;
    assert s[|oldValue|..] == rest;
  }

  /** A character at which no occurrence starts is copied; the scan moves on by one. */
  lemma SkipHead(s: string, oldValue: string, newValue: string)
    requires oldValue != [] && s != []
    requires !OccursAt(s, oldValue, 0)
    ensures ReplaceAll(s, oldValue, newValue) == [s[0]] + ReplaceAll(s[1..], oldValue, newValue)
  {
    if |s| < |oldValue| {
      assert ReplaceAll(s[1..], oldValue, newValue) == s[1..];
      assert s == [s[0]] + s[1..];
    } else {
      assert s[0..|oldValue|] == s[..|oldValue|];
    }
  }

  /** Occurrences in `s[1..]` are those in `s` shifted by one. */
  lemma OccursInTail(s: string, pat: string, i: nat)
    requires s != []
    ensures OccursAt(s[1..], pat, i) <==> OccursAt(s, pat, i + 1)
  {
    if i + |pat| <= |s[1..]| {
      assert s[1..][i..i + |pat|] == s[i + 1..i + 1 + |pat|];
    }
  }

  /** A prefix free of occurrences stays free when its first character is dropped. */
  lemma FreePrefixTail(a: string, b: string, pat: string)
    requires a != []
    requires forall i: nat :: i < |a| ==> !OccursAt(a + b, pat, i)
    ensures forall i: nat :: i < |a[1..]| ==> !OccursAt(a[1..] + b, pat, i)
  {
    assert (a + b)[1..] == a[1..] + b;
    forall i: nat | i < |a[1..]| ensures !OccursAt(a[1..] + b, pat, i) {
      OccursInTail(a + b, pat, i);
    }
  }

  /**
    A prefix in which no occurrence starts is copied verbatim; replacement
    continues on what follows it.
   */
  lemma {:induction false} ReplaceAllAfterFreePrefix(a: string, b: string, oldValue: string, newValue: string)
    requires oldValue != []
    requires forall i: nat :: i < |a| ==> !OccursAt(a + b, oldValue, i)
    ensures ReplaceAll(a + b, oldValue, newValue) == a + ReplaceAll(b, oldValue, newValue)
    decreases |a|
  {
    if a == [] {
      assert a + b == b;
    } else {
      var tail := a[1..] + b;
      assert (a + b)[0] == a[0] && (a + b)[1..] == tail;
      SkipHead(a + b, oldValue, newValue);
      FreePrefixTail(a, b, oldValue);
      ReplaceAllAfterFreePrefix(a[1..], b, oldValue, newValue);
      assert [a[0]] + (a[1..] + ReplaceAll(b, oldValue, newValue)) == a + ReplaceAll(b, oldValue, newValue);
    }
  }

  /** A string that is exactly the old value becomes exactly the new value. */
  lemma ReplaceWhole(oldValue: string, newValue: string)
    requires oldValue != []
    ensures ReplaceAll(oldValue, oldValue, newValue) == newValue
  {
    LeadingOccurrence(oldValue, [], newValue);
    assert oldValue + [] == oldValue;
  }
}
