/** The `java.lang.String` operations the judge relies on: `toLowerCase`,
    `contains` and `trim`. Lower-casing covers the ASCII letters only. */
module Text {

  predicate IsUpper(c: char) {
    'A' <= c <= 'Z'
  }

  function LowerChar(c: char): char {
    if IsUpper(c) then (c as int + 32) as char else c
  }

  /** `String.toLowerCase()`, restricted to ASCII letters: every upper-case
      letter becomes its lower-case letter, every other character stays. */
  function ToLower(s: string): (r: string)
    ensures |r| == |s|
    ensures forall i :: 0 <= i < |s| ==>
      !IsUpper(r[i]) && (r[i] == s[i] || (IsUpper(s[i]) && r[i] as int == s[i] as int + 32))
  {
    if s == [] then [] else [LowerChar(s[0])] + ToLower(s[1..])
  }

  /** `a` and `b` are the same character, or the same ASCII letter in the
      two cases. */
  predicate SameLetterUpToCase(a: char, b: char) {
    a == b || (IsUpper(a) && b as int == a as int + 32) || (IsUpper(b) && a as int == b as int + 32)
  }

  /** `a` and `b` differ at most in the case of ASCII letters. */
  predicate SameUpToCase(a: string, b: string) {
    |a| == |b| && forall i :: 0 <= i < |a| ==> SameLetterUpToCase(a[i], b[i])
  }

  /** Lower-casing changes a string only in the case of its letters. */
  lemma ToLowerSameUpToCase(s: string)
    ensures SameUpToCase(s, ToLower(s))
  {
  }

  /** Strings that differ only in letter case lower to the same string. */
  lemma SameUpToCaseLowersAlike(a: string, b: string)
    requires SameUpToCase(a, b)
    ensures ToLower(a) == ToLower(b)
  {
    var la, lb := ToLower(a), ToLower(b);
    forall i | 0 <= i < |a| ensures la[i] == lb[i] {
      assert SameLetterUpToCase(a[i], b[i]);
    }
  }

  /** Lower-casing a lower-cased string changes nothing. */
  lemma {:induction false} ToLowerIdempotent(s: string)
    ensures ToLower(ToLower(s)) == ToLower(s)
  {
    if s != [] {
      ToLowerIdempotent(s[1..]);
      assert ToLower(s)[1..] == ToLower(s[1..]);
    }
  }

  /** `s.contains(t)`: `t` occurs in `s` at some position. */
  predicate Contains(s: string, t: string)
    ensures t == [] ==> Contains(s, t)
    ensures Contains(s, t) ==> |t| <= |s|
    decreases |s|
  {
    |t| <= |s| && (s[..|t|] == t || Contains(s[1..], t))
  }

  /** `t` starts at index `i` of `s`. */
  predicate OccursAt(s: string, t: string, i: int) {
    0 <= i <= |s| - |t| && s[i..i + |t|] == t
  }

  /** `Contains` agrees with "there is an index where `t` starts". */
  lemma {:induction false} ContainsAt(s: string, t: string)
    ensures Contains(s, t) <==> exists i :: OccursAt(s, t, i)
    decreases |s|
  {
    if |t| <= |s| {
      if s[..|t|] == t {
        assert OccursAt(s, t, 0);
      } else {
        ContainsAt(s[1..], t);
        if Contains(s[1..], t) {
          var i :| OccursAt(s[1..], t, i);
          assert OccursAt(s, t, i + 1) by {
            assert s[i + 1..i + 1 + |t|] == s[1..][i..i + |t|];
          }
        }
        if exists i :: OccursAt(s, t, i) {
          var i :| OccursAt(s, t, i);
          assert i > 0;
          assert OccursAt(s[1..], t, i - 1) by {
            assert s[1..][i - 1..i - 1 + |t|] == s[i..i + |t|];
          }
        }
      }
    }
  }

  /** A character `String.trim()` removes: any code point up to U+0020. */
  predicate IsTrimmed(c: char) {
    c <= ' '
  }

  function TrimStart(s: string): (r: string)
    ensures |r| <= |s|
    ensures r == [] || !IsTrimmed(r[0])
  {
    if |s| > 0 && IsTrimmed(s[0]) then TrimStart(s[1..]) else s
  }

  function TrimEnd(s: string): (r: string)
    ensures r <= s
    ensures r == [] || !IsTrimmed(r[|r| - 1])
  {
    if |s| > 0 && IsTrimmed(s[|s| - 1]) then TrimEnd(s[..|s| - 1]) else s
  }

  /** `String.trim()`: drop leading and trailing characters up to U+0020. */
  function Trim(s: string): (r: string)
    ensures |r| <= |s|
    ensures r == [] || (!IsTrimmed(r[0]) && !IsTrimmed(r[|r| - 1]))
  {
    TrimEnd(TrimStart(s))
  }

  /** Every character of `s` is one that `trim` removes. */
  predicate IsBlank(s: string) {
    forall i :: 0 <= i < |s| ==> IsTrimmed(s[i])
  }

  lemma {:induction false} TrimStartEmptyIffBlank(s: string)
    ensures TrimStart(s) == [] <==> IsBlank(s)
  {
    if |s| > 0 && IsTrimmed(s[0]) {
      TrimStartEmptyIffBlank(s[1..]);
      assert IsBlank(s) <==> IsBlank(s[1..]) by {
        if IsBlank(s[1..]) {
          forall i | 0 <= i < |s| ensures IsTrimmed(s[i]) {
            if i > 0 { assert s[i] == s[1..][i - 1]; }
          }
        }
      }
    }
  }

  lemma {:induction false} TrimEndOfNonEmptyStart(s: string)
    requires |s| > 0 && !IsTrimmed(s[0])
    ensures TrimEnd(s) != []
    decreases |s|
  {
    if IsTrimmed(s[|s| - 1]) {
      TrimEndOfNonEmptyStart(s[..|s| - 1]);
    }
  }

  /** `s.trim().isEmpty()` holds exactly when `s` is blank. */
  lemma TrimEmptyIffBlank(s: string)
    ensures Trim(s) == [] <==> IsBlank(s)
  {
    TrimStartEmptyIffBlank(s);
    var t := TrimStart(s);
    if t != [] {
      TrimEndOfNonEmptyStart(t);
    }
  }

  /** Lower-casing neither creates nor removes blank characters. */
  lemma {:induction false} ToLowerKeepsBlank(s: string)
    ensures IsBlank(ToLower(s)) <==> IsBlank(s)
  {
    if s != [] {
      ToLowerKeepsBlank(s[1..]);
      assert ToLower(s)[1..] == ToLower(s[1..]);
      assert IsBlank(s) <==> IsTrimmed(s[0]) && IsBlank(s[1..]) by {
        if IsTrimmed(s[0]) && IsBlank(s[1..]) {
          forall i | 0 <= i < |s| ensures IsTrimmed(s[i]) {
            if i > 0 { assert s[i] == s[1..][i - 1]; }
          }
        }
      }
      var l := ToLower(s);
      assert IsBlank(l) <==> IsTrimmed(l[0]) && IsBlank(l[1..]) by {
        if IsTrimmed(l[0]) && IsBlank(l[1..]) {
          forall i | 0 <= i < |l| ensures IsTrimmed(l[i]) {
            if i > 0 { assert l[i] == l[1..][i - 1]; }
          }
        }
      }
    }
  }
}
