/** The `"userId-problemId"` string key of the leaderboard's best-score map:
    `Long` to decimal text, `split("-")[0]` and `Long.parseLong`. */
module ScoreKey {
  import opened Wrappers

  function DigitChar(d: nat): char
    requires d < 10
  {
    (48 + d) as char
  }

  predicate IsDigit(c: char) {
    '0' <= c <= '9'
  }

  predicate AllDigits(s: string) {
    forall i :: 0 <= i < |s| ==> IsDigit(s[i])
  }

  /** `Long.toString(n)` for a non-negative `n`: decimal, no leading zeros. */
  function NatToString(n: nat): (s: string)
    ensures |s| > 0 && AllDigits(s)
    decreases n
  {
    if n < 10 then [DigitChar(n)] else NatToString(n / 10) + [DigitChar(n % 10)]
  }

  /** The value of a non-empty run of decimal digits. */
  function DigitsValue(s: string): nat
    requires |s| > 0 && AllDigits(s)
  {
    var d := (s[|s| - 1] as int - 48) as nat;
    if |s| == 1 then d else DigitsValue(s[..|s| - 1]) * 10 + d
  }

  /** `Long.parseLong(s)` on unsigned decimal text: at least one digit and
      nothing else; anything else is a `NumberFormatException`, here `None`. */
  function ParseLong(s: string): (r: Option<int>)
    ensures r.None? <==> s == [] || exists i :: 0 <= i < |s| && !IsDigit(s[i])
    ensures r.Some? ==> r.value >= 0
  {
    if |s| > 0 && AllDigits(s) then Some(DigitsValue(s))
    else None
  }

  /** `s.split("-")[0]`: the text before the first dash. */
  function FirstField(s: string): (f: string)
    ensures '-' !in f && f <= s
  {
    if |s| == 0 || s[0] == '-' then [] else [s[0]] + FirstField(s[1..])
  }

  /** Decimal text holds no dash. */
  lemma DigitsHaveNoDash(a: string)
    requires AllDigits(a)
    ensures '-' !in a
  {
    forall i | 0 <= i < |a| ensures a[i] != '-' {
      assert IsDigit(a[i]);
    }
  }

  /** `userId + "-" + problemId`: the user's id is the text before the first
      dash and the problem's id the text after it. */
  function Key(userId: nat, problemId: nat): (key: string)
    ensures FirstField(key) == NatToString(userId)
    ensures |key| == |NatToString(userId)| + 1 + |NatToString(problemId)|
    ensures key[|NatToString(userId)| + 1..] == NatToString(problemId)
  {
    DigitsHaveNoDash(NatToString(userId));
    FirstFieldOfJoin(NatToString(userId), NatToString(problemId));
    NatToString(userId) + "-" + NatToString(problemId)
  }

  /** `Long.parseLong(key.split("-")[0])`: never negative, since the first
      field holds no dash. */
  function UserIdOfKey(key: string): (r: Option<int>)
    ensures r.Some? ==> r.value >= 0
    ensures r.Some? ==> |FirstField(key)| > 0 && AllDigits(FirstField(key))
  {
    ParseLong(FirstField(key))
  }

  lemma {:induction false} DigitsValueOfNatToString(n: nat)
    ensures DigitsValue(NatToString(n)) == n
    decreases n
  {
    if n >= 10 {
      DigitsValueOfNatToString(n / 10);
      var s := NatToString(n);
      assert s[..|s| - 1] == NatToString(n / 10);
    }
  }

  /** Parsing the decimal text of a non-negative id gives the id back. */
  lemma ParseLongOfNatToString(n: nat)
    ensures ParseLong(NatToString(n)) == Some(n)
  {
    DigitsValueOfNatToString(n);
    assert IsDigit(NatToString(n)[0]);
  }

  /** The first field of `a + "-" + b` is `a` when `a` has no dash. */
  lemma {:induction false} FirstFieldOfJoin(a: string, b: string)
    requires '-' !in a
    ensures FirstField(a + "-" + b) == a
  {
    if a != [] {
      assert (a + "-" + b)[1..] == a[1..] + "-" + b;
      FirstFieldOfJoin(a[1..], b);
    }
  }

  /** The key round-trips: splitting it and parsing the first part gives
      the user id back. */
  lemma KeyRoundTrip(userId: nat, problemId: nat)
    ensures UserIdOfKey(Key(userId, problemId)) == Some(userId)
  {
    ParseLongOfNatToString(userId);
  }

  /** Distinct (user, problem) pairs get distinct keys. */
  lemma KeyInjective(u1: nat, p1: nat, u2: nat, p2: nat)
    requires Key(u1, p1) == Key(u2, p2)
    ensures u1 == u2 && p1 == p2
  {
    KeyRoundTrip(u1, p1);
    KeyRoundTrip(u2, p2);
    ParseLongOfNatToString(p1);
    ParseLongOfNatToString(p2);
  }
}
