/**
 * Helpers shared by every module of the model: an optional value, timer
 * handles, decimal rendering of lobby numbers, and the few string operations
 * (prefix, substring, ASCII lower case, trimming) that the JavaScript and
 * Python code relies on.
 */
module Common {

  /** `undefined`/`null`/`None` versus a present value. */
  datatype Option<+T> = None | Some(value: T)

  /**
   * What setInterval/setTimeout hand back in a browser: a positive id, so a
   * stored handle is always truthy. The scheduler itself is not modelled.
   */
  type TimerHandle = h: nat | h > 0 witness 1

  // ---------------------------------------------------------------------------
  // Decimal rendering of natural numbers, as `${n}` in JavaScript and
  // f"{i}" / str(i) in Python produce it for non-negative integers.
  // ---------------------------------------------------------------------------

  function DigitChar(d: nat): (c: char)
    requires d < 10
    ensures '0' <= c <= '9'
    ensures c as int - '0' as int == d
  {
    ('0' as int + d) as char
  }

  /** Decimal digits of `n`, most significant first, without leading zeros. */
  function Decimal(n: nat): (s: string)
    ensures 1 <= |s|
    ensures n >= 10 ==> 2 <= |s|
    ensures forall i :: 0 <= i < |s| ==> '0' <= s[i] <= '9'
    decreases n
  {
    if n < 10 then [DigitChar(n)] else Decimal(n / 10) + [DigitChar(n % 10)]
  }

  /** Two numbers with the same rendering are equal. */
  lemma {:induction false} DecimalInjective(a: nat, b: nat)
    requires Decimal(a) == Decimal(b)
    ensures a == b
    decreases a
  {
    var s := Decimal(a);
    if a < 10 && b < 10 {
      assert s[0] == DigitChar(a) && s[0] == DigitChar(b);
    } else if a >= 10 && b >= 10 {
      var n := |s|;
      assert s == Decimal(a / 10) + [DigitChar(a % 10)];
      assert s == Decimal(b / 10) + [DigitChar(b % 10)];
      assert s[n - 1] == DigitChar(a % 10) && s[n - 1] == DigitChar(b % 10);
      assert Decimal(a / 10) == s[..n - 1] == Decimal(b / 10);
      DecimalInjective(a / 10, b / 10);
    } else {
      assert false;
    }
  }

  /** The lobby identifier `lobby<n>` used by the front end and the back end alike. */
  function LobbyId(n: nat): (id: string)
    ensures StartsWith(id, "lobby") && |id| > 5
    ensures forall i :: 0 <= i < |id| ==> id[i] != '_'
  {
    "lobby" + Decimal(n)
  }

  /** Distinct lobby numbers give distinct identifiers. */
  lemma LobbyIdInjective(a: nat, b: nat)
    requires LobbyId(a) == LobbyId(b)
    ensures a == b
  {
    assert Decimal(a) == LobbyId(a)[5..];
    assert Decimal(b) == LobbyId(b)[5..];
    DecimalInjective(a, b);
  }

  // ---------------------------------------------------------------------------
  // String predicates
  // ---------------------------------------------------------------------------

  /** `s.startsWith(prefix)`. */
  predicate StartsWith(s: string, prefix: string) {
    |prefix| <= |s| && s[..|prefix|] == prefix
  }

  /** `s.includes(t)` / Python `t in s`. */
  predicate Contains(s: string, t: string)
    decreases |s|
  {
    StartsWith(s, t) || (|s| > 0 && Contains(s[1..], t))
  }

  /** `t` occurs in `s` at position `i`. */
  predicate OccursAt(s: string, t: string, i: nat) {
    i + |t| <= |s| && s[i..i + |t|] == t
  }

  /** A witness position makes `Contains` true. */
  lemma {:induction false} ContainsAt(s: string, t: string, i: nat)
    requires OccursAt(s, t, i)
    ensures Contains(s, t)
    decreases i
  {
    if i == 0 {
      assert s[..|t|] == t;
    } else {
      assert s[1..][i - 1..i - 1 + |t|] == s[i..i + |t|];
      assert OccursAt(s[1..], t, i - 1);
      ContainsAt(s[1..], t, i - 1);
    }
  }

  /** `Contains` is exactly "some window of `s` equals `t`". */
  lemma {:induction false} ContainsWitness(s: string, t: string)
    requires Contains(s, t)
    ensures exists i: nat :: OccursAt(s, t, i)
    decreases |s|
  {
    if StartsWith(s, t) {
      assert OccursAt(s, t, 0);
    } else {
      ContainsWitness(s[1..], t);
      var i: nat :| OccursAt(s[1..], t, i);
      assert s[1..][i..i + |t|] == s[i + 1..i + 1 + |t|];
      assert OccursAt(s, t, i + 1);
    }
  }

  /** A character of `t` that `s` lacks keeps `t` out of `s`. */
  lemma {:induction false} AbsentCharNotContained(s: string, t: string, j: nat)
    requires j < |t| && t[j] !in s
    ensures !Contains(s, t)
    decreases |s|
  {
    if |t| <= |s| {
      // position `j` of `s` holds a character of `s`, which `t[j]` is not
      assert s[..|t|][j] == s[j] != t[j];
    }
    if |s| > 0 {
      AbsentCharNotContained(s[1..], t, j);
    }
  }

  predicate NoUnderscore(s: string) {
    forall i :: 0 <= i < |s| ==> s[i] != '_'
  }

  /** ASCII part of `String.prototype.toLowerCase`. */
  function LowerChar(c: char): (l: char)
    ensures 'A' <= c <= 'Z' ==> l as int == c as int + 32
    ensures !('A' <= c <= 'Z') ==> l == c
  {
    if 'A' <= c <= 'Z' then (c as int + 32) as char else c
  }

  function Lower(s: string): (l: string)
    ensures |l| == |s|
    ensures forall i :: 0 <= i < |s| ==> l[i] == LowerChar(s[i])
  {
    seq(|s|, i requires 0 <= i < |s| => LowerChar(s[i]))
  }

  /** The ASCII white-space characters `String.prototype.trim` removes. */
  predicate IsSpace(c: char) {
    c == ' ' || c == '\t' || c == '\n' || c == '\r' || c == '\U{B}' || c == '\U{C}'
  }

  function TrimStart(s: string): (r: string)
    ensures |r| <= |s| && r == s[|s| - |r|..]
    ensures |r| > 0 ==> !IsSpace(r[0])
    ensures forall i :: 0 <= i < |s| - |r| ==> IsSpace(s[i])
    decreases |s|
  {
    if |s| > 0 && IsSpace(s[0]) then TrimStart(s[1..]) else s
  }

  function TrimEnd(s: string): (r: string)
    ensures |r| <= |s| && r == s[..|r|]
    ensures |r| > 0 ==> !IsSpace(r[|r| - 1])
    ensures forall i :: |r| <= i < |s| ==> IsSpace(s[i])
    decreases |s|
  {
    if |s| > 0 && IsSpace(s[|s| - 1]) then TrimEnd(s[..|s| - 1]) else s
  }

  /** `String.prototype.trim`, restricted to ASCII white space. */
  function Trim(s: string): string {
    TrimEnd(TrimStart(s))
  }
}
