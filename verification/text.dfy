/** Option/Result wrappers used by the rendering model. */
module Wrappers {

  /** A value that may be absent. */
  datatype Option<+T> = None | Some(value: T)

  /** Either a value or the error that stopped its computation. */
  datatype Result<+R, +E> = Ok(value: R) | Err(error: E)
}

/**
  Character-sequence helpers mirroring the handful of Python string
  operations the views rely on: slicing with possibly negative bounds,
  repetition with a possibly non-positive count, `str()` of an integer,
  `lower()` and substring membership.
 */
module Text {
  import opened Wrappers

  function Min(a: int, b: int): int { if a <= b then a else b }

  function Max(a: int, b: int): int { if a >= b then a else b }

  /** Python `s[:n]`: a negative `n` counts from the end, a large one clamps. */
  function Take<T>(s: seq<T>, n: int): (r: seq<T>)
    ensures n >= 0 ==> |r| == Min(n, |s|)
    ensures n < 0 ==> |r| == Max(0, |s| + n)
  {
    if n >= 0 then s[..Min(n, |s|)] else s[..Max(0, |s| + n)]
  }

  /** What `s[:n]` keeps is a prefix of `s`. */
  lemma {:induction false} TakeIsPrefix<T>(s: seq<T>, n: int)
    ensures Take(s, n) <= s
  {
  }

  /** Python `s[n:]`: a negative `n` counts from the end, a large one clamps. */
  function Drop<T>(s: seq<T>, n: int): (r: seq<T>)
    ensures n >= 0 ==> |r| == Max(0, |s| - n)
  {
    if n >= 0 then s[Min(n, |s|)..] else s[Max(0, |s| + n)..]
  }

  /** Python `s[k]`: a negative `k` counts from the end; out of range is an error (`None`). */
  function PyIndex<T>(s: seq<T>, k: int): (r: Option<T>)
    ensures r.Some? <==> -|s| <= k < |s|
    ensures 0 <= k < |s| ==> r == Some(s[k])
    ensures -|s| <= k < 0 ==> r == Some(s[|s| + k])
  {
    if 0 <= k < |s| then Some(s[k]) else if -|s| <= k < 0 then Some(s[|s| + k]) else None
  }

  /** Python `" " * n`: empty whenever `n <= 0`. */
  function Spaces(n: int): (r: string)
    ensures |r| == Max(0, n)
  {
    seq(Max(0, n), i => ' ')
  }

  lemma {:induction false} SpacesAreBlank(n: int)
    ensures forall i | 0 <= i < |Spaces(n)| :: Spaces(n)[i] == ' '
  {
  }

  /** Python `s * n` for a string `s`: `n` copies of `s`, none when `n <= 0`. */
  function Repeat(s: string, n: int): string
    decreases Max(0, n)
  {
    if n <= 0 then "" else s + Repeat(s, n - 1)
  }

  lemma {:induction false} RepeatLength(s: string, n: int)
    ensures |Repeat(s, n)| == |s| * Max(0, n)
    decreases Max(0, n)
  {
    if n > 0 {
      RepeatLength(s, n - 1);
    }
  }

  /** Each character of `s * n` is the character of `s` at its offset modulo `|s|`. */
  lemma {:induction false} RepeatAt(s: string, n: int)
    ensures forall i | |s| > 0 && 0 <= i < |Repeat(s, n)| :: Repeat(s, n)[i] == s[i % |s|]
    decreases Max(0, n)
  {
    if n > 0 {
      RepeatAt(s, n - 1);
      var r := Repeat(s, n);
      assert r == s + Repeat(s, n - 1);
      forall i | |s| > 0 && 0 <= i < |r|
        ensures r[i] == s[i % |s|]
      {
        if i < |s| {
          assert r[i] == s[i];
          ModUnique(i, |s|, 0, i);
        } else {
          assert r[i] == Repeat(s, n - 1)[i - |s|];
          ModShift(i, |s|);
        }
      }
    }
  }

  lemma {:induction false} ModShift(i: int, k: int)
    requires 0 < k <= i
    ensures (i - k) % k == i % k
  {
    var q, m := i / k, i % k;
    assert i == q * k + m;
    assert i - k == (q - 1) * k + m;
    ModUnique(i - k, k, q - 1, m);
  }

  /** Euclidean division is unique: `q * k + m` with `0 <= m < k` leaves remainder `m`. */
  lemma {:induction false} ModUnique(a: int, k: int, q: int, m: int)
    requires 0 < k && 0 <= m < k && a == q * k + m
    ensures a % k == m
  {
    var q', m' := a / k, a % k;
    assert (q - q') * k == m' - m;
    if q > q' {
      MulAtLeast(q - q', k);
    } else if q < q' {
      MulAtLeast(q' - q, k);
    }
  }

  lemma {:induction false} MulAtLeast(d: int, k: int)
    requires d >= 1 && k > 0
    ensures d * k >= k
  {
    assert d * k == (d - 1) * k + k;
  }

  predicate IsDigit(c: char) { '0' <= c <= '9' }

  function DigitChar(d: nat): (c: char)
    requires d < 10
    ensures IsDigit(c)
  {
    ('0' as int + d) as char
  }

  /** Python `str(n)` for a natural number: decimal digits, no leading zero. */
  function NatToString(n: nat): (r: string)
    ensures |r| >= 1
    decreases n
  {
    if n < 10 then [DigitChar(n)] else NatToString(n / 10) + [DigitChar(n % 10)]
  }

  /** `str(n)` is all digits, and a single one exactly for the numbers below ten. */
  lemma {:induction false} NatToStringDigits(n: nat)
    ensures forall i | 0 <= i < |NatToString(n)| :: IsDigit(NatToString(n)[i])
    ensures n < 10 <==> |NatToString(n)| == 1
    decreases n
  {
    if n >= 10 {
      NatToStringDigits(n / 10);
    }
  }

  /** Python `str(n)` for any integer: a minus sign before the digits when negative. */
  function IntToString(n: int): (r: string)
    ensures |r| >= 1
    ensures n >= 0 ==> r == NatToString(n)
  {
    if n >= 0 then NatToString(n) else "-" + NatToString(-n)
  }

  /** Python `str.lower()`, restricted to the ASCII letters: character by character. */
  function Lower(s: string): (r: string)
    ensures |r| == |s|
  {
    seq(|s|, i requires 0 <= i < |s| => LowerChar(s[i]))
  }

  function LowerChar(c: char): char {
    if 'A' <= c <= 'Z' then c - 'A' + 'a' else c
  }

  /** Python `sub in s`: `sub` occurs somewhere in `s` (the empty string occurs everywhere). */
  predicate Contains(s: string, sub: string) {
    exists i | 0 <= i <= |s| - |sub| :: OccursAt(s, sub, i)
  }

  /** `sub` starts at position `i` of `s`. */
  predicate OccursAt(s: string, sub: string, i: int) {
    0 <= i <= |s| - |sub| && forall j | 0 <= j < |sub| :: s[i + j] == sub[j]
  }

  /** Regrouping a concatenation; stated once so that callers reason by congruence alone. */
  lemma {:induction false} Regroup3<T>(a: seq<T>, b: seq<T>, c: seq<T>)
    ensures a + (b + c) == a + b + c
  {
  }

  lemma {:induction false} Regroup4<T>(a: seq<T>, b: seq<T>, c: seq<T>, d: seq<T>)
    ensures a + (b + c + d) == a + b + c + d
  {
  }

  /** The head and tail of a concatenation whose left part is not empty. */
  lemma {:induction false} ConsAppend<T>(a: seq<T>, b: seq<T>)
    requires |a| > 0
    ensures (a + b)[0] == a[0] && (a + b)[1..] == a[1..] + b
  {
  }

  /** The last element and the rest of a concatenation whose right part is not empty. */
  lemma {:induction false} SnocAppend<T>(a: seq<T>, b: seq<T>)
    requires |b| > 0
    ensures (a + b)[|a + b| - 1] == b[|b| - 1] && (a + b)[..|a + b| - 1] == a + b[..|b| - 1]
  {
  }

  lemma {:induction false} EmptyAppend<T>(a: seq<T>, b: seq<T>)
    requires |a| == 0
    ensures a + b == b
  {
  }

  lemma {:induction false} AppendEmpty<T>(a: seq<T>, b: seq<T>)
    requires |b| == 0
    ensures a + b == a
  {
  }
}
