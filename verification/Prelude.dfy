/** Small shared vocabulary: results, options, numeric extrema, Python's string order. */
module Prelude {

  datatype Option<+T> = None | Some(value: T)

  /** The exceptions the constructors of intents and events can raise. */
  datatype ValidationError =
    | EmptyObjectId
    | EmptyRequestId
    | NegativeBlockId
    | NonPositiveSize
    | NoAllowedTiers
    | TierNotAllowed
    | RequestPriorityOutOfRange
    | RecencyOutOfRange
    | NegativeStep

  datatype Result<+T> = Ok(value: T) | Err(error: ValidationError) {
    predicate IsFailure() { Err? }

    function PropagateFailure<U>(): Result<U>
      requires Err?
    {
      Err(error)
    }

    function Extract(): T
      requires Ok?
    {
      value
    }
  }

  function Max(a: int, b: int): int { if a >= b then a else b }

  function Min(a: int, b: int): int { if a <= b then a else b }

  function RMax(a: real, b: real): real { if a >= b then a else b }

  function RMin(a: real, b: real): real { if a <= b then a else b }

  /** Python's `x or default`: a zero counts as missing. */
  function OrElse(x: Option<int>, default: int): int {
    if x.Some? && x.value != 0 then x.value else default
  }

  /** Lexicographic order on strings, by code point. */
  predicate StringLess(a: string, b: string) {
    if b == "" then false
    else if a == "" then true
    else if a[0] != b[0] then a[0] < b[0]
    else StringLess(a[1..], b[1..])
  }

  /** `a` is a proper prefix of `b`, or has the smaller character where they first differ, after `n` characters. */
  predicate DiffersAt(a: string, b: string, n: nat) {
    && n <= |a| && n < |b| && a[..n] == b[..n] && (n == |a| || a[n] < b[n])
  }

  lemma {:induction false} StringLessIsLexicographic(a: string, b: string)
    ensures StringLess(a, b) <==> exists n: nat :: DiffersAt(a, b, n)
    decreases |a|
  {
    if a == "" {
      assert b != "" ==> DiffersAt(a, b, 0);
    } else if b != "" {
      if a[0] == b[0] {
        StringLessIsLexicographic(a[1..], b[1..]);
        forall n: nat ensures DiffersAt(a[1..], b[1..], n) <==> DiffersAt(a, b, n + 1) {
          assert n < |a| && n + 1 <= |b| ==> a[..n + 1] == [a[0]] + a[1..][..n] && b[..n + 1] == [b[0]] + b[1..][..n];
        }
        assert !DiffersAt(a, b, 0);
        assert forall n: nat | n > 0 :: DiffersAt(a, b, n) ==> DiffersAt(a[1..], b[1..], n - 1);
      } else {
        assert DiffersAt(a, b, 0) <==> a[0] < b[0];
        assert forall n: nat | n > 0 && n <= |a| && n <= |b| :: a[..n][0] == a[0] && b[..n][0] == b[0];
      }
    }
  }

  lemma {:induction false} StringLessTransitive(a: string, b: string, c: string)
    requires StringLess(a, b) && StringLess(b, c)
    ensures StringLess(a, c)
    decreases |a|
  {
    if a != "" && b != "" && c != "" && a[0] == b[0] == c[0] {
      StringLessTransitive(a[1..], b[1..], c[1..]);
    }
  }

  lemma {:induction false} StringLessTrichotomy(a: string, b: string)
    ensures a == b || StringLess(a, b) || StringLess(b, a)
    ensures !(StringLess(a, b) && StringLess(b, a))
    ensures a == b ==> !StringLess(a, b)
    decreases |a|
  {
    if a != "" && b != "" && a[0] == b[0] {
      StringLessTrichotomy(a[1..], b[1..]);
      assert a == [a[0]] + a[1..] && b == [b[0]] + b[1..];
    }
  }

  function Digit(d: nat): char
    requires d < 10
  {
    "0123456789"[d]
  }

  /** Decimal rendering of a natural number, as f-strings do it. */
  function Decimal(n: nat): string {
    if n < 10 then [Digit(n)] else Decimal(n / 10) + [Digit(n % 10)]
  }

  lemma {:induction false} DecimalNoColon(n: nat)
    ensures Decimal(n) != "" && ':' !in Decimal(n)
  {
    if n >= 10 {
      DecimalNoColon(n / 10);
    }
  }

  lemma {:induction false} DecimalInjective(m: nat, n: nat)
    requires Decimal(m) == Decimal(n)
    ensures m == n
  {
    var a, b := Decimal(m), Decimal(n);
    assert a[|a| - 1] == Digit(m % 10) && b[|b| - 1] == Digit(n % 10);
    DigitInjective(m % 10, n % 10);
    if m >= 10 {
      DecimalNoColon(m / 10);
    }
    if n >= 10 {
      DecimalNoColon(n / 10);
    }
    if m >= 10 && n >= 10 {
      assert a[..|a| - 1] == Decimal(m / 10) && b[..|b| - 1] == Decimal(n / 10);
      DecimalInjective(m / 10, n / 10);
    }
  }

  lemma DigitInjective(c: nat, d: nat)
    requires c < 10 && d < 10 && Digit(c) == Digit(d)
    ensures c == d
  {
  }

  /** `s` lists every member of `ids` exactly once. */
  ghost predicate Enumerates<T(!new)>(s: seq<T>, ids: set<T>) {
    && (forall x :: x in s <==> x in ids)
    && (forall i, j | 0 <= i < j < |s| :: s[i] != s[j])
  }

  lemma EnumerationExists<T(!new)>(ids: set<T>)
    ensures exists s: seq<T> :: Enumerates(s, ids)
  {
    if ids == {} {
      assert Enumerates<T>([], ids);
    } else {
      var x :| x in ids;
      EnumerationExists(ids - {x});
      var s :| Enumerates(s, ids - {x});
      assert Enumerates(s + [x], ids);
    }
  }

  lemma EnumeratesConcat<T(!new)>(a: seq<T>, b: seq<T>, ids: set<T>, more: set<T>)
    requires Enumerates(a, ids) && Enumerates(b, more) && ids !! more
    ensures Enumerates(a + b, ids + more)
  {
    var s := a + b;
    forall i, j | 0 <= i < j < |s| ensures s[i] != s[j] {
      assert i < |a| ==> s[i] in ids;
      assert j >= |a| ==> s[j] in more;
    }
  }

  lemma EnumeratesTail<T(!new)>(a: seq<T>, ids: set<T>)
    requires Enumerates(a, ids) && a != []
    ensures a[0] in ids && Enumerates(a[1..], ids - {a[0]})
  {
    assert a == [a[0]] + a[1..];
  }

  lemma {:induction false} EnumeratesSize<T(!new)>(a: seq<T>, ids: set<T>)
    requires Enumerates(a, ids)
    ensures |a| == |ids|
  {
    if a == [] {
      assert ids == {};
    } else {
      EnumeratesTail(a, ids);
      EnumeratesSize(a[1..], ids - {a[0]});
    }
  }
}
