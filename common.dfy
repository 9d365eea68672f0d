/** Shared vocabulary of the parking store: optional request fields, the
    JavaScript truthiness tests the handlers apply to them, handler outcomes,
    ASCII upper-casing, and the filter/count/sum shapes of the listings. */
module Common {

  /** An optional value: a request field that may be absent, or a column that may be NULL. */
  datatype Option<T> = None | Some(value: T)

  /** HTTP outcome of a handler. `Ok` stands for both 200 and 201. */
  datatype Status = Ok | BadRequest | Unauthorized | Forbidden | NotFound | Conflict

  /** `!x` is false for a numeric field: present and not 0. */
  predicate Truthy(x: Option<int>)
  {
    x.Some? && x.value != 0
  }

  /** `!s` is false for a text field: present and not the empty string. */
  predicate TruthyStr(s: Option<string>)
  {
    s.Some? && s.value != ""
  }

  // ---------------------------------------------------------------------------
  // Upper-casing (`toUpperCase`), on ASCII letters

  predicate IsLowerAscii(c: char)
  {
    'a' <= c <= 'z'
  }

  function UpperChar(c: char): (u: char)
    ensures !IsLowerAscii(u)
    ensures !IsLowerAscii(c) ==> u == c
    ensures IsLowerAscii(c) ==> u as int == c as int - 32
  {
    if IsLowerAscii(c) then (c as int - 32) as char else c
  }

  /** A string with no lower-case ASCII letter. */
  predicate IsUpper(s: string)
  {
    forall i :: 0 <= i < |s| ==> !IsLowerAscii(s[i])
  }

  /** `s.toUpperCase()`: same length, no lower-case letter left, every other
      character kept, and an already upper-case string is its own image. */
  function ToUpper(s: string): (r: string)
    ensures |r| == |s|
    ensures IsUpper(r)
    ensures forall i :: 0 <= i < |s| && !IsLowerAscii(s[i]) ==> r[i] == s[i]
    ensures forall i :: 0 <= i < |s| ==> r[i] == UpperChar(s[i])
    ensures IsUpper(s) ==> r == s
  {
    if s == [] then [] else [UpperChar(s[0])] + ToUpper(s[1..])
  }

  /** Upper-casing twice is upper-casing once. */
  lemma ToUpperIdempotent(s: string)
    ensures ToUpper(ToUpper(s)) == ToUpper(s)
  {
  }

  /** `s?.toUpperCase()`: NULL stays NULL. */
  function UpperOpt(s: Option<string>): (r: Option<string>)
    ensures r.Some? <==> s.Some?
    ensures r.Some? ==> IsUpper(r.value) && |r.value| == |s.value|
  {
    match s
    case None => None
    case Some(v) => Some(ToUpper(v))
  }

  // ---------------------------------------------------------------------------
  // `rows.filter(p)`, `rows.filter(p).length`, `rows.reduce(+)`

  function Not<T>(p: T -> bool): T -> bool
  {
    x => !p(x)
  }

  function And<T>(p: T -> bool, q: T -> bool): T -> bool
  {
    x => p(x) && q(x)
  }

  /** `rows.filter(p).length` */
  function Count<T>(s: seq<T>, p: T -> bool): (n: nat)
    ensures n <= |s|
  {
    if s == [] then 0 else (if p(s[0]) then 1 else 0) + Count(s[1..], p)
  }

  /** Every row is counted either by `p` or by its negation, never by both. */
  lemma {:induction false} CountComplement<T>(s: seq<T>, p: T -> bool)
    ensures Count(s, p) + Count(s, Not(p)) == |s|
  {
    if s != [] {
      CountComplement(s[1..], p);
    }
  }

  /** Counts under three mutually exclusive tests add up to at most the row count. */
  lemma {:induction false} CountExclusive3<T>(s: seq<T>, p: T -> bool, q: T -> bool, r: T -> bool)
    requires forall x :: !(p(x) && q(x)) && !(p(x) && r(x)) && !(q(x) && r(x))
    ensures Count(s, p) + Count(s, q) + Count(s, r) <= |s|
  {
    if s != [] {
      CountExclusive3(s[1..], p, q, r);
    }
  }

  /** A test that implies another counts no more rows. */
  lemma {:induction false} CountMonotone<T>(s: seq<T>, p: T -> bool, q: T -> bool)
    requires forall x :: p(x) ==> q(x)
    ensures Count(s, p) <= Count(s, q)
  {
    if s != [] {
      CountMonotone(s[1..], p, q);
    }
  }

  /** `rows.filter(p)`: the rows satisfying `p`, in order. */
  function Filter<T>(s: seq<T>, p: T -> bool): (r: seq<T>)
    ensures |r| == Count(s, p)
    ensures forall i :: 0 <= i < |r| ==> r[i] in s && p(r[i])
    ensures forall i :: 0 <= i < |s| && p(s[i]) ==> s[i] in r
    ensures multiset(r) <= multiset(s)
  {
    if s == [] then []
    else
      assert s == [s[0]] + s[1..];
      (if p(s[0]) then [s[0]] else []) + Filter(s[1..], p)
  }

  /** A kept value appears in the filtered rows exactly as often as in the
      rows, a dropped one not at all. */
  lemma {:induction false} FilterMultiplicidad<T>(s: seq<T>, p: T -> bool, x: T)
    ensures multiset(Filter(s, p))[x] == if p(x) then multiset(s)[x] else 0
  {
    if s != [] {
      FilterMultiplicidad(s[1..], p, x);
      var h := if p(s[0]) then [s[0]] else [];
      assert Filter(s, p) == h + Filter(s[1..], p);
      assert s == [s[0]] + s[1..];
    }
  }

  /** Counting the kept rows under a second test counts the rows passing both. */
  lemma {:induction false} CountFilter<T>(s: seq<T>, p: T -> bool, q: T -> bool)
    ensures Count(Filter(s, p), q) == Count(s, And(p, q))
  {
    if s != [] {
      CountFilter(s[1..], p, q);
      var h := if p(s[0]) then [s[0]] else [];
      assert Filter(s, p) == h + Filter(s[1..], p);
      CountAppend(h, Filter(s[1..], p), q);
    }
  }

  lemma {:induction false} CountAppend<T>(a: seq<T>, b: seq<T>, p: T -> bool)
    ensures Count(a + b, p) == Count(a, p) + Count(b, p)
  {
    if a == [] {
      assert a + b == b;
    } else {
      assert (a + b)[1..] == a[1..] + b;
      CountAppend(a[1..], b, p);
    }
  }

  /** Counting the entries equal to `x` gives the multiplicity of `x`. */
  lemma {:induction false} CountIgual<T>(s: seq<T>, x: T)
    ensures Count(s, y => y == x) == multiset(s)[x]
  {
    if s != [] {
      CountIgual(s[1..], x);
      assert s == [s[0]] + s[1..];
    }
  }

  /** `rows.reduce((sum, x) => sum + f(x), 0)` */
  function Sum<T>(s: seq<T>, f: T -> int): int
  {
    if s == [] then 0 else f(s[0]) + Sum(s[1..], f)
  }

  /** The total over the rows a filter keeps plus the total over the rows it
      drops is the total over all rows. */
  lemma {:induction false} SumSplit<T>(s: seq<T>, p: T -> bool, f: T -> int)
    ensures Sum(Filter(s, p), f) + Sum(Filter(s, Not(p)), f) == Sum(s, f)
  {
    if s != [] {
      SumSplit(s[1..], p, f);
      var h := if p(s[0]) then [s[0]] else [];
      var g := if Not(p)(s[0]) then [s[0]] else [];
      assert Filter(s, p) == h + Filter(s[1..], p);
      assert Filter(s, Not(p)) == g + Filter(s[1..], Not(p));
      SumAppend(h, Filter(s[1..], p), f);
      SumAppend(g, Filter(s[1..], Not(p)), f);
    }
  }

  lemma {:induction false} SumAppend<T>(a: seq<T>, b: seq<T>, f: T -> int)
    ensures Sum(a + b, f) == Sum(a, f) + Sum(b, f)
  {
    if a == [] {
      assert a + b == b;
    } else {
      assert (a + b)[1..] == a[1..] + b;
      SumAppend(a[1..], b, f);
    }
  }
}
