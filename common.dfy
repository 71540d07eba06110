/** Shared vocabulary of the gas model: identifiers, demand sectors, the
    constraint rows a Pyomo rule can return, and finite sums over ordered
    index sets (Pyomo ordered sets are modelled as duplicate-free sequences). */
module Common {

  type Zone = string
  type Timeseries = int
  type Timepoint = int
  type Period = int

  /** The two demand sectors: electricity and industry (variable price) and
      residential and commercial (flat price). */
  datatype Sector = EI | RC

  /** DEMAND_SECTORS, in its declared order. */
  const DemandSectors: seq<Sector> := [EI, RC]

  /** str(ds): the name a sector carries in the input tables. */
  function SectorName(s: Sector): string
  {
    match s
    case EI => "EI"
    case RC => "RC"
  }

  /** A (gas zone, timeseries, demand sector) coordinate. */
  datatype Coord = Coord(zone: Zone, ts: Timeseries, sector: Sector)

  datatype Option<T> = None | Some(value: T)

  datatype Result<T, E> = Ok(value: T) | Err(error: E)

  /** What a constraint rule returns: Constraint.Skip, `lhs <= rhs` or `lhs == rhs`. */
  datatype Constraint = Skip | Le(lhs: real, rhs: real) | Eq(lhs: real, rhs: real)

  predicate Satisfied(c: Constraint)
  {
    match c
    case Skip => true
    case Le(l, r) => l <= r
    case Eq(l, r) => l == r
  }

  /** An optional capacity or count limit: Infinite stands for float('inf'). */
  datatype Limit = Infinite | Finite(bound: real)

  /** The value a solver assigned to a variable, or a parameter's value; an
      index the map does not hold reads as 0.0. */
  function Val<K>(m: map<K, real>, k: K): real
  {
    if k in m then m[k] else 0.0
  }

  /** A parameter read with an explicit default. */
  function ValOr<K>(m: map<K, real>, k: K, default: real): real
  {
    if k in m then m[k] else default
  }

  predicate Distinct<T(==)>(s: seq<T>)
  {
    forall i, j :: 0 <= i < j < |s| ==> s[i] != s[j]
  }

  /** Σ_{x in s} f(x), in the order of s. */
  function SumOf<T>(s: seq<T>, f: T -> real): real
    decreases |s|
  {
    if s == [] then 0.0 else f(s[0]) + SumOf(s[1..], f)
  }

  lemma {:induction false} SumOfAppend<T>(a: seq<T>, b: seq<T>, f: T -> real)
    ensures SumOf(a + b, f) == SumOf(a, f) + SumOf(b, f)
    decreases |a|
  {
    if a == [] {
      assert a + b == b;
    } else {
      assert (a + b)[1..] == a[1..] + b;
      SumOfAppend(a[1..], b, f);
    }
  }

  /** The step a left-to-right accumulating loop needs. */
  lemma SumOfSnoc<T>(s: seq<T>, i: nat, f: T -> real)
    requires i < |s|
    ensures SumOf(s[..i + 1], f) == SumOf(s[..i], f) + f(s[i])
  {
    assert s[..i + 1] == s[..i] + [s[i]];
    SumOfAppend(s[..i], [s[i]], f);
  }

  lemma {:induction false} SumOfCongruent<T>(s: seq<T>, f: T -> real, g: T -> real)
    requires forall x :: x in s ==> f(x) == g(x)
    ensures SumOf(s, f) == SumOf(s, g)
    decreases |s|
  {
    if s != [] {
      SumOfCongruent(s[1..], f, g);
    }
  }

  lemma {:induction false} SumOfNonNegative<T>(s: seq<T>, f: T -> real)
    requires forall x :: x in s ==> f(x) >= 0.0
    ensures SumOf(s, f) >= 0.0
    decreases |s|
  {
    if s != [] {
      SumOfNonNegative(s[1..], f);
    }
  }

  lemma {:induction false} SumOfMonotone<T>(s: seq<T>, f: T -> real, g: T -> real)
    requires forall x :: x in s ==> f(x) <= g(x)
    ensures SumOf(s, f) <= SumOf(s, g)
    decreases |s|
  {
    if s != [] {
      SumOfMonotone(s[1..], f, g);
    }
  }

  /** Σ (f + g) == Σ f + Σ g. */
  lemma {:induction false} SumOfAdd<T>(s: seq<T>, f: T -> real, g: T -> real, h: T -> real)
    requires forall x :: x in s ==> h(x) == f(x) + g(x)
    ensures SumOf(s, h) == SumOf(s, f) + SumOf(s, g)
    decreases |s|
  {
    if s != [] {
      SumOfAdd(s[1..], f, g, h);
    }
  }

  /** Σ (f - g) == Σ f - Σ g. */
  lemma {:induction false} SumOfSub<T>(s: seq<T>, f: T -> real, g: T -> real, h: T -> real)
    requires forall x :: x in s ==> h(x) == f(x) - g(x)
    ensures SumOf(s, h) == SumOf(s, f) - SumOf(s, g)
    decreases |s|
  {
    if s != [] {
      SumOfSub(s[1..], f, g, h);
    }
  }

  /** Σ c·f == c·Σ f. */
  lemma {:induction false} SumOfScale<T>(s: seq<T>, c: real, f: T -> real, h: T -> real)
    requires forall x :: x in s ==> h(x) == c * f(x)
    ensures SumOf(s, h) == c * SumOf(s, f)
    decreases |s|
  {
    if s != [] {
      SumOfScale(s[1..], c, f, h);
    }
  }

  lemma {:induction false} SumOfZero<T>(s: seq<T>, f: T -> real)
    requires forall x :: x in s ==> f(x) == 0.0
    ensures SumOf(s, f) == 0.0
    decreases |s|
  {
    if s != [] {
      SumOfZero(s[1..], f);
    }
  }

  /** Σ_{x in s} Σ_{y in t} f(x, y) == Σ_{y in t} Σ_{x in s} f(x, y), with the
      summand given curried both ways and the inner sums named rows and cols. */
  lemma {:induction false} SumOfExchange<T, U>(s: seq<T>, t: seq<U>, g: T -> U -> real, h: U -> T -> real,
                                               rows: T -> real, cols: U -> real)
    requires forall x, y :: g(x)(y) == h(y)(x)
    requires forall x :: rows(x) == SumOf(t, g(x))
    requires forall y :: cols(y) == SumOf(s, h(y))
    ensures SumOf(s, rows) == SumOf(t, cols)
    decreases |s|
  {
    if s != [] {
      var tail := y => SumOf(s[1..], h(y));
      SumOfExchange(s[1..], t, g, h, rows, tail);
      forall y | y in t
        ensures cols(y) == g(s[0])(y) + tail(y)
      {
      }
      SumOfAdd(t, g(s[0]), tail, cols);
    } else {
      SumOfZero(t, cols);
    }
  }

  /** The elements of s that satisfy p, in order. */
  function Filter<T(!new,==)>(s: seq<T>, p: T -> bool): (r: seq<T>)
    ensures forall x :: x in r <==> x in s && p(x)
    ensures |r| <= |s|
    decreases |s|
  {
    if s == [] then [] else if p(s[0]) then [s[0]] + Filter(s[1..], p) else Filter(s[1..], p)
  }

  /** A sum over a filtered index set is the sum of the guarded summand. */
  lemma {:induction false} SumOfFilter<T(!new)>(s: seq<T>, p: T -> bool, f: T -> real, g: T -> real)
    requires forall x :: x in s ==> g(x) == (if p(x) then f(x) else 0.0)
    ensures SumOf(Filter(s, p), f) == SumOf(s, g)
    decreases |s|
  {
    if s != [] {
      SumOfFilter(s[1..], p, f, g);
    }
  }

  lemma {:induction false} FilterDistinct<T(!new)>(s: seq<T>, p: T -> bool)
    requires Distinct(s)
    ensures Distinct(Filter(s, p))
    decreases |s|
  {
    if s != [] {
      assert Distinct(s[1..]) by {
        forall i, j | 0 <= i < j < |s[1..]| ensures s[1..][i] != s[1..][j] {
          assert s[1..][i] == s[i + 1] && s[1..][j] == s[j + 1];
        }
      }
      FilterDistinct(s[1..], p);
      assert s[0] !in s[1..] by {
        forall k | 0 <= k < |s[1..]| ensures s[1..][k] != s[0] {
          assert s[1..][k] == s[k + 1];
        }
      }
    }
  }

  function MinOf(s: seq<real>): (r: real)
    requires s != []
    ensures r in s && forall x :: x in s ==> r <= x
    decreases |s|
  {
    if |s| == 1 then s[0]
    else
      assert s == [s[0]] + s[1..];
      var m := MinOf(s[1..]);
      if s[0] <= m then s[0] else m
  }

  function MaxOf(s: seq<real>): (r: real)
    requires s != []
    ensures r in s && forall x :: x in s ==> x <= r
    decreases |s|
  {
    if |s| == 1 then s[0]
    else
      assert s == [s[0]] + s[1..];
      var m := MaxOf(s[1..]);
      if s[0] >= m then s[0] else m
  }

  /** The decimal digits of n, as Python's str(n) writes a non-negative int. */
  function NatToString(n: nat): (r: string)
    ensures |r| >= 1
    ensures forall i :: 0 <= i < |r| ==> '0' <= r[i] <= '9'
    decreases n
  {
    if n < 10 then [DigitChar(n)] else NatToString(n / 10) + [DigitChar(n % 10)]
  }

  function DigitChar(d: nat): (c: char)
    requires d < 10
    ensures '0' <= c <= '9'
  {
    ['0', '1', '2', '3', '4', '5', '6', '7', '8', '9'][d]
  }

  /** str(n) for any int, with Python's leading minus sign. */
  function IntToString(n: int): (r: string)
  {
    if n < 0 then "-" + NatToString(-n) else NatToString(n)
  }

  /** A non-negatively weighted sum of values in [lo, hi] lies between lo and
      hi times the total weight. */
  lemma {:induction false} WeightedSumBounds<T>(s: seq<T>, v: T -> real, w: T -> real, vw: T -> real,
                                                lo: real, hi: real)
    requires forall x :: x in s ==> w(x) >= 0.0 && lo <= v(x) <= hi && vw(x) == w(x) * v(x)
    ensures lo * SumOf(s, w) <= SumOf(s, vw) <= hi * SumOf(s, w)
    decreases |s|
  {
    if s != [] {
      WeightedSumBounds(s[1..], v, w, vw, lo, hi);
      var x := s[0];
      WeightedStep(w(x), v(x), vw(x), lo, hi, SumOf(s[1..], w), SumOf(s[1..], vw));
    }
  }

  /** Adding one weighted term keeps the bounds. */
  lemma WeightedStep(wx: real, vx: real, vwx: real, lo: real, hi: real, sw: real, svw: real)
    requires wx >= 0.0 && lo <= vx <= hi && vwx == wx * vx
    requires lo * sw <= svw <= hi * sw
    ensures lo * (wx + sw) <= vwx + svw <= hi * (wx + sw)
  {
    assert wx * (vx - lo) >= 0.0;
    assert wx * (hi - vx) >= 0.0;
  }

  /** The map that a loop `for t in s: m[key(t)] = val(t)` leaves behind. */
  function FoldWrite<T, K, V>(m: map<K, V>, s: seq<T>, key: T -> K, val: T -> V): map<K, V>
    decreases |s|
  {
    if s == [] then m
    else FoldWrite(m, s[..|s| - 1], key, val)[key(s[|s| - 1]) := val(s[|s| - 1])]
  }

  /** Writing only touches the keys of the written elements. */
  lemma {:induction false} FoldWriteOther<T, K, V>(m: map<K, V>, s: seq<T>, key: T -> K, val: T -> V, k: K)
    requires forall t :: t in s ==> key(t) != k
    ensures k in FoldWrite(m, s, key, val) <==> k in m
    ensures k in m ==> FoldWrite(m, s, key, val)[k] == m[k]
    decreases |s|
  {
    if s != [] {
      FoldWriteOther(m, s[..|s| - 1], key, val, k);
    }
  }

  /** Every written key is present afterwards. */
  lemma {:induction false} FoldWriteHas<T, K, V>(m: map<K, V>, s: seq<T>, key: T -> K, val: T -> V, i: nat)
    requires i < |s|
    ensures key(s[i]) in FoldWrite(m, s, key, val)
    decreases |s|
  {
    if i < |s| - 1 {
      FoldWriteHas(m, s[..|s| - 1], key, val, i);
    }
  }

  /** With pairwise distinct keys, each written key holds its own element's value. */
  lemma {:induction false} FoldWriteAt<T, K, V>(m: map<K, V>, s: seq<T>, key: T -> K, val: T -> V, i: nat)
    requires i < |s|
    requires forall a, b :: 0 <= a < b < |s| ==> key(s[a]) != key(s[b])
    ensures key(s[i]) in FoldWrite(m, s, key, val)
    ensures FoldWrite(m, s, key, val)[key(s[i])] == val(s[i])
    decreases |s|
  {
    if i < |s| - 1 {
      FoldWriteAt(m, s[..|s| - 1], key, val, i);
    }
  }
}
