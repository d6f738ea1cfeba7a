/** The fallback bodies of evutil_timeradd, evutil_timersub and evutil_timercmp. */
module Timeval {

  const MILLION: int := 1_000_000

  /** The value of a struct timeval. */
  datatype Tv = Tv(sec: int, usec: int)

  predicate Normal(t: Tv) { 0 <= t.usec < MILLION }

  function Micros(t: Tv): int { t.sec * MILLION + t.usec }

  function Sum(t: Tv, u: Tv): Tv {
    var r := Tv(t.sec + u.sec, t.usec + u.usec);
    if r.usec >= MILLION then Tv(r.sec + 1, r.usec - MILLION) else r
  }

  function Difference(t: Tv, u: Tv): Tv {
    var r := Tv(t.sec - u.sec, t.usec - u.usec);
    if r.usec < 0 then Tv(r.sec - 1, r.usec + MILLION) else r
  }

  datatype Op = EQ | LE | LT | GE | GT

  predicate Holds(op: Op, a: int, b: int) {
    match op
    case EQ => a == b
    case LE => a <= b
    case LT => a < b
    case GE => a >= b
    case GT => a > b
  }

  predicate TimerCmp(t: Tv, u: Tv, op: Op) {
    if t.sec == u.sec then Holds(op, t.usec, u.usec) else Holds(op, t.sec, u.sec)
  }

  class Cell {
    var sec: int
    var usec: int

    constructor (t: Tv)
      ensures Value() == t
    {
      sec, usec := t.sec, t.usec;
    }

    function Value(): Tv
      reads this
    {
      Tv(sec, usec)
    }
  }

  /** The macro writes through vvp field by field while it still reads tvp and uvp. The result is the
      same whichever of the three pointers are equal. */
  method TimerAdd(tvp: Cell, uvp: Cell, vvp: Cell)
    modifies vvp
    ensures vvp.Value() == Sum(old(tvp.Value()), old(uvp.Value()))
  {
    vvp.sec := tvp.sec + uvp.sec;
    vvp.usec := tvp.usec + uvp.usec;
    if vvp.usec >= MILLION {
      vvp.sec := vvp.sec + 1;
      vvp.usec := vvp.usec - MILLION;
    }
  }

  method TimerSub(tvp: Cell, uvp: Cell, vvp: Cell)
    modifies vvp
    ensures vvp.Value() == Difference(old(tvp.Value()), old(uvp.Value()))
  {
    vvp.sec := tvp.sec - uvp.sec;
    vvp.usec := tvp.usec - uvp.usec;
    if vvp.usec < 0 {
      vvp.sec := vvp.sec - 1;
      vvp.usec := vvp.usec + MILLION;
    }
  }

  /** A normalised value is determined by its microseconds. */
  lemma NormalIsUnique(t: Tv, u: Tv)
    requires Normal(t) && Normal(u) && Micros(t) == Micros(u)
    ensures t == u
  {
  }

  /** Addition is integer addition of microseconds. One carry normalises the result exactly if the
      microsecond fields add up to less than two seconds, as those of normalised values do. */
  lemma SumIsAddition(t: Tv, u: Tv)
    ensures Micros(Sum(t, u)) == Micros(t) + Micros(u)
    ensures Normal(Sum(t, u)) <==> 0 <= t.usec + u.usec < 2_000_000
    ensures Normal(t) && Normal(u) ==> Normal(Sum(t, u))
  {
  }

  lemma DifferenceIsSubtraction(t: Tv, u: Tv)
    ensures Micros(Difference(t, u)) == Micros(t) - Micros(u)
    ensures Normal(Difference(t, u)) <==> -1_000_000 <= t.usec - u.usec < 1_000_000
    ensures Normal(t) && Normal(u) ==> Normal(Difference(t, u))
  {
  }

  /** Each undoes the other, and addition commutes and associates. */
  lemma Laws(t: Tv, u: Tv, w: Tv)
    requires Normal(t) && Normal(u) && Normal(w)
    ensures Difference(Sum(t, u), u) == t && Sum(Difference(t, u), u) == t
    ensures Sum(t, u) == Sum(u, t) && Sum(Sum(t, u), w) == Sum(t, Sum(u, w))
  {
    SumIsAddition(t, u);
    SumIsAddition(u, w);
    SumIsAddition(Sum(t, u), w);
    SumIsAddition(t, Sum(u, w));
    DifferenceIsSubtraction(t, u);
    DifferenceIsSubtraction(Sum(t, u), u);
    SumIsAddition(Difference(t, u), u);
    NormalIsUnique(Difference(Sum(t, u), u), t);
    NormalIsUnique(Sum(Difference(t, u), u), t);
    NormalIsUnique(Sum(Sum(t, u), w), Sum(t, Sum(u, w)));
  }

  /** All five comparisons agree with the order of the microseconds. */
  ghost predicate ComparesByTime(t: Tv, u: Tv) {
    forall op :: TimerCmp(t, u, op) <==> Holds(op, Micros(t), Micros(u))
  }

  /** The microseconds of the earlier second do not outweigh the seconds between the two. */
  predicate SecondsDecide(t: Tv, u: Tv) { t.sec < u.sec ==> t.usec - u.usec < 1_000_000 * (u.sec - t.sec) }

  /** The comparisons order by time exactly if the seconds decide, whichever value is the earlier:
      always when the seconds are equal, and always on normalised values. */
  lemma ComparesByTimeExactlyWhen(t: Tv, u: Tv)
    ensures ComparesByTime(t, u) <==> SecondsDecide(t, u) && SecondsDecide(u, t)
  {
    if t.sec < u.sec {
      assert Micros(u) - Micros(t) == MILLION * (u.sec - t.sec) - (t.usec - u.usec);
      assert TimerCmp(t, u, LT) && (Holds(LT, Micros(t), Micros(u)) <==> SecondsDecide(t, u));
    } else if u.sec < t.sec {
      assert Micros(t) - Micros(u) == MILLION * (t.sec - u.sec) - (u.usec - t.usec);
      assert TimerCmp(t, u, GT) && (Holds(GT, Micros(t), Micros(u)) <==> SecondsDecide(u, t));
    }
  }

  /** On normalised values every comparison is the comparison of the microseconds. */
  lemma ComparisonIsOrder(t: Tv, u: Tv, op: Op)
    requires Normal(t) && Normal(u)
    ensures TimerCmp(t, u, op) <==> Holds(op, Micros(t), Micros(u))
  {
    ComparesByTimeExactlyWhen(t, u);
  }

  /** Otherwise they need not be: these two are equal in microseconds. */
  lemma UnnormalisedCompareWrongly()
    ensures var t, u := Tv(0, 1_000_000), Tv(1, 0); Micros(t) == Micros(u) && TimerCmp(t, u, LT) && !TimerCmp(t, u, EQ)
  {
  }
}
