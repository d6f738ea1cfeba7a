/**
  The rate-limited logging macros: static counters that decide, call after call, whether a message
  is written. The counters are 32-bit ints; an increment beyond INT_MAX is undefined behaviour and
  ends a run with `Undefined`.
 */
module LogCounters {
  import opened Basics

  const INT_MAX: int := 0x7fff_ffff

  /** LOG_OCCURRENCES and LOG_OCCURRENCES_MOD_N. */
  datatype Counters = Counters(occurrences: int, modN: int)

  const ZERO: Counters := Counters(0, 0)

  /** After one execution of a macro: the counters, and the counter that the message carries, if
      there is a message. */
  datatype Outcome = Undefined | Silent(c: Counters) | Message(c: Counters, counter: int)

  predicate Fits(x: int) { x <= INT_MAX }

  /** SOME_KIND_OF_LOG_EVERY_N and SOME_KIND_OF_PLOG_EVERY_N. */
  function EveryN(c: Counters, n: int): Outcome {
    var occ, m := c.occurrences + 1, c.modN + 1;
    if !Fits(occ) || !Fits(m) then Undefined
    else
      var m' := if m > n then m - n else m;
      if !Fits(m') then Undefined
      else if m' == 1 then Message(Counters(occ, m'), occ) else Silent(Counters(occ, m'))
  }

  /** SOME_KIND_OF_LOG_IF_EVERY_N; the modulus is evaluated only if the condition holds. The counter is
      never negative, so C's remainder and the Euclidean one agree, for negative n too. */
  function IfEveryN(c: Counters, n: int, condition: bool): Outcome {
    var occ := c.occurrences + 1;
    if !Fits(occ) || (condition && (n == 0 || !Fits(c.modN + 1))) then Undefined
    else if !condition then Silent(c.(occurrences := occ))
    else
      var m := (c.modN + 1) % n;
      if m == 1 % n then Message(Counters(occ, m), occ) else Silent(Counters(occ, m))
  }

  /** SOME_KIND_OF_LOG_FIRST_N. */
  function FirstN(c: Counters, n: int): Outcome {
    var occ := if c.occurrences <= n then c.occurrences + 1 else c.occurrences;
    if !Fits(occ) then Undefined
    else if occ <= n then Message(c.(occurrences := occ), occ) else Silent(c.(occurrences := occ))
  }

  // ---------------------------------------------------------------- as the macros run

  /** The static counters of one use of EVERY_N or PLOG_EVERY_N. */
  class EveryNSite {
    var occurrences: int
    var modN: int

    constructor ()
      ensures occurrences == 0 && modN == 0
    {
      occurrences, modN := 0, 0;
    }

    method Hit(n: int) returns (message: bool)
      requires !EveryN(Counters(occurrences, modN), n).Undefined?
      modifies this
      ensures EveryN(old(Counters(occurrences, modN)), n)
           == if message then Message(Counters(occurrences, modN), occurrences) else Silent(Counters(occurrences, modN))
    {
      occurrences := occurrences + 1;
      modN := modN + 1;
      if modN > n {
        modN := modN - n;
      }
      message := modN == 1;
    }
  }

  /** The static counters of one use of IF_EVERY_N. */
  class IfEveryNSite {
    var occurrences: int
    var modN: int

    constructor ()
      ensures occurrences == 0 && modN == 0
    {
      occurrences, modN := 0, 0;
    }

    method Hit(n: int, condition: bool) returns (message: bool)
      requires !IfEveryN(Counters(occurrences, modN), n, condition).Undefined?
      modifies this
      ensures IfEveryN(old(Counters(occurrences, modN)), n, condition)
           == if message then Message(Counters(occurrences, modN), occurrences) else Silent(Counters(occurrences, modN))
    {
      occurrences := occurrences + 1;
      message := false;
      if condition {
        modN := (modN + 1) % n;
        message := modN == 1 % n;
      }
    }
  }

  /** The static counter of one use of FIRST_N. */
  class FirstNSite {
    var occurrences: int

    constructor ()
      ensures occurrences == 0
    {
      occurrences := 0;
    }

    method Hit(n: int) returns (message: bool)
      requires !FirstN(Counters(occurrences, 0), n).Undefined?
      modifies this
      ensures FirstN(old(Counters(occurrences, 0)), n)
           == if message then Message(Counters(occurrences, 0), occurrences) else Silent(Counters(occurrences, 0))
    {
      if occurrences <= n {
        occurrences := occurrences + 1;
      }
      message := occurrences <= n;
    }
  }

  // ---------------------------------------------------------------- EVERY_N

  /** The outcome of call number k. */
  function EveryAt(n: int, k: nat): Outcome
    requires k >= 1
  {
    if k == 1 then EveryN(ZERO, n)
    else match EveryAt(n, k - 1) case Undefined => Undefined case prev => EveryN(prev.c, n)
  }

  /** The counter that call k leaves in LOG_OCCURRENCES_MOD_N. */
  function ModAfter(n: int, k: nat): int
    requires k >= 1
  {
    if n >= 1 then (k - 1) % n + 1 else k * (1 - n)
  }

  lemma ModSuccessor(a: nat, n: int)
    requires n >= 1
    ensures (a + 1) % n == if a % n + 1 == n then 0 else a % n + 1
  {
    var q, r := a / n, a % n;
    assert a == q * n + r;
    if r + 1 == n {
      assert a + 1 == (q + 1) * n;
      Remainder(q + 1, 0, n);
    } else {
      Remainder(q, r + 1, n);
    }
  }

  lemma Remainder(q: int, r: int, n: int)
    requires 0 <= r < n
    ensures (q * n + r) % n == r && (q * n + r) / n == q
  {
    var x := q * n + r;
    var q', r' := x / n, x % n;
    assert x == q' * n + r';
    SameQuotient(q, r, q', r', n);
  }

  lemma SameQuotient(q: int, r: int, q': int, r': int, n: int)
    requires 0 <= r < n && 0 <= r' < n && q * n + r == q' * n + r'
    ensures q == q' && r == r'
  {
    assert (q - q') * n == q * n - q' * n && (q' - q) * n == q' * n - q * n;
    if q > q' {
      AtLeastOnce(q - q', n);
    } else if q < q' {
      AtLeastOnce(q' - q, n);
    }
  }

  lemma AtLeastOnce(d: int, n: int)
    requires d >= 1 && n >= 1
    ensures d * n >= n
  {
  }

  /** For every n, call k writes a message exactly if (k - 1) mod n = 0; with n = 0 only the first call
      does, with a negative n none. The message carries k. A run is defined up to call INT_MAX, for
      n <= 0 only while k * (1 - n) is an int. */
  lemma {:induction false} EverySchedule(n: int, k: nat)
    requires k >= 1
    ensures EveryAt(n, k).Undefined? <==> k > 2_147_483_647 || ModAfter(n, k) > 2_147_483_647
    ensures !EveryAt(n, k).Undefined? ==> EveryAt(n, k).c == Counters(k, ModAfter(n, k))
    ensures !EveryAt(n, k).Undefined? ==>
      (EveryAt(n, k).Message? <==> if n >= 1 then (k - 1) % n == 0 else n == 0 && k == 1)
    ensures EveryAt(n, k).Message? ==> EveryAt(n, k).counter == k
  {
    if k > 1 {
      EverySchedule(n, k - 1);
    }
    if n >= 1 {
      if k == 1 {
        Remainder(0, 0, n);
      } else {
        ModSuccessor(k - 2, n);
        ModAtMost(k - 1, n);
        ModAtMost(k - 2, n);
      }
    } else {
      assert k > 1 ==> k * (1 - n) == (k - 1) * (1 - n) + (1 - n);
      assert k * (1 - n) >= k;
    }
  }

  lemma ModAtMost(a: nat, n: int)
    requires n >= 1
    ensures 0 <= a % n <= a
  {
    assert a == (a / n) * n + a % n;
    assert a / n >= 0;
    assert (a / n) * n >= 0;
  }

  // ---------------------------------------------------------------- IF_EVERY_N

  function IfEveryAt(n: int, conditions: seq<bool>): Outcome
    requires conditions != []
  {
    var k := |conditions| - 1;
    if k == 0 then IfEveryN(ZERO, n, conditions[0])
    else match IfEveryAt(n, conditions[..k]) case Undefined => Undefined case prev => IfEveryN(prev.c, n, conditions[k])
  }

  function Trues(conditions: seq<bool>): nat {
    if conditions == [] then 0
    else Trues(conditions[..|conditions| - 1]) + if conditions[|conditions| - 1] then 1 else 0
  }

  /** How many of the calls wrote a message. */
  function Messages(n: int, conditions: seq<bool>): nat {
    if conditions == [] then 0
    else Messages(n, conditions[..|conditions| - 1]) + if IfEveryAt(n, conditions).Message? then 1 else 0
  }

  function Ceil(a: nat, n: int): int
    requires n >= 1
  {
    (a + n - 1) / n
  }

  lemma {:induction false} TruesAtMost(conditions: seq<bool>)
    ensures Trues(conditions) <= |conditions|
  {
    if conditions != [] {
      TruesAtMost(conditions[..|conditions| - 1]);
    }
  }

  /** The modulus form counts the true conditions, but its messages carry the number of calls. */
  lemma {:induction false} IfEverySchedule(n: int, conditions: seq<bool>)
    requires n >= 1 && conditions != [] && Fits(|conditions|)
    ensures var o, c := IfEveryAt(n, conditions), Trues(conditions);
      && !o.Undefined? && o.c == Counters(|conditions|, c % n)
      && (o.Message? <==> conditions[|conditions| - 1] && (c - 1) % n == 0)
      && (o.Message? ==> o.counter == |conditions|)
  {
    var k := |conditions| - 1;
    var front := conditions[..k];
    TruesAtMost(front);
    Remainder(0, 0, n);
    if k > 0 {
      IfEverySchedule(n, front);
    }
    CountOneMore(Trues(front), n);
    ModAtMost(Trues(front), n);
  }

  lemma CountOneMore(t: nat, n: int)
    requires n >= 1
    ensures (t % n + 1) % n == (t + 1) % n && 0 % n == 0
    ensures (t + 1) % n == 1 % n <==> t % n == 0
  {
    Remainder(0, t % n, n);
    Remainder(0, 0, n);
    ModSuccessor(t, n);
    ModSuccessor(t % n, n);
    ModSuccessor(0, n);
  }

  lemma CeilSuccessor(a: nat, n: int)
    requires n >= 1
    ensures Ceil(a + 1, n) == Ceil(a, n) + if a % n == 0 then 1 else 0
    ensures Ceil(0, n) == 0
  {
    var q, r := a / n, a % n;
    assert a == q * n + r;
    Remainder(0, n - 1, n);
    if r == 0 {
      Remainder(q, n - 1, n);
      Remainder(q + 1, 0, n);
      assert a + 1 + n - 1 == (q + 1) * n + 0;
      assert a + n - 1 == q * n + (n - 1);
    } else {
      Remainder(q + 1, r - 1, n);
      Remainder(q + 1, r, n);
      assert a + n - 1 == (q + 1) * n + (r - 1);
      assert a + 1 + n - 1 == (q + 1) * n + r;
    }
  }

  /** Over any conditions of which c hold, exactly ceil(c / n) messages are written. */
  lemma {:induction false} IfEveryTotal(n: int, conditions: seq<bool>)
    requires n >= 1 && Fits(|conditions|)
    ensures Messages(n, conditions) == Ceil(Trues(conditions), n)
  {
    CeilSuccessor(0, n);
    if conditions != [] {
      var front := conditions[..|conditions| - 1];
      IfEveryTotal(n, front);
      IfEverySchedule(n, conditions);
      CeilSuccessor(Trues(front), n);
    }
  }

  /** A negative n limits like its absolute value. */
  lemma {:induction false} IfEverySign(n: int, conditions: seq<bool>)
    requires n >= 1 && conditions != []
    ensures IfEveryAt(-n, conditions) == IfEveryAt(n, conditions)
  {
    var k := |conditions| - 1;
    if k > 0 {
      IfEverySign(n, conditions[..k]);
    }
    assert forall x: int :: x % -n == x % n;
  }

  /** A run is defined exactly up to call INT_MAX, and with n = 0 up to the first true condition. */
  lemma {:induction false} IfEveryUndefined(n: int, conditions: seq<bool>)
    requires conditions != []
    ensures IfEveryAt(n, conditions).Undefined? <==> |conditions| > 2_147_483_647 || (n == 0 && true in conditions)
  {
    if n < 0 {
      IfEverySign(-n, conditions);
      IfEveryUndefinedFor(-n, conditions);
    } else {
      IfEveryUndefinedFor(n, conditions);
    }
  }

  lemma {:induction false} IfEveryUndefinedFor(n: nat, conditions: seq<bool>)
    requires conditions != []
    ensures IfEveryAt(n, conditions).Undefined? <==> !Fits(|conditions|) || (n == 0 && true in conditions)
    ensures n == 0 && !IfEveryAt(n, conditions).Undefined? ==> IfEveryAt(n, conditions).c.occurrences == |conditions|
  {
    var k := |conditions| - 1;
    var front := conditions[..k];
    assert conditions == front + [conditions[k]];
    if k > 0 {
      IfEveryUndefinedFor(n, front);
    }
    if n >= 1 && Fits(|conditions|) {
      IfEverySchedule(n, conditions);
    } else if n >= 1 && k > 0 && Fits(k) {
      IfEverySchedule(n, front);
    }
  }

  function Always(k: nat): (r: seq<bool>) { seq(k, i => true) }

  /** The subtracting and the dividing counter agree, call by call, when the condition always holds:
      the same calls write, and they carry the same counter. */
  lemma TwoFormsAgree(n: int, k: nat)
    requires n >= 1 && 1 <= k && Fits(k)
    ensures var e, i := EveryAt(n, k), IfEveryAt(n, Always(k));
      && !e.Undefined? && !i.Undefined?
      && (e.Message? <==> i.Message?) && (e.Message? ==> e.counter == i.counter)
  {
    EverySchedule(n, k);
    ModAtMost(k - 1, n);
    IfEverySchedule(n, Always(k));
    AlwaysTrue(k);
  }

  lemma {:induction false} AlwaysTrue(k: nat)
    ensures Trues(Always(k)) == k
  {
    if k > 0 {
      AlwaysTrue(k - 1);
      assert Always(k)[..k - 1] == Always(k - 1);
    }
  }

  // ---------------------------------------------------------------- FIRST_N

  function FirstAt(n: int, k: nat): Outcome
    requires k >= 1
  {
    if k == 1 then FirstN(ZERO, n)
    else match FirstAt(n, k - 1) case Undefined => Undefined case prev => FirstN(prev.c, n)
  }

  function FirstMessages(n: int, k: nat): nat {
    if k == 0 then 0 else FirstMessages(n, k - 1) + if FirstAt(n, k).Message? then 1 else 0
  }

  /** Exactly the first n calls write, call k with counter k; the counter stops at n + 1. It overflows
      only if n is INT_MAX and more calls than that are made. */
  lemma {:induction false} FirstSchedule(n: int, k: nat)
    requires k >= 1 && n <= INT_MAX
    ensures FirstAt(n, k).Undefined? <==> n == 2_147_483_647 && k > 2_147_483_647
    ensures !FirstAt(n, k).Undefined? ==> FirstAt(n, k).c.occurrences == Max(0, Min(k, n + 1))
    ensures !FirstAt(n, k).Undefined? ==> (FirstAt(n, k).Message? <==> k <= n)
    ensures FirstAt(n, k).Message? ==> FirstAt(n, k).counter == k
  {
    if k > 1 {
      FirstSchedule(n, k - 1);
    }
  }

  /** Any number of calls writes min(calls, n) messages, as long as the counter is defined. */
  lemma {:induction false} FirstTotal(n: int, k: nat)
    requires n < INT_MAX || (n == INT_MAX && k <= INT_MAX)
    ensures FirstMessages(n, k) == Max(0, Min(k, n))
  {
    if k > 0 {
      FirstTotal(n, k - 1);
      FirstSchedule(n, k);
    }
  }
}
