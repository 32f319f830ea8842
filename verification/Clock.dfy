/**
 Clock arithmetic of powerpack time.c, with the widths of its fields: 64 bits
 of seconds and 32 bits of nanoseconds.
 */
module Clock {
  import opened Wrappers

  const NSEC_IN_SEC := 1_000_000_000
  const MSEC_IN_SEC := 1_000
  const TWO_32 := 0x1_0000_0000
  const TWO_64 := 0x1_0000_0000_0000_0000

  type Uint32 = x: int | 0 <= x < TWO_32
  type Uint64 = x: int | 0 <= x < TWO_64

  /** The value of an eaf_clock_time_t; the nanoseconds need not be below a second. */
  datatype Time = Time(sec: Uint64, nsec: Uint32)
  {
    function Total(): nat
    {
      sec * NSEC_IN_SEC + nsec
    }

    predicate Normalised()
    {
      nsec < NSEC_IN_SEC
    }
  }

  /** The seconds of n nanoseconds fit in their field. */
  predicate Fits(n: nat)
  {
    n / NSEC_IN_SEC < TWO_64
  }

  /** The normalised time of n nanoseconds, the seconds cut to 64 bits. */
  function Wrapped(n: nat): (t: Time)
    ensures t.Normalised()
    ensures t.Total() == n % (TWO_64 * NSEC_IN_SEC)
    ensures Fits(n) ==> t.Total() == n
  {
    Time(n / NSEC_IN_SEC % TWO_64, n % NSEC_IN_SEC)
  }

  /** q seconds, of which w times 2^64 do not fit, and r nanoseconds. */
  lemma WrappedIs(q: nat, w: nat, r: nat, n: nat)
    requires q * NSEC_IN_SEC + r == n && r < NSEC_IN_SEC && w * TWO_64 <= q < (w + 1) * TWO_64
    ensures Fits(n) <==> w == 0
    ensures Wrapped(n) == Time(q - w * TWO_64, r)
  {
    SecondsAre(q, r, n);
    CutTo64(q, w);
  }

  lemma SecondsAre(q: nat, r: nat, n: nat)
    requires q * NSEC_IN_SEC + r == n && r < NSEC_IN_SEC
    ensures n / NSEC_IN_SEC == q && n % NSEC_IN_SEC == r
  {
  }

  lemma CutTo64(q: nat, w: nat)
    requires w * TWO_64 <= q < (w + 1) * TWO_64
    ensures q % TWO_64 == q - w * TWO_64 && (q < TWO_64 <==> w == 0)
  {
  }

  /** A sum that has wrapped does not fit. */
  lemma WrapsIs(n: nat, w: nat, sec: Uint64, nsec: nat)
    requires n == (sec + w * TWO_64) * NSEC_IN_SEC + nsec && w > 0
    ensures !Fits(n)
  {
  }

  lemma NoFit(a: nat, b: nat)
    requires !Fits(a)
    ensures !Fits(a + b)
  {
  }

  lemma NotLess(a: nat, b: nat)
    requires !Fits(a) && a <= b
    ensures !Fits(b)
  {
  }

  lemma FmtWraps(t: Time, w: nat)
    requires w == if Fits(t.Total()) then 0 else 1
    ensures (Wrapped(t.Total()).sec + w * TWO_64) * NSEC_IN_SEC + Wrapped(t.Total()).nsec == t.Total()
  {
  }

  function Increment(sec: Uint64): Uint64
  {
    (sec + 1) % TWO_64
  }

  class Clock {
    var sec: Uint64
    var nsec: Uint32

    constructor (sec: Uint64, nsec: Uint32)
      ensures Value() == Time(sec, nsec)
    {
      this.sec := sec;
      this.nsec := nsec;
    }

    function Value(): Time
      reads this
    {
      Time(sec, nsec)
    }
  }

  /** The loop that carries whole seconds over; overflow tells that the seconds wrapped. */
  method Carry(sec: Uint64, nsec: Uint32) returns (s: Uint64, r: Uint32, overflow: bool)
    ensures r < NSEC_IN_SEC && r <= nsec
    ensures (s + (if overflow then TWO_64 else 0)) * NSEC_IN_SEC + r == sec * NSEC_IN_SEC + nsec
    ensures overflow <==> s < sec
  {
    s, r := sec, nsec;
    ghost var wraps := 0;
    while r >= NSEC_IN_SEC
      invariant 0 <= wraps <= 1 && sec <= s + wraps * TWO_64
      invariant (s + wraps * TWO_64 - sec) * NSEC_IN_SEC + r == nsec
      decreases r
    {
      wraps := if s == TWO_64 - 1 then wraps + 1 else wraps;
      s := Increment(s);
      r := r - NSEC_IN_SEC;
    }
    overflow := s < sec;
  }

  /** eaf_time_fmtclock_ext; dst and src may be the same clock. */
  method FmtClockExt(dst: Clock, src: Clock, ignore: bool) returns (ret: int)
    modifies dst
    ensures var n := old(src.Value().Total());
            && ret == (if Fits(n) then 0 else -1)
            && dst.Value() == (if ret == 0 || ignore then Wrapped(n) else old(dst.Value()))
  {
    var sec, nsec, overflow := Carry(src.sec, src.nsec);
    ghost var w := if overflow then 1 else 0;
    WrappedIs(sec + w * TWO_64, w, nsec, src.Value().Total());
    if !overflow || ignore {
      dst.sec, dst.nsec := sec, nsec;
    }
    ret := if overflow then -1 else 0;
  }

  /**
   The seconds of src wrap once when it is formatted, and the sum wraps once
   more: the two marks of overflow, -1 and 1, add up to none.
   */
  predicate Cancels(src: Time, dif: Time)
  {
    !Fits(src.Total()) && (src.Total() + dif.Total()) / NSEC_IN_SEC >= 2 * TWO_64
  }

  lemma CancelsFor()
    ensures var src, dif := Time(TWO_64 - 1, NSEC_IN_SEC), Time(TWO_64 - 1, NSEC_IN_SEC);
            Cancels(src, dif) && !Fits(src.Total() + dif.Total())
  {
  }

  /** The marks of overflow and the stored time, against the sum. */
  lemma Marks(src: Time, dif: Time, w0: nat, w: nat, sec: Uint64, nsec: Uint32)
    requires w0 == (if Fits(src.Total()) then 0 else 1) && nsec < NSEC_IN_SEC
    requires src.Total() + dif.Total() == (sec + w * TWO_64) * NSEC_IN_SEC + nsec
    ensures Wrapped(src.Total() + dif.Total()) == Time(sec, nsec)
    ensures Fits(src.Total() + dif.Total()) <==> w == 0
    ensures Cancels(src, dif) <==> w0 == 1 && w == 2
    ensures w <= 2
  {
    WrappedIs(sec + w * TWO_64, w, nsec, src.Total() + dif.Total());
  }

  /**
   The three steps that add dif to the formatted time t; marks counts those
   that overflow, and without the ignore flag the first of them stops.
   */
  method AddSteps(t: Time, dif: Time, ignore: bool) returns (sum: Time, marks: nat)
    requires t.Normalised()
    ensures marks > 0 ==> !Fits(t.Total() + dif.Total())
    ensures marks == 0 || ignore ==>
              sum.Normalised() && t.Total() + dif.Total() == (sum.sec + marks * TWO_64) * NSEC_IN_SEC + sum.nsec
  {
    hide Fits;
    ghost var n := t.Total() + dif.Total();
    var sec: Uint64 := (t.sec + dif.sec) % TWO_64;
    marks := if sec < t.sec then 1 else 0;
    assert (sec + marks * TWO_64) * NSEC_IN_SEC + t.nsec + dif.nsec == n;
    if marks != 0 && !ignore {
      WrapsIs(n, marks, sec, t.nsec + dif.nsec);
      return t, marks;
    }

    var sec2, nsec, overflow := Carry(sec, dif.nsec);
    marks := marks + if overflow then 1 else 0;
    assert (sec2 + marks * TWO_64) * NSEC_IN_SEC + t.nsec + nsec == n;
    if overflow && !ignore {
      WrapsIs(n, marks, sec2, t.nsec + nsec);
      return t, marks;
    }

    var sec3, nsec3, overflow3 := Carry(sec2, t.nsec + nsec);
    marks := marks + if overflow3 then 1 else 0;
    sum := Time(sec3, nsec3);
    if marks > 0 {
      WrapsIs(n, marks, sec3, nsec3);
    }
  }

  /**
   eaf_time_addclock_ext; dst may be the same clock as src or dif. Without the
   ignore flag the sum is exact, or dst is left alone. With it the sum is
   stored modulo 2^64 seconds, and the result misses an overflow exactly when
   two marks cancel.
   */
  method AddClockExt(dst: Clock, src: Clock, dif: Clock, ignore: bool) returns (ret: int)
    modifies dst
    ensures var n := old(src.Value().Total() + dif.Value().Total());
            && dst.Value() == (if Fits(n) || ignore then Wrapped(n) else old(dst.Value()))
            && ret == (if Fits(n) || (ignore && Cancels(old(src.Value()), old(dif.Value()))) then 0 else -1)
  {
    hide Fits, Wrapped, Cancels;
    var tmp := new Clock(0, 0);
    ghost var s, d := src.Value(), dif.Value();
    var flag := FmtClockExt(tmp, src, ignore);
    if flag != 0 && !ignore {
      NoFit(s.Total(), d.Total());
      return -1;
    }
    FmtWraps(s, -flag);
    var sum, marks := AddSteps(tmp.Value(), dif.Value(), ignore);
    if marks > 0 {
      NotLess(tmp.Value().Total() + d.Total(), s.Total() + d.Total());
      if !ignore {
        return -1;
      }
    }
    Marks(s, d, -flag, -flag + marks, sum.sec, sum.nsec);
    dst.sec, dst.nsec := sum.sec, sum.nsec;
    ret := if flag + marks != 0 then -1 else 0;
  }

  /** eaf_time_addclock. */
  method AddClock(dst: Clock, dif: Clock) returns (ret: int)
    modifies dst
    ensures var n := old(dst.Value().Total() + dif.Value().Total());
            && ret == (if Fits(n) then 0 else -1)
            && dst.Value() == (if ret == 0 then Wrapped(n) else old(dst.Value()))
  {
    ret := AddClockExt(dst, dst, dif, false);
  }

  /** eaf_time_addclock_msec. */
  method AddClockMsec(dst: Clock, msec: Uint64) returns (ret: int)
    modifies dst
    ensures var n := old(dst.Value().Total()) + msec * 1_000_000;
            && ret == (if Fits(n) then 0 else -1)
            && dst.Value() == (if ret == 0 then Wrapped(n) else old(dst.Value()))
  {
    var rest: Uint64, sec: Uint64 := msec, 0;
    while rest >= MSEC_IN_SEC
      invariant sec * MSEC_IN_SEC + rest == msec
      decreases rest
    {
      rest := rest - MSEC_IN_SEC;
      sec := Increment(sec);
    }
    var tmp := new Clock(sec, rest * 1000 * 1000);
    ret := AddClock(dst, tmp);
  }

  /** What AddClock makes of a clock. */
  function Added(t: Time, dif: nat): Option<Time>
  {
    if Fits(t.Total() + dif) then Some(Wrapped(t.Total() + dif)) else None
  }

  /** Two additions are one addition of the sum, overflow included. */
  lemma AddedTwice(t: Time, a: nat, b: nat)
    ensures Added(t, a + b) == if Added(t, a) == None then None else Added(Added(t, a).value, b)
  {
    hide Wrapped;
    if !Fits(t.Total() + a) {
      NoFit(t.Total() + a, b);
    }
  }

  /** An addition that succeeds moves a clock forward by exactly the amount. */
  lemma AddedLater(t: Time, a: nat)
    requires t.Normalised() && Added(t, a).Some?
    ensures Added(t, a).value.Total() == t.Total() + a
    ensures Compare(Added(t, a).value, t) == if a > 0 then 1 else 0
  {
    CompareTotal(Added(t, a).value, t);
  }

  /** The comparison of two clocks that decides every map order: seconds first, then nanoseconds. */
  function Compare(a: Time, b: Time): int
  {
    if a.sec != b.sec then (if a.sec < b.sec then -1 else 1)
    else if a.nsec != b.nsec then (if a.nsec < b.nsec then -1 else 1)
    else 0
  }

  lemma CompareTotal(a: Time, b: Time)
    requires a.Normalised() && b.Normalised()
    ensures Compare(a, b) == if a.Total() < b.Total() then -1 else if a.Total() > b.Total() then 1 else 0
  {
  }

  /** The difference that is stored: with a borrow the nanoseconds are subtracted the wrong way round. */
  function Difference(large: Time, little: Time): Time
    requires Compare(large, little) >= 0
  {
    if large.nsec < little.nsec then Time(large.sec - little.sec - 1, little.nsec - large.nsec)
    else Time(large.sec - little.sec, large.nsec - little.nsec)
  }

  /** It is right when nothing is borrowed, or when the amount is the same on both sides of the second. */
  predicate DiffExact(large: Time, little: Time)
  {
    large.nsec >= little.nsec || 2 * (little.nsec - large.nsec) == NSEC_IN_SEC
  }

  /** From a nanosecond past zero to one second: the difference is stored as one nanosecond. */
  lemma DiffInexactFor()
    ensures var large, little := Time(1, 0), Time(0, 1);
            && Compare(large, little) == 1 && !DiffExact(large, little)
            && Difference(large, little).Total() == 1 && large.Total() - little.Total() == 999_999_999
  {
  }

  /** eaf_time_diffclock; the result is the order of the clocks, whatever they hold. */
  method DiffClock(t1: Clock, t2: Clock) returns (ret: int, diff: Time)
    ensures ret == Compare(t1.Value(), t2.Value())
    ensures var large := if ret > 0 then t1.Value() else t2.Value();
            var little := if ret > 0 then t2.Value() else t1.Value();
            && Compare(large, little) >= 0 && diff == Difference(large, little)
            && (diff.Total() == large.Total() - little.Total() <==> DiffExact(large, little))
            && diff.Total() == large.Total() - little.Total()
                               - (if large.nsec < little.nsec then NSEC_IN_SEC - 2 * (little.nsec - large.nsec) else 0)
    ensures ret < 0 <==> t1.sec < t2.sec || (t1.sec == t2.sec && t1.nsec < t2.nsec)
    ensures ret == 0 <==> t1.sec == t2.sec && t1.nsec == t2.nsec
  {
    var large := if t1.sec > t2.sec then t1 else if t1.sec < t2.sec then t2 else if t1.nsec > t2.nsec then t1 else t2;
    var little := if large == t1 then t2 else t1;
    if large.nsec < little.nsec {
      diff := Time(large.sec - little.sec - 1, little.nsec - large.nsec);
    } else {
      diff := Time(large.sec - little.sec, large.nsec - little.nsec);
    }
    if diff.sec == 0 && diff.nsec == 0 {
      ret := 0;
    } else {
      ret := if t1 == little then -1 else 1;
    }
  }

  /** The order of clocks is total: the maps that are keyed by clocks never confuse two of them. */
  lemma CompareOrder(a: Time, b: Time, c: Time)
    ensures Compare(a, b) < 0 <==> a.sec < b.sec || (a.sec == b.sec && a.nsec < b.nsec)
    ensures Compare(a, b) == 0 <==> a == b
    ensures Compare(a, b) == -Compare(b, a)
    ensures Compare(a, b) <= 0 && Compare(b, c) <= 0 ==> Compare(a, c) <= 0
  {
  }
}
