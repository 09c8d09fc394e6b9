/** The timer arithmetic of nfex's top-level header: the PTIMERSUB macro,
    which subtracts one `struct timeval` from another and normalises the
    difference with a single borrow, and the MAX macro.

    A `struct timeval` is a whole number of seconds plus a number of
    microseconds. Its value is `Time`; the struct itself, which PTIMERSUB
    writes through a pointer, is the class `Timeval`. */
module Nfex {

  /** Microseconds in one second: the base of the `usec` digit. */
  const UsecPerSec: int := 1000000

  /** The value held by a `struct timeval`. */
  datatype Time = Time(sec: int, usec: int)

  /** The total number of microseconds a `Time` stands for. */
  function Micros(t: Time): int
  {
    t.sec * UsecPerSec + t.usec
  }

  /** A `Time` is normalised when its microsecond part is a proper digit
      in base 10^6, as a clock hands it out. */
  predicate Normalized(t: Time)
  {
    0 <= t.usec < UsecPerSec
  }

  /** The normalised `Time` standing for `n` microseconds: the reference
      against which the macro's single borrow is checked. */
  function FromMicros(n: int): (r: Time)
    ensures Normalized(r)
    ensures Micros(r) == n
  {
    Time(n / UsecPerSec, n % UsecPerSec)
  }

  /** There is only one normalised `Time` for each number of microseconds. */
  lemma NormalizedUnique(a: Time, b: Time)
    requires Normalized(a) && Normalized(b)
    requires Micros(a) == Micros(b)
    ensures a == b
  {
  }

  /** A normalised `Time` survives the trip through its microsecond count. */
  lemma FromMicrosOfMicros(t: Time)
    requires Normalized(t)
    ensures FromMicros(Micros(t)) == t
  {
    NormalizedUnique(FromMicros(Micros(t)), t);
  }

  /** What PTIMERSUB leaves in `*vvp`, as a function of the values of `*tvp`
      and `*uvp` before the macro runs. The result stands for the difference
      of the two operands; it borrows one second exactly when the
      microsecond parts would underflow; and it is normalised whenever both
      operands are. */
  function Diff(t: Time, u: Time): (r: Time)
    ensures Micros(r) == Micros(t) - Micros(u)
    ensures r.sec == t.sec - u.sec - (if t.usec < u.usec then 1 else 0)
    ensures Normalized(t) && Normalized(u) ==> Normalized(r)
  {
    var sec := t.sec - u.sec;
    var usec := t.usec - u.usec;
    if usec < 0 then Time(sec - 1, usec + UsecPerSec) else Time(sec, usec)
  }

  /** On normalised operands the single borrow yields the one normalised
      representation of the difference. */
  lemma DiffIsCanonical(t: Time, u: Time)
    requires Normalized(t) && Normalized(u)
    ensures Diff(t, u) == FromMicros(Micros(t) - Micros(u))
  {
    NormalizedUnique(Diff(t, u), FromMicros(Micros(t) - Micros(u)));
  }

  /** The result of one borrow is normalised exactly when the raw
      microsecond difference lies in [-10^6, 10^6): a second borrow is never
      performed, so operands further out of range give a result that is
      out of range too. */
  lemma DiffNormalizedIff(t: Time, u: Time)
    ensures Normalized(Diff(t, u)) <==> -UsecPerSec <= t.usec - u.usec < UsecPerSec
  {
  }

  /** The normalisation promise needs normalised operands: an operand with
      two seconds' worth of microseconds leaves an unnormalised result. */
  lemma DiffNeedsNormalizedOperands()
    ensures exists t: Time, u: Time :: Normalized(t) && !Normalized(Diff(t, u))
  {
    var t, u := Time(5, 0), Time(0, 2 * UsecPerSec);
    assert Diff(t, u) == Time(4, -UsecPerSec);
  }

  /** With normalised operands the seconds of the difference are
      non-negative exactly when `t` is not earlier than `u`. */
  lemma DiffSecNonNegativeIff(t: Time, u: Time)
    requires Normalized(t) && Normalized(u)
    ensures Diff(t, u).sec >= 0 <==> Micros(t) >= Micros(u)
  {
  }

  /** Two intervals measured from the same starting point differ by the
      interval between their end points. */
  lemma DiffShift(t: Time, u: Time, w: Time)
    requires Normalized(t) && Normalized(u) && Normalized(w)
    ensures Diff(Diff(t, w), Diff(u, w)) == Diff(t, u)
  {
    NormalizedUnique(Diff(Diff(t, w), Diff(u, w)), Diff(t, u));
  }

  /** Swapping the operands negates the difference: a whole number of
      seconds flips sign, and otherwise the borrow moves to the other side. */
  lemma DiffSwap(t: Time, u: Time)
    requires Normalized(t) && Normalized(u)
    ensures var d := Diff(t, u);
      Diff(u, t) == if d.usec == 0 then Time(-d.sec, 0) else Time(-d.sec - 1, UsecPerSec - d.usec)
  {
    var d := Diff(t, u);
    var e := if d.usec == 0 then Time(-d.sec, 0) else Time(-d.sec - 1, UsecPerSec - d.usec);
    NormalizedUnique(Diff(u, t), e);
  }

  /** Bounds of the C fields. `tv_sec` is a `time_t`, whose width depends
      on the platform: 64 bits on most, 32 bits on older 32-bit systems.
      `tv_usec` is a `suseconds_t`, at least 32 bits wide. */
  const Int64Min: int := -0x8000_0000_0000_0000
  const Int64Max: int := 0x7fff_ffff_ffff_ffff
  const Int32Min: int := -0x8000_0000
  const Int32Max: int := 0x7fff_ffff

  predicate InInt64(x: int) { Int64Min <= x <= Int64Max }
  predicate InInt32(x: int) { Int32Min <= x <= Int32Max }

  /** For normalised timestamps at or after the epoch, every value the macro
      stores, before and after the borrow, fits the C field it is stored in,
      whether `time_t` is 64 or 32 bits wide (for the latter, when both
      seconds fit in 32 bits), so the unbounded arithmetic of this model is
      the arithmetic C does. */
  lemma DiffFitsFields(t: Time, u: Time)
    requires Normalized(t) && Normalized(u)
    requires 0 <= t.sec <= Int64Max && 0 <= u.sec <= Int64Max
    ensures InInt64(t.sec - u.sec) && InInt64(Diff(t, u).sec)
    ensures t.sec <= Int32Max && u.sec <= Int32Max ==>
      InInt32(t.sec - u.sec) && InInt32(Diff(t, u).sec)
    ensures InInt32(t.usec - u.usec) && InInt32(Diff(t, u).usec)
  {
  }

  /** A `struct timeval`, read and written in place through pointers. */
  class Timeval {
    var sec: int
    var usec: int

    constructor (sec: int, usec: int)
      ensures this.sec == sec && this.usec == usec
    {
      this.sec := sec;
      this.usec := usec;
    }

    /** The value currently held. */
    function Value(): Time
      reads this
    {
      Time(sec, usec)
    }
  }

  /** PTIMERSUB(tvp, uvp, vvp): store `*tvp - *uvp` in `*vvp`, field by
      field, then borrow one second if the microseconds went negative.
      `v` may be the same object as `t` or `u`: each operand field is read
      before the matching field of `v` is written, and the borrow step only
      reads `v`. */
  method PTimerSub(t: Timeval, u: Timeval, v: Timeval)
    modifies v
    ensures v.Value() == Diff(old(t.Value()), old(u.Value()))
    ensures old(t.usec) >= old(u.usec) ==>
      v.sec == old(t.sec) - old(u.sec) && v.usec == old(t.usec) - old(u.usec)
    ensures old(t.usec) < old(u.usec) ==>
      v.sec == old(t.sec) - old(u.sec) - 1 && v.usec == old(t.usec) - old(u.usec) + UsecPerSec
    ensures t != v ==> t.Value() == old(t.Value())
    ensures u != v ==> u.Value() == old(u.Value())
  {
    v.sec := t.sec - u.sec;
    v.usec := t.usec - u.usec;
    if v.usec < 0 {
      v.sec := v.sec - 1;
      v.usec := v.usec + UsecPerSec;
    }
  }

  /** `PTIMERSUB(a, b, a)`: the result overwrites the first operand. */
  method SubIntoFirst(a: Timeval, b: Timeval)
    requires a != b
    modifies a
    ensures a.Value() == Diff(old(a.Value()), old(b.Value()))
    ensures b.Value() == old(b.Value())
  {
    PTimerSub(a, b, a);
  }

  /** `PTIMERSUB(a, b, b)`: the result overwrites the second operand. */
  method SubIntoSecond(a: Timeval, b: Timeval)
    requires a != b
    modifies b
    ensures b.Value() == Diff(old(a.Value()), old(b.Value()))
    ensures a.Value() == old(a.Value())
  {
    PTimerSub(a, b, b);
  }

  /** `PTIMERSUB(a, a, a)`: one struct is every operand, and it becomes zero. */
  method SubSelf(a: Timeval)
    modifies a
    ensures a.Value() == Diff(old(a.Value()), old(a.Value())) == Time(0, 0)
  {
    PTimerSub(a, a, a);
  }

  /** MAX(x, y): the larger of its arguments (`y` when they are equal). */
  function Max(x: int, y: int): (r: int)
    ensures r >= x && r >= y
    ensures r == x || r == y
  {
    if x > y then x else y
  }
}
