/** Conversions between instants and the store's milliseconds, and between instants and the
    nanoseconds of the cursor file, with the source's 64-bit, truncating arithmetic. */
module DbTime {
  const MIN64: int := -0x8000_0000_0000_0000
  const MAX64: int := 0x7fff_ffff_ffff_ffff
  const BILLION: int := 1_000_000_000
  const MILLION: int := 1_000_000

  predicate Fits(x: int) { MIN64 <= x <= MAX64 }

  /** Division and remainder that truncate toward zero. */
  function Quo(x: int, d: int): int
    requires d > 0
  {
    if x >= 0 then x / d else -(-x / d)
  }

  function Rem(x: int, d: int): int
    requires d > 0
  {
    x - Quo(x, d) * d
  }

  function Wrap(x: int): int
  {
    (x - MIN64) % 0x1_0000_0000_0000_0000 + MIN64
  }

  /** An instant: whole seconds since 1970 and nanoseconds within the second. */
  datatype Time = Time(sec: int, nsec: int)

  /** The zero time, at the start of year 1. */
  const ZERO_TIME := Time(-62135596800, 0)

  function Unix(sec: int, nsec: int): Time
  {
    if 0 <= nsec < BILLION then Time(sec, nsec)
    else
      var n := Quo(nsec, BILLION);
      var rest := nsec - n * BILLION;
      if rest < 0 then Time(sec + n - 1, rest + BILLION) else Time(sec + n, rest)
  }

  function UnixNano(t: Time): int
  {
    Wrap(t.sec * BILLION + t.nsec)
  }

  predicate Sentinel(t: int) { t == 0 || t == MIN64 || t == MAX64 }

  function FromDbTime(t: int): Time
  {
    if Sentinel(t) then ZERO_TIME else Unix(Quo(t, 1000), Rem(t, 1000) * MILLION)
  }

  function ToDbTime(t: Time): int
  {
    Quo(UnixNano(t), MILLION)
  }

  /** The content of the cursor file, a decimal number, and the instant it is read back as. */
  function StoreLastWrite(t: Time): int { UnixNano(t) }

  function LoadLastWrite(i: int): Time
  {
    Unix(Quo(i, BILLION), Rem(i, BILLION))
  }

  lemma QuoRem(x: int, d: int)
    requires d > 0
    ensures x == Quo(x, d) * d + Rem(x, d) && -d < Rem(x, d) < d
    ensures x >= 0 ==> Rem(x, d) >= 0
    ensures x <= 0 ==> Rem(x, d) <= 0
  {
    if x >= 0 {
      assert x == d * (x / d) + x % d;
    } else {
      assert -x == d * (-x / d) + -x % d;
    }
  }

  /** Both kinds of instant denote the nanoseconds they were built from. */
  lemma UnixDenotes(sec: int, nsec: int)
    ensures var t := Unix(sec, nsec);
            t.sec * BILLION + t.nsec == sec * BILLION + nsec && 0 <= t.nsec < BILLION
  {
    QuoRem(nsec, BILLION);
  }

  lemma WrapFits(x: int)
    ensures Fits(Wrap(x))
    ensures Fits(x) ==> Wrap(x) == x
  {
  }

  lemma FromDbTimeDenotes(t: int)
    requires !Sentinel(t)
    ensures UnixNano(FromDbTime(t)) == Wrap(t * MILLION)
  {
    QuoRem(t, 1000);
    UnixDenotes(Quo(t, 1000), Rem(t, 1000) * MILLION);
  }

  /** Milliseconds survive the round trip exactly when they are no sentinel and their
      nanoseconds fit 64 bits. */
  lemma DbTimeRoundTrip(t: int)
    requires Fits(t)
    ensures ToDbTime(FromDbTime(t)) == t <==> !Sentinel(t) && Fits(t * MILLION)
  {
    if Sentinel(t) {
      assert UnixNano(ZERO_TIME) == -6795364578871345152;
    } else {
      FromDbTimeDenotes(t);
      WrapFits(t * MILLION);
      QuoRem(Wrap(t * MILLION), MILLION);
      if Fits(t * MILLION) {
        QuoRem(t * MILLION, MILLION);
      }
    }
  }

  /** What the numbers mean: the store's count milliseconds, those of the file nanoseconds. */
  lemma NumbersMean(t: int, i: int, instant: Time)
    ensures !Sentinel(t) ==> FromDbTime(t).sec * 1_000_000_000 + FromDbTime(t).nsec == t * 1_000_000
    ensures LoadLastWrite(i).sec * 1_000_000_000 + LoadLastWrite(i).nsec == i
    ensures 0 <= LoadLastWrite(i).nsec < 1_000_000_000
    ensures Fits(instant.sec * 1_000_000_000 + instant.nsec) ==>
              StoreLastWrite(instant) == instant.sec * 1_000_000_000 + instant.nsec
  {
    QuoRem(t, 1000);
    UnixDenotes(Quo(t, 1000), Rem(t, 1000) * MILLION);
    QuoRem(i, BILLION);
    UnixDenotes(Quo(i, BILLION), Rem(i, BILLION));
    WrapFits(instant.sec * 1_000_000_000 + instant.nsec);
  }

  /** The cursor read back from the file is the instant that was stored. */
  lemma LastWriteRoundTrip(t: Time)
    requires 0 <= t.nsec < BILLION && Fits(t.sec * BILLION + t.nsec)
    ensures LoadLastWrite(StoreLastWrite(t)) == t
  {
    var i := t.sec * BILLION + t.nsec;
    WrapFits(i);
    QuoRem(i, BILLION);
    UnixDenotes(Quo(i, BILLION), Rem(i, BILLION));
  }

  /** And every 64-bit number in the file denotes an instant that is stored as that number. */
  lemma LastWriteFileRoundTrip(i: int)
    requires Fits(i)
    ensures StoreLastWrite(LoadLastWrite(i)) == i
  {
    QuoRem(i, BILLION);
    UnixDenotes(Quo(i, BILLION), Rem(i, BILLION));
    WrapFits(i);
  }
}
