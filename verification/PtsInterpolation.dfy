/** Time stamps of access units for which the user gave none. */
module PtsInterpolation {
  import opened MachineInts

  const UNSET := TimeStamp(TS_INVALID, TS_INVALID)

  datatype CorrectPtsType =
    | LpcmHdmv | LpcmDvd | Atracx48000 | Atracx44100 | Atracx32000 | Ac3 | Atrac3
    | Mp3_48000 | Mp3_44100 | Mp3_32000 | Atrac3Multi | Unspecified

  /** How the stamp is corrected: here, or by a function of the codec, which answers with a status and
      leaves the access unit a stamp. */
  datatype Correction = Here(t: CorrectPtsType) | ByCodec(ok: bool, au: TimeStamp)

  function PtsAdjust(t: CorrectPtsType): u32 {
    match t
    case LpcmHdmv => 450
    case LpcmDvd => 150
    case Atracx48000 => 3840
    case Atracx44100 => 4180
    case Atracx32000 => 5760
    case Ac3 => 2880
    case Atrac3 => 4180
    case Mp3_48000 => 2160
    case Mp3_44100 => 2351
    case Mp3_32000 => 3240
    case Atrac3Multi => 3840
    case Unspecified => 0
  }

  /** The samples that an adjustment stands for, and how many of them make a second. */
  function SamplesOf(t: CorrectPtsType): (nat, nat) {
    match t
    case LpcmHdmv => (240, 48000)
    case LpcmDvd => (80, 48000)
    case Atracx48000 => (2048, 48000)
    case Atracx44100 => (2048, 44100)
    case Atracx32000 => (2048, 32000)
    case Ac3 => (1536, 48000)
    case Atrac3 => (2048, 44100)
    case Mp3_48000 => (1152, 48000)
    case Mp3_44100 => (1152, 44100)
    case Mp3_32000 => (1152, 32000)
    case Atrac3Multi => (2048, 48000)
    case Unspecified => (0, 48000)
  }

  /** Each adjustment is the length of those in ticks of the 90 kHz clock, to the nearest tick. */
  lemma AdjustIsDuration(t: CorrectPtsType)
    ensures var (samples, rate) := SamplesOf(t);
            -(rate as int) <= 2 * (PtsAdjust(t) * rate - samples * 90000) <= rate
  {
  }

  /** Status, the stamp of the access unit, and the stamp remembered for the next one. */
  datatype Corrected = Corrected(ok: bool, au: TimeStamp, previous: TimeStamp)

  function CorrectPts(previous: TimeStamp, au: TimeStamp, adjust: u32): Corrected {
    if au.upper == TS_INVALID then
      if au.lower != TS_INVALID then Corrected(false, au, previous)
      else if previous == UNSET then Corrected(true, au, previous)
      else
        var lower := Wrap32(previous.lower + adjust);
        var upper := if lower < previous.lower then Wrap32(previous.upper + 1) % 2 else previous.upper;
        var filled := TimeStamp(upper, lower);
        if upper == TS_INVALID then Corrected(false, filled, previous)
        else Keep(filled, previous)
    else Keep(au, previous)
  }

  function Keep(au: TimeStamp, previous: TimeStamp): Corrected {
    if au.lower == TS_INVALID then Corrected(false, au, previous) else Corrected(true, au, au)
  }

  predicate IsGiven(t: TimeStamp) {
    t.upper != TS_INVALID && t.lower != TS_INVALID
  }

  /** A stamp that comes with the unit is kept and remembered. Half a stamp is refused and forgotten.
      Without a stamp to go on from, a unit without one is let through as it is. */
  lemma WithoutInterpolation(previous: TimeStamp, au: TimeStamp, adjust: u32)
    ensures IsGiven(au) ==> CorrectPts(previous, au, adjust) == Corrected(true, au, au)
    ensures !IsGiven(au) && au != UNSET ==> CorrectPts(previous, au, adjust) == Corrected(false, au, previous)
    ensures previous == UNSET ==> CorrectPts(previous, UNSET, adjust) == Corrected(true, UNSET, UNSET)
  {
  }

  /** A stamp of the 33-bit clock. */
  predicate IsClock(t: TimeStamp) { t.upper <= 1 }

  const CLOCK := 0x2_0000_0000

  /** One interpolation step is addition on the 33-bit clock, and is refused exactly when the low
      word of the sum is the one reserved for unset stamps; then nothing is remembered. */
  lemma InterpolationIsAddition(previous: TimeStamp, adjust: u32)
    requires IsClock(previous)
    ensures var r := CorrectPts(previous, UNSET, adjust);
            && IsClock(r.au) && JoinTimeStamp(r.au) == (JoinTimeStamp(previous) + adjust) % CLOCK
            && (r.ok <==> r.au.lower != TS_INVALID)
            && r.previous == if r.ok then r.au else previous
  {
    var sum := previous.lower + adjust as int;
    if sum < 0x1_0000_0000 {
      assert Wrap32(sum) == sum >= previous.lower;
      SmallClock(previous.upper * 0x1_0000_0000 + sum);
    } else {
      CarryWord(sum);
      if previous.upper == 0 {
        SmallClock(sum);
      } else {
        CarryClock(0x1_0000_0000 + sum);
      }
    }
  }

  lemma SmallClock(x: nat)
    requires x < CLOCK
    ensures x % CLOCK == x
  {
  }

  lemma CarryClock(x: nat)
    requires CLOCK <= x < 2 * CLOCK
    ensures x % CLOCK == x - CLOCK
  {
  }

  lemma CarryWord(x: nat)
    requires 0x1_0000_0000 <= x < 0x2_0000_0000
    ensures Wrap32(x) == x - 0x1_0000_0000
  {
  }

  /** Low word of the clock `k` steps after `base`. */
  function LowAfter(base: nat, adjust: nat, k: nat): nat {
    (base + k * adjust) % 0x1_0000_0000
  }

  /** The stamp remembered after `k` units without stamps. */
  function Remembered(previous: TimeStamp, adjust: u32, k: nat): TimeStamp
    decreases k, 1
  {
    if k == 0 then previous else Kth(previous, adjust, k).previous
  }

  /** What the `k`-th of them gets. */
  function Kth(previous: TimeStamp, adjust: u32, k: nat): Corrected
    requires 0 < k
    decreases k, 0
  {
    CorrectPts(Remembered(previous, adjust, k - 1), UNSET, adjust)
  }

  /** As long as no step has hit the reserved low word, the k-th result is the base advanced by k
      adjustments on the 33-bit clock. */
  lemma {:induction false} RunAdvances(previous: TimeStamp, adjust: u32, k: nat)
    requires IsClock(previous) && 0 < k
    requires forall j :: 0 < j < k ==> LowAfter(JoinTimeStamp(previous), adjust, j) != TS_INVALID
    ensures var r := Kth(previous, adjust, k);
            && IsClock(r.au) && JoinTimeStamp(r.au) == (JoinTimeStamp(previous) + k * adjust) % CLOCK
            && (r.ok <==> LowAfter(JoinTimeStamp(previous), adjust, k) != TS_INVALID)
            && (r.ok ==> r.previous == r.au)
    decreases k
  {
    hide CorrectPts, JoinTimeStamp, IsClock;
    var base := JoinTimeStamp(previous);
    if k == 1 {
      ClockValue(previous);
      OneMore(previous, adjust, base);
    } else {
      RunAdvances(previous, adjust, k - 1);
      var last := Kth(previous, adjust, k - 1);
      assert LowAfter(base, adjust, k - 1) != TS_INVALID;
      OneMore(last.au, adjust, base + (k - 1) * adjust);
      assert base + (k - 1) * adjust + adjust == base + k * adjust;
    }
  }

  lemma ClockValue(t: TimeStamp)
    requires IsClock(t)
    ensures JoinTimeStamp(t) < CLOCK && JoinTimeStamp(t) % CLOCK == JoinTimeStamp(t)
  {
  }

  lemma JoinLow(t: TimeStamp)
    ensures JoinTimeStamp(t) % 0x1_0000_0000 == t.lower
  {
  }

  lemma LowWord(x: nat)
    ensures x % CLOCK % 0x1_0000_0000 == x % 0x1_0000_0000
  {
    var q := x / CLOCK;
    assert x == (2 * q) * 0x1_0000_0000 + x % CLOCK;
  }

  lemma ClockSum(x: nat, adjust: nat)
    ensures (x % CLOCK + adjust) % CLOCK == (x + adjust) % CLOCK
  {
    var q := x / CLOCK;
    assert x + adjust == q * CLOCK + (x % CLOCK + adjust);
  }

  lemma OneMore(last: TimeStamp, adjust: u32, x: nat)
    requires IsClock(last) && JoinTimeStamp(last) == x % CLOCK
    ensures var r := CorrectPts(last, UNSET, adjust);
            && IsClock(r.au) && JoinTimeStamp(r.au) == (x + adjust) % CLOCK
            && (r.ok <==> (x + adjust) % 0x1_0000_0000 != TS_INVALID)
            && r.previous == if r.ok then r.au else last
  {
    InterpolationIsAddition(last, adjust);
    hide CorrectPts;
    ClockSum(x, adjust);
    LowWord(x + adjust);
    JoinLow(CorrectPts(last, UNSET, adjust).au);
  }

  /** Once a step has been refused, so is every later one until the user supplies a stamp. */
  lemma {:induction false} RefusalIsPermanent(previous: TimeStamp, adjust: u32, n: nat, k: nat)
    requires IsClock(previous) && 0 < n <= k && !Kth(previous, adjust, n).ok
    ensures Kth(previous, adjust, k) == Kth(previous, adjust, n)
    decreases k
  {
    if n < k {
      RefusalIsPermanent(previous, adjust, n, k - 1);
      assert Kth(previous, adjust, k - 1).previous == Remembered(previous, adjust, k - 2);
    }
  }

  // ---- units with and without stamps

  /** What the last of a sequence of units gets. */
  function LastOf(previous: TimeStamp, us: seq<TimeStamp>, adjust: u32): Corrected
    requires us != []
    decreases |us|
  {
    var n := |us| - 1;
    CorrectPts(if n == 0 then previous else LastOf(previous, us[..n], adjust).previous, us[n], adjust)
  }

  /** Behind a unit that came with a stamp, the k-th one without is what interpolation from that stamp
      gives, whatever was before. */
  lemma {:induction false} CountsFromTheLastGiven(previous: TimeStamp, us: seq<TimeStamp>, adjust: u32, j: nat)
    requires j < |us| && IsGiven(us[j]) && forall i :: j < i < |us| ==> us[i] == UNSET
    ensures var k := |us| - 1 - j;
            LastOf(previous, us, adjust) == if k == 0 then Corrected(true, us[j], us[j]) else Kth(us[j], adjust, k)
    decreases |us|
  {
    hide CorrectPts, IsGiven;
    var n := |us| - 1;
    if j == n {
      WithoutInterpolation(if n == 0 then previous else LastOf(previous, us[..n], adjust).previous, us[j], adjust);
    } else {
      CountsFromTheLastGiven(previous, us[..n], adjust, j);
    }
  }

  /** With none given so far it is what interpolation from the stamp remembered at the start gives. */
  lemma {:induction false} CountsFromTheStart(previous: TimeStamp, us: seq<TimeStamp>, adjust: u32)
    requires us != [] && forall i :: 0 <= i < |us| ==> us[i] == UNSET
    ensures LastOf(previous, us, adjust) == Kth(previous, adjust, |us|)
    decreases |us|
  {
    hide CorrectPts;
    var n := |us| - 1;
    if n > 0 {
      CountsFromTheStart(previous, us[..n], adjust);
    }
  }

  lemma {:induction false} NothingToGoOn(adjust: u32, k: nat)
    requires 0 < k
    ensures Kth(UNSET, adjust, k) == Corrected(true, UNSET, UNSET)
    decreases k
  {
    WithoutInterpolation(UNSET, UNSET, adjust);
    hide CorrectPts;
    if k > 1 {
      NothingToGoOn(adjust, k - 1);
    }
  }

  /** So each unit without a stamp gets the last given stamp plus one adjustment for each unit since, on
      the 33-bit clock, as long as none of those was refused. */
  lemma EveryUnit(previous: TimeStamp, us: seq<TimeStamp>, adjust: u32, j: nat)
    requires j < |us| - 1 && IsClock(us[j]) && IsGiven(us[j]) && forall i :: j < i < |us| ==> us[i] == UNSET
    requires forall i :: 0 < i < |us| - 1 - j ==> LowAfter(JoinTimeStamp(us[j]), adjust, i) != TS_INVALID
    ensures var r, k := LastOf(previous, us, adjust), |us| - 1 - j;
            && JoinTimeStamp(r.au) == (JoinTimeStamp(us[j]) + k * adjust) % CLOCK
            && (r.ok <==> LowAfter(JoinTimeStamp(us[j]), adjust, k) != TS_INVALID)
  {
    hide CorrectPts, LastOf, Kth, JoinTimeStamp, LowAfter, IsClock, IsGiven;
    CountsFromTheLastGiven(previous, us, adjust, j);
    RunAdvances(us[j], adjust, |us| - 1 - j);
  }
}
