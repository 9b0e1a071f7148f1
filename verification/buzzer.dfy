/** The `tone` routine of the buzzer driver: it turns a frequency into a timer-2
    program (prescaler bits and an 8-bit compare value), computes a toggle budget,
    and writes the timer registers in a fixed order.  Register writes are recorded
    as an abstract trace instead of touching hardware. */
module Buzzer {
  import opened Ints

  /** The assumed CPU clock, 1 MHz. */
  const F_CPU: u32 := 1_000_000

  /** Prescaler bits the search starts from (`0b001`). */
  const FIRST_BITS: u8 := 0x1
  /** The search stops once the bits reach this bound (`0b111`). */
  const BITS_BOUND: u8 := 0x7
  /** The largest compare value that fits the 8-bit compare register. */
  const MAX_COMPARE: nat := 255

  /** The half-period of the tone in clock cycles, `F_CPU / frequency / 2`. */
  function HalfPeriod(frequency: u16): nat
    requires frequency != 0
  {
    F_CPU / frequency / 2
  }

  /** For every 16-bit frequency the half-period is at least 7 cycles, so the
      initial `- 1` never underflows, and at most 500000 cycles. */
  lemma HalfPeriodBounds(frequency: u16)
    requires frequency != 0
    ensures 7 <= HalfPeriod(frequency) <= 500_000
  {
    DivAtLeast(F_CPU, frequency, 15);
  }

  /** Where the search stops: the prescaler bits and the value left in
      `ocr_base`, before it is cut to 8 bits. */
  datatype Prescaled = Prescaled(bits: u8, value: nat)

  /** Reference definition of the search on half-period `h`, written without a
      loop: the first of `h - 1`, `h / 2 - 1`, `h / 4 - 1` that fits in 8 bits,
      with its divider as the bits, or else `h / 8 - 1` with bits 8. */
  function ClosedForm(h: nat): Prescaled
    requires h >= 1
  {
    if h - 1 <= MAX_COMPARE then Prescaled(1, h - 1)
    else if h / 2 - 1 <= MAX_COMPARE then Prescaled(2, h / 2 - 1)
    else if h / 4 - 1 <= MAX_COMPARE then Prescaled(4, h / 4 - 1)
    else Prescaled(8, h / 8 - 1)
  }

  /** The prescaler/compare search of `tone`, from `ocr_base` on: while the
      value exceeds 255 and the bits are below 0b111, halve the value with the
      rounding rule `(x + 1) / 2 - 1` and shift the bits left. The rounding
      makes each step an exact floor division of the half-period `ocr_base + 1`,
      so the loop ends where the closed form says. */
  method SearchPrescaler(ocrBase0: u32) returns (bits: u8, ocrBase: u32)
    requires ocrBase0 + 1 < U32_LIMIT
    ensures Prescaled(bits, ocrBase) == ClosedForm(ocrBase0 + 1)
  {
    ghost var h: nat := ocrBase0 + 1;
    ocrBase := ocrBase0;
    bits := FIRST_BITS;
    while ocrBase > 255 && bits < BITS_BOUND
      invariant bits == 1 || bits == 2 || bits == 4 || bits == 8
      invariant bits == 1 ==> ocrBase + 1 == h
      invariant bits == 2 ==> ocrBase + 1 == h / 2 && h - 1 > MAX_COMPARE
      invariant bits == 4 ==> ocrBase + 1 == h / 4 && h / 2 - 1 > MAX_COMPARE
      invariant bits == 8 ==> ocrBase + 1 == h / 8 && h / 4 - 1 > MAX_COMPARE
      decreases 8 - bits
    {
      ocrBase := (ocrBase + 1) / 2 - 1;
      bits := bits * 2;
    }
  }

  /** The search ends on a power of two no larger than 8 that leaves a value
      fitting in 8 bits, unless it ran out of steps at 8; the divider before it
      did not fit; and the value is the half-period divided by the bits, rounded
      down, minus one. */
  lemma ClosedFormIsFirstFit(h: nat)
    requires h >= 1
    ensures var p := ClosedForm(h);
      && (p.bits == 1 || p.bits == 2 || p.bits == 4 || p.bits == 8)
      && (p.value <= MAX_COMPARE || p.bits == 8)
      && (p.bits > 1 ==> h / (p.bits / 2) - 1 > MAX_COMPARE)
      && p.value * p.bits <= h - p.bits < (p.value + 1) * p.bits
  {}

  /** When the value fits, the half-period the code's arithmetic assumes,
      `(compare + 1) * bits` cycles taking `bits` as the divider, is the
      requested one rounded down to a multiple of the bits: at most `h` and
      short of it by less than one step of `bits` cycles. */
  lemma ProgramAccuracy(h: nat)
    requires h >= 1 && ClosedForm(h).value <= MAX_COMPARE
    ensures var p := ClosedForm(h);
      (p.value + 1) * p.bits <= h < (p.value + 2) * p.bits
  {}

  /** The value left by the search does not fit the 8-bit compare register. */
  predicate CompareWraps(h: nat)
    requires h >= 1
  {
    ClosedForm(h).value > MAX_COMPARE
  }

  /** The value is still too wide after the last halving exactly when the
      half-period is at least 2056 cycles. */
  lemma CompareWrapsExactlyFrom2056(h: nat)
    requires h >= 1
    ensures CompareWraps(h) <==> h >= 2056
  {}

  /** The two values `tone` writes to the timer: prescaler bits and the 8-bit
      compare value. */
  datatype TimerProgram = TimerProgram(prescalerBits: u8, compare: u8)

  /** What `tone` programs: the search from `F_CPU / frequency / 2 - 1`, with
      the value cut to its low 8 bits by `as u8`. */
  function ReferenceProgram(frequency: u16): (r: TimerProgram)
    requires frequency != 0
    ensures r.prescalerBits == 1 || r.prescalerBits == 2 || r.prescalerBits == 4 || r.prescalerBits == 8
    ensures HalfPeriod(frequency) >= 1
    ensures !CompareWraps(HalfPeriod(frequency)) ==>
      (r.compare + 1) * r.prescalerBits <= HalfPeriod(frequency) < (r.compare + 2) * r.prescalerBits
    ensures CompareWraps(HalfPeriod(frequency)) ==>
      r.prescalerBits == 8 && (HalfPeriod(frequency) / 8 - 1 - r.compare) % U8_LIMIT == 0
    ensures r.prescalerBits > 1 ==> HalfPeriod(frequency) / (r.prescalerBits / 2) - 1 > MAX_COMPARE
  {
    HalfPeriodBounds(frequency);
    var h := HalfPeriod(frequency);
    ClosedFormIsFirstFit(h);
    var p := ClosedForm(h);
    TimerProgram(p.bits, TruncateU8(p.value))
  }

  /** With a 1 MHz clock the silent 8-bit truncation happens exactly for the
      frequencies up to 243 Hz. */
  lemma CompareWrapsExactlyBelow244(frequency: u16)
    requires frequency != 0
    ensures HalfPeriod(frequency) >= 1
    ensures CompareWraps(HalfPeriod(frequency)) <==> frequency <= 243
  {
    HalfPeriodBounds(frequency);
    CompareWrapsExactlyFrom2056(HalfPeriod(frequency));
    if frequency <= 243 {
      DivAtLeast(F_CPU, frequency, 4112);
    } else {
      DivAtMost(F_CPU, frequency, 4111);
    }
  }

  /** The frequency of the firmware's start-up beep: 1135 is halved to 567,
      283 and 141, ending at bits 8 with no wrap. */
  lemma Program440()
    ensures HalfPeriod(440) - 1 == 1135
    ensures ReferenceProgram(440) == TimerProgram(8, 141)
    ensures !CompareWraps(HalfPeriod(440))
  {}

  /** The lowest frequency whose compare value fits, and the highest that wraps:
      243 Hz leaves 256, which is written as 0. */
  lemma Program243And244()
    ensures ReferenceProgram(244) == TimerProgram(8, 255)
    ensures ReferenceProgram(243) == TimerProgram(8, 0)
  {}

  /** The search with the overflow reported instead of truncated. */
  datatype ProgramResult = Programmed(program: TimerProgram) | FrequencyTooLow

  /** Corrected search on half-period `h`: a value that would not fit in 8 bits
      after the last halving is rejected instead of being cut modulo 256.
      Exactly the half-periods from 2056 cycles on are rejected; every accepted
      program holds the untruncated value, so the half-period the code's
      arithmetic assumes is `h` rounded down to a multiple of the bits. */
  function CheckedProgramFor(h: nat): (r: ProgramResult)
    requires h >= 1
    ensures r.FrequencyTooLow? <==> h >= 2056
    ensures r.Programmed? ==>
      && r.program.prescalerBits == ClosedForm(h).bits
      && (r.program.compare + 1) * r.program.prescalerBits <= h
      && h < (r.program.compare + 2) * r.program.prescalerBits
  {
    CompareWrapsExactlyFrom2056(h);
    var p := ClosedForm(h);
    if p.value > MAX_COMPARE then FrequencyTooLow
    else
      ProgramAccuracy(h);
      Programmed(TimerProgram(p.bits, p.value))
  }

  /** The corrected search on a frequency: exactly the frequencies up to
      243 Hz are rejected, and an accepted program is the one `tone` computes. */
  function CheckedProgram(frequency: u16): (r: ProgramResult)
    requires frequency != 0
    ensures r.FrequencyTooLow? <==> frequency <= 243
    ensures r.Programmed? ==> r.program == ReferenceProgram(frequency)
  {
    CompareWrapsExactlyBelow244(frequency);
    CheckedProgramFor(HalfPeriod(frequency))
  }

  /** Build profiles differ in what an overflowing `u32` multiplication does:
      a checked build panics, a wrapping build keeps the low 32 bits. */
  datatype Profile = Checked | Wrapping

  /** A `u32` multiplication under the given profile; None is the panic. */
  function MulU32(profile: Profile, a: u32, b: u32): (r: Option<u32>)
    ensures r.None? <==> profile == Checked && a * b >= U32_LIMIT
    ensures r.Some? ==> (a * b - r.value) % U32_LIMIT == 0
    ensures a * b < U32_LIMIT ==> r == Some(a * b)
  {
    if a * b < U32_LIMIT then Some(a * b)
    else if profile == Checked then None
    else Some((a * b) % U32_LIMIT)
  }

  /** The toggle budget `2 * frequency as u32 * duration as u32 / 1000`: two
      toggles per period, over `duration` milliseconds. A wrapping build
      divides the low 32 bits of the product. */
  function ToggleCount(profile: Profile, frequency: u16, duration: u32): (r: Option<u32>)
    ensures r.None? <==> profile == Checked && 2 * frequency * duration >= U32_LIMIT
    ensures 2 * frequency * duration < U32_LIMIT ==>
      r.Some? && r.value * 1000 <= 2 * frequency * duration < (r.value + 1) * 1000
    ensures profile == Wrapping ==> r == Some(2 * frequency * duration % U32_LIMIT / 1000)
  {
    match MulU32(profile, 2 * frequency, duration)
    case None => None
    case Some(product) => Some(product / 1000)
  }

  /** Without overflow the budget does not depend on the build profile. */
  lemma ToggleCountProfileIndependent(frequency: u16, duration: u32)
    requires 2 * frequency * duration < U32_LIMIT
    ensures ToggleCount(Checked, frequency, duration) == ToggleCount(Wrapping, frequency, duration)
  {}

  /** 440 Hz for 2000 ms gives 1760 toggles. */
  lemma Toggles440For2000()
    ensures ToggleCount(Checked, 440, 2000) == Some(1760)
  {}

  /** The abstract register writes of `tone`, in the order they are issued. */
  datatype RegisterWrite =
    | WaveModeCtc                 // TCCR2A: clear-timer-on-compare mode
    | ClockDirect                 // TCCR2B: clock source selected directly
    | ClockSelect(bits: u8)       // TCCR2B: the computed prescaler bits
    | Compare(value: u8)          // OCR2A: the compare value
    | CompareInterruptEnable      // TIMSK2: compare-match A interrupt enabled

  datatype Panic = DivideByZero | MultiplyOverflow

  datatype ToneOutcome = Returned(toggles: u32) | Panicked(reason: Panic)

  /** The writes issued before `tone` returned or panicked, and how it ended. */
  datatype ToneRun = ToneRun(writes: seq<RegisterWrite>, outcome: ToneOutcome)

  /** The ordering discipline of the timer writes: the mode register is written
      first, every prescaler write precedes every compare write, and the
      interrupt enable is the last write and comes after a compare write. */
  predicate ProgrammedInOrder(ws: seq<RegisterWrite>) {
    && |ws| >= 1
    && ws[0] == WaveModeCtc
    && (forall i, j ::
          (0 <= i < |ws| && 0 <= j < |ws| && ws[i].Compare? && (ws[j].ClockDirect? || ws[j].ClockSelect?))
          ==> j < i)
    && (forall i :: 0 <= i < |ws| && ws[i].CompareInterruptEnable? ==>
          i == |ws| - 1 && exists j :: 0 <= j < i && ws[j].Compare?)
  }

  /** `tone`: program the timer for `frequency` and compute the toggle budget.
      The pin and the peripherals are not modelled; the result is the sequence
      of register writes and whether the routine returned or panicked. */
  method Tone(profile: Profile, frequency: u16, duration: u32) returns (run: ToneRun)
    ensures ProgrammedInOrder(run.writes)
    ensures |run.writes| >= 2 && run.writes[..2] == [WaveModeCtc, ClockDirect]
    ensures run.outcome == Panicked(DivideByZero) <==> frequency == 0
    ensures frequency == 0 ==> |run.writes| == 2
    ensures run.outcome == Panicked(MultiplyOverflow) <==>
      frequency != 0 && profile == Checked && 2 * frequency * duration >= U32_LIMIT
    ensures run.outcome == Panicked(MultiplyOverflow) ==>
      run.writes == [WaveModeCtc, ClockDirect, ClockSelect(ReferenceProgram(frequency).prescalerBits)]
    ensures CompareInterruptEnable in run.writes <==> run.outcome.Returned?
    ensures run.outcome.Returned? ==>
      var p := ReferenceProgram(frequency);
      && run.writes[2..] == [ClockSelect(p.prescalerBits), Compare(p.compare), CompareInterruptEnable]
      && Some(run.outcome.toggles) == ToggleCount(profile, frequency, duration)
  {
    var writes := [WaveModeCtc, ClockDirect];
    if frequency == 0 {
      return ToneRun(writes, Panicked(DivideByZero));
    }
    HalfPeriodBounds(frequency);
    var bits, ocrBase := SearchPrescaler(F_CPU / frequency / 2 - 1);
    var program := TimerProgram(bits, TruncateU8(ocrBase));
    writes := writes + [ClockSelect(program.prescalerBits)];
    var toggles := ToggleCount(profile, frequency, duration);
    if toggles.None? {
      return ToneRun(writes, Panicked(MultiplyOverflow));
    }
    writes := writes + [Compare(program.compare), CompareInterruptEnable];
    assert writes[3].Compare?;
    run := ToneRun(writes, Returned(toggles.value));
  }
}
