/** The interrupts of one GPIO bank: the watchdog that stops a pin from interrupting for ever, and the masks and shadow
    registers that keep track of what the hardware detects.

    Bit masks are sets of pin numbers.  Each method is one step under the bank's interrupt lock; the opening and closing
    of an interrupt pin is one step with it.
  */
module GpioStorm {

  const PINS_PER_BANK := 32
  const WATCHDOG_RESET := 10
  const UCHAR := 256

  /** GPHEN, GPLEN, GPAREN and GPAFEN. */
  datatype Detect = Detect(gphen: set<nat>, gplen: set<nat>, gparen: set<nat>, gpafen: set<nat>)

  datatype InterruptMode = LevelSensitive | Latched

  datatype Polarity = ActiveHigh | ActiveLow | RisingEdge | FallingEdge | ActiveBoth

  function EnabledMask(d: Detect): set<nat> {
    d.gphen + d.gplen + d.gparen + d.gpafen
  }

  /** Nothing is added for a combination the hardware does not have. */
  function Add(d: Detect, mask: set<nat>, mode: InterruptMode, polarity: Polarity): Detect {
    match (mode, polarity)
    case (LevelSensitive, ActiveHigh) => d.(gphen := d.gphen + mask)
    case (LevelSensitive, ActiveLow) => d.(gplen := d.gplen + mask)
    case (Latched, RisingEdge) => d.(gparen := d.gparen + mask)
    case (Latched, FallingEdge) => d.(gpafen := d.gpafen + mask)
    case _ => d
  }

  function Remove(d: Detect, mask: set<nat>): Detect {
    Detect(d.gphen - mask, d.gplen - mask, d.gparen - mask, d.gpafen - mask)
  }

  function Restrict(d: Detect, mask: set<nat>): Detect {
    Detect(d.gphen * mask, d.gplen * mask, d.gparen * mask, d.gpafen * mask)
  }

  /** The pin is now detected by the one register for its mode and polarity, and nothing else has changed. */
  predicate Detects(before: Detect, after: Detect, p: nat, mode: InterruptMode, polarity: Polarity) {
    && after.gphen == before.gphen + (if mode.LevelSensitive? && polarity.ActiveHigh? then {p} else {})
    && after.gplen == before.gplen + (if mode.LevelSensitive? && polarity.ActiveLow? then {p} else {})
    && after.gparen == before.gparen + (if mode.Latched? && polarity.RisingEdge? then {p} else {})
    && after.gpafen == before.gpafen + (if mode.Latched? && polarity.FallingEdge? then {p} else {})
  }

  /** No register detects a pin of the mask any more, and other pins are detected as before. */
  predicate Ignores(before: Detect, after: Detect, mask: set<nat>) {
    && after.gphen == before.gphen - mask && after.gplen == before.gplen - mask
    && after.gparen == before.gparen - mask && after.gpafen == before.gpafen - mask
  }

  lemma AddDetects(d: Detect, p: nat, mode: InterruptMode, polarity: Polarity)
    ensures Detects(d, Add(d, {p}, mode, polarity), p, mode, polarity)
  {
  }

  lemma RemoveIgnores(d: Detect, mask: set<nat>)
    ensures Ignores(d, Remove(d, mask), mask)
  {
  }

  /** `_BitScanForward`: the next set bit from `i` on, or the end of the word. */
  function NextSet(mask: set<nat>, i: nat): (j: nat)
    requires i <= PINS_PER_BANK
    ensures i <= j <= PINS_PER_BANK
    ensures j < PINS_PER_BANK ==> j in mask
    ensures forall k | i <= k < j :: k !in mask
    decreases PINS_PER_BANK - i
  {
    if i == PINS_PER_BANK || i in mask then i else NextSet(mask, i + 1)
  }

  /** A count of the watchdog less one, in a byte. */
  function Decrement(count: nat): nat {
    (count + UCHAR - 1) % UCHAR
  }

  lemma EnabledInHardware(registers: Detect, enabled: set<nat>)
    ensures EnabledMask(Restrict(registers, enabled)) == EnabledMask(registers) * enabled
  {
  }

  lemma AddedToHardware(registers: Detect, enabled: set<nat>, p: nat, mode: InterruptMode, polarity: Polarity)
    ensures EnabledMask(Restrict(registers, enabled)) <= EnabledMask(Restrict(Add(registers, {p}, mode, polarity), enabled + {p}))
  {
  }

  lemma RemovedFromHardware(registers: Detect, enabled: set<nat>, mask: set<nat>, less: set<nat>)
    requires less == enabled || less == enabled - mask
    ensures EnabledMask(Restrict(Remove(registers, mask), less)) == EnabledMask(Restrict(registers, enabled)) - mask
  {
  }

  /** Counting the pins with an event, all of them enabled, keeps every count complementary to the runs seen. */
  lemma Counted(changedMask: set<nat>, was: seq<nat>, now: seq<nat>, wasSeen: seq<nat>, nowSeen: seq<nat>, enabled: set<nat>)
    requires |was| == |now| == |wasSeen| == |nowSeen| == PINS_PER_BANK && changedMask <= enabled
    requires forall p | 0 <= p < PINS_PER_BANK ::
               && now[p] == (if p in changedMask then Decrement(was[p]) else was[p])
               && nowSeen[p] == wasSeen[p] + if p in changedMask then 1 else 0
    ensures (forall p | 0 <= p < PINS_PER_BANK :: was[p] < UCHAR) ==> forall p | 0 <= p < PINS_PER_BANK :: now[p] < UCHAR
    ensures (forall p | 0 <= p < PINS_PER_BANK :: was[p] + wasSeen[p] == WATCHDOG_RESET)
            && (forall p | 0 <= p < PINS_PER_BANK && p in enabled :: was[p] > 0)
            ==> forall p | 0 <= p < PINS_PER_BANK :: now[p] + nowSeen[p] == WATCHDOG_RESET
  {
  }

  class Bank {
    // _INTERRUPT_CONTEXT
    var enabledMask: set<nat>
    var disabledMask: set<nat>
    var pendingReenableMask: set<nat>
    var registers: Detect
    var watchdogCount: seq<nat>
    var openInterruptPins: set<nat>

    // the hardware
    var hw: Detect
    var gpeds: set<nat>
    var dpcQueued: bool
    var timerStarted: bool

    ghost var seen: seq<nat>  // interrupt runs that saw the pin since the DPC last ran

    /** Pin sets, shadow and hardware agree. */
    ghost predicate Sets()
      reads this
    {
      && enabledMask !! disabledMask && (enabledMask + disabledMask) !! pendingReenableMask
      && enabledMask + disabledMask + pendingReenableMask == openInterruptPins
      && (forall p | p in openInterruptPins :: p < PINS_PER_BANK)
      && hw == Restrict(registers, enabledMask)
      && gpeds <= EnabledMask(hw)
      && |watchdogCount| == |seen| == PINS_PER_BANK
      && (forall p | 0 <= p < PINS_PER_BANK :: watchdogCount[p] < UCHAR)
    }

    /** And a disabled pin is on its way back. */
    ghost predicate Masks()
      reads this
    {
      && Sets()
      && (disabledMask != {} ==> dpcQueued)
      && (pendingReenableMask != {} ==> timerStarted)
    }

    /** The watchdog of every pin counts the runs that saw it down from ten, and a pin is disabled at zero. */
    ghost predicate Watched()
      reads this
    {
      && |watchdogCount| == |seen| == PINS_PER_BANK
      && (forall p | 0 <= p < PINS_PER_BANK :: watchdogCount[p] + seen[p] == WATCHDOG_RESET)
      && (forall p | 0 <= p < PINS_PER_BANK && p in enabledMask :: watchdogCount[p] > 0)
      && (forall p | 0 <= p < PINS_PER_BANK && p in pendingReenableMask :: watchdogCount[p] > 0)
      && (forall p | 0 <= p < PINS_PER_BANK && watchdogCount[p] < WATCHDOG_RESET :: dpcQueued)
    }

    /** Each register of the hardware holds the enabled pins of its shadow, and a pin that is open but not enabled is in
        none of them. */
    lemma HardwareFollows(p: nat)
      requires Masks()
      ensures hw.gphen == registers.gphen * enabledMask && hw.gplen == registers.gplen * enabledMask
      ensures hw.gparen == registers.gparen * enabledMask && hw.gpafen == registers.gpafen * enabledMask
      ensures p in disabledMask || p in pendingReenableMask ==>
                p !in hw.gphen && p !in hw.gplen && p !in hw.gparen && p !in hw.gpafen
    {
      assert p in disabledMask || p in pendingReenableMask ==> p !in enabledMask;
    }

    constructor ()
      ensures Masks() && Watched() && openInterruptPins == {} && !dpcQueued && !timerStarted
    {
      enabledMask, disabledMask, pendingReenableMask, openInterruptPins := {}, {}, {}, {};
      registers, hw, gpeds := Detect({}, {}, {}, {}), Detect({}, {}, {}, {}), {};
      watchdogCount, seen := seq(PINS_PER_BANK, p => WATCHDOG_RESET), seq(PINS_PER_BANK, p => 0);
      dpcQueued, timerStarted := false, false;
    }

    /** The hardware latches events of pins it is told to detect. */
    method Latch(events: set<nat>)
      requires Masks() && events <= EnabledMask(hw)
      modifies this`gpeds
      ensures Masks() && gpeds == old(gpeds) + events && (old(Watched()) ==> Watched())
    {
      gpeds := gpeds + events;
    }

    method ProgramInterruptRegisters()
      modifies this`hw
      ensures hw == Restrict(registers, enabledMask)
      ensures hw.gphen == registers.gphen * enabledMask && hw.gplen == registers.gplen * enabledMask
      ensures hw.gparen == registers.gparen * enabledMask && hw.gpafen == registers.gpafen * enabledMask
    {
      hw := Detect(registers.gphen * enabledMask, registers.gplen * enabledMask,
                   registers.gparen * enabledMask, registers.gpafen * enabledMask);
    }

    /** PreProcessControllerInterrupt: count down the watchdog of every pin with an event and disable those that reach
        zero. */
    method PreProcessControllerInterrupt()
      requires Masks()
      modifies this`enabledMask, this`disabledMask, this`watchdogCount, this`hw, this`gpeds, this`dpcQueued, this`seen
      ensures Masks() && dpcQueued
      ensures old(Watched()) ==> Watched()
      ensures forall p | 0 <= p < PINS_PER_BANK ::
                && watchdogCount[p] == (if p in old(gpeds) then Decrement(old(watchdogCount)[p]) else old(watchdogCount)[p])
                && seen[p] == old(seen)[p] + if p in old(gpeds) then 1 else 0
      ensures forall p | p in old(enabledMask) :: p in disabledMask <==> p in old(gpeds) && watchdogCount[p] == 0
      ensures disabledMask >= old(disabledMask)
      ensures gpeds == old(gpeds) - (disabledMask - old(disabledMask))
    {
      hide NextSet, Decrement, EnabledMask, Restrict;
      EnabledInHardware(registers, enabledMask);
      var disableMask := CountDown(gpeds);
      Counted(gpeds, old(watchdogCount), watchdogCount, old(seen), seen, enabledMask);
      if disableMask != {} {
        DisablePins(disableMask);
      }
      dpcQueued := true;
    }

    /** Pins move from the enabled to the disabled set, and the hardware follows. */
    method DisablePins(disableMask: set<nat>)
      requires Sets() && disableMask <= enabledMask
      modifies this`enabledMask, this`disabledMask, this`hw, this`gpeds
      ensures Sets() && enabledMask == old(enabledMask) - disableMask && disabledMask == old(disabledMask) + disableMask
      ensures gpeds == old(gpeds) - disableMask
    {
      enabledMask := enabledMask - disableMask;
      disabledMask := disabledMask + disableMask;
      ProgramInterruptRegisters();
      gpeds := gpeds - disableMask;
    }

    /** The watchdog accounting of the interrupt routine. */
    method CountDown(changedMask: set<nat>) returns (disableMask: set<nat>)
      requires |watchdogCount| == |seen| == PINS_PER_BANK
      modifies this`watchdogCount, this`seen
      ensures |watchdogCount| == |seen| == PINS_PER_BANK
      ensures forall p | 0 <= p < PINS_PER_BANK ::
                && watchdogCount[p] == (if p in changedMask then Decrement(old(watchdogCount)[p]) else old(watchdogCount)[p])
                && seen[p] == old(seen)[p] + if p in changedMask then 1 else 0
      ensures forall p :: p in disableMask <==> 0 <= p < PINS_PER_BANK && p in changedMask && watchdogCount[p] == 0
    {
      hide Decrement;
      disableMask := {};
      var i := NextSet(changedMask, 0);
      while i < PINS_PER_BANK
        invariant i <= PINS_PER_BANK && (i < PINS_PER_BANK ==> i in changedMask)
        invariant |watchdogCount| == |seen| == PINS_PER_BANK
        invariant forall p | 0 <= p < PINS_PER_BANK ::
                    watchdogCount[p] == if p in changedMask && p < i then Decrement(old(watchdogCount)[p]) else old(watchdogCount)[p]
        invariant forall p | 0 <= p < PINS_PER_BANK :: seen[p] == old(seen)[p] + if p in changedMask && p < i then 1 else 0
        invariant forall p :: p in disableMask <==> 0 <= p < i && p in changedMask && watchdogCount[p] == 0
      {
        watchdogCount := watchdogCount[i := Decrement(watchdogCount[i])];
        seen := seen[i := seen[i] + 1];
        if watchdogCount[i] == 0 {
          disableMask := disableMask + {i};
        }
        i := NextSet(changedMask, i + 1);
      }
    }

    /** evtDpcFunc: disabled pins wait for the timer, and all watchdogs start again. */
    method EvtDpcFunc()
      requires Masks()
      modifies this`pendingReenableMask, this`disabledMask, this`watchdogCount, this`seen, this`dpcQueued, this`timerStarted
      ensures Masks() && Watched()
      ensures disabledMask == {} && pendingReenableMask == old(pendingReenableMask) + old(disabledMask)
      ensures timerStarted == (old(timerStarted) || old(disabledMask) != {}) && !dpcQueued
    {
      if disabledMask != {} {
        pendingReenableMask := pendingReenableMask + disabledMask;
        disabledMask := {};
        timerStarted := true;
      }
      watchdogCount := seq(PINS_PER_BANK, p => WATCHDOG_RESET);
      seen := seq(PINS_PER_BANK, p => 0);
      dpcQueued := false;
    }

    /** evtReenableInterruptTimerFunc: waiting pins are enabled again, with events of the meantime cleared. */
    method EvtReenableInterruptTimerFunc()
      requires Masks()
      modifies this`enabledMask, this`pendingReenableMask, this`hw, this`gpeds, this`timerStarted
      ensures Masks() && (old(Watched()) ==> Watched())
      ensures pendingReenableMask == {} && enabledMask == old(enabledMask) + old(pendingReenableMask)
      ensures gpeds == old(gpeds) - old(pendingReenableMask)
    {
      timerStarted := false;
      gpeds := gpeds - pendingReenableMask;
      enabledMask := enabledMask + pendingReenableMask;
      pendingReenableMask := {};
      ProgramInterruptRegisters();
    }

    /** MaskInterrupts. */
    method MaskInterrupts(mask: set<nat>)
      requires Masks()
      modifies this`registers, this`hw, this`gpeds
      ensures Masks() && (old(Watched()) ==> Watched())
      ensures Ignores(old(registers), registers, mask) && gpeds == old(gpeds) - mask
      ensures EnabledMask(hw) !! mask
    {
      hide EnabledMask, Restrict, Remove, Ignores;
      RemovedFromHardware(registers, enabledMask, mask, enabledMask);
      RemoveIgnores(registers, mask);
      registers := Remove(registers, mask);
      ProgramInterruptRegisters();
      gpeds := gpeds - mask;
    }

    /** UnmaskInterrupt. */
    method UnmaskInterrupt(p: nat, mode: InterruptMode, polarity: Polarity)
      requires Masks() && p < PINS_PER_BANK
      modifies this`registers, this`hw, this`gpeds
      ensures Masks() && (old(Watched()) ==> Watched())
      ensures Detects(old(registers), registers, p, mode, polarity) && gpeds == old(gpeds) - {p}
    {
      hide Detects;
      AddDetects(registers, p, mode, polarity);
      registers := Add(registers, {p}, mode, polarity);
      gpeds := gpeds - {p};
      ProgramInterruptRegisters();
    }

    /** ClearActiveInterrupts. */
    method ClearActiveInterrupts(mask: set<nat>)
      requires Masks()
      modifies this`gpeds
      ensures Masks() && (old(Watched()) ==> Watched()) && gpeds == old(gpeds) - mask
    {
      gpeds := gpeds - mask;
    }

    /** EnableInterrupt under the lock, for a pin that is not open.  The watchdogs stay right if and only if the pin's
        own has not run out, which is so once a queued DPC has run. */
    method EnableInterrupt(p: nat, mode: InterruptMode, polarity: Polarity)
      requires Masks() && p < PINS_PER_BANK && p !in openInterruptPins
      modifies this`openInterruptPins, this`registers, this`enabledMask, this`gpeds, this`hw
      ensures Masks() && openInterruptPins == old(openInterruptPins) + {p} && enabledMask == old(enabledMask) + {p}
      ensures Detects(old(registers), registers, p, mode, polarity) && gpeds == old(gpeds) - {p}
      ensures hw.gphen == registers.gphen * enabledMask && hw.gplen == registers.gplen * enabledMask
      ensures hw.gparen == registers.gparen * enabledMask && hw.gpafen == registers.gpafen * enabledMask
      ensures old(Watched()) ==> (Watched() <==> watchdogCount[p] != 0)
      ensures old(Watched()) && !dpcQueued ==> Watched()
    {
      hide Detects, Add, EnabledMask, Restrict;
      AddDetects(registers, p, mode, polarity);
      AddedToHardware(registers, enabledMask, p, mode, polarity);
      openInterruptPins := openInterruptPins + {p};
      registers := Add(registers, {p}, mode, polarity);
      enabledMask := enabledMask + {p};
      gpeds := gpeds - {p};
      ProgramInterruptRegisters();
    }

    /** DisableInterrupt under the lock. */
    method DisableInterrupt(p: nat)
      requires Masks()
      modifies this`openInterruptPins, this`registers, this`enabledMask, this`disabledMask, this`pendingReenableMask,
               this`gpeds, this`hw
      ensures Masks() && (old(Watched()) ==> Watched())
      ensures openInterruptPins == old(openInterruptPins) - {p} && p !in EnabledMask(hw) && p !in gpeds
      ensures Ignores(old(registers), registers, {p})
      ensures enabledMask == old(enabledMask) - {p} && disabledMask == old(disabledMask) - {p}
      ensures pendingReenableMask == old(pendingReenableMask) - {p} && gpeds == old(gpeds) - {p}
    {
      hide EnabledMask, Restrict, Remove, Ignores;
      RemovedFromHardware(registers, enabledMask, {p}, enabledMask - {p});
      RemoveIgnores(registers, {p});
      enabledMask := enabledMask - {p};
      disabledMask := disabledMask - {p};
      pendingReenableMask := pendingReenableMask - {p};
      registers := Remove(registers, {p});
      ProgramInterruptRegisters();
      gpeds := gpeds - {p};
      openInterruptPins := openInterruptPins - {p};
    }

    /** The storm bound: between two runs of the DPC at most ten interrupt runs see a pin, and the one that is seen ten
        times is disabled, out of what the hardware detects, and on its way back. */
    lemma StormBound(p: nat)
      requires Masks() && Watched() && p < PINS_PER_BANK
      ensures seen[p] <= WATCHDOG_RESET
      ensures seen[p] == WATCHDOG_RESET ==> p !in EnabledMask(hw) && p !in gpeds && dpcQueued
      ensures p in gpeds ==> seen[p] < WATCHDOG_RESET && p in enabledMask
    {
    }

    /** Steps that are not possible change nothing. `late` says whether a pin has been opened with its watchdog run out
        since the DPC last ran. */
    method Step(op: Op, late: bool) returns (lateNow: bool)
      requires Masks() && (!late ==> Watched())
      modifies this
      ensures Masks() && (!lateNow ==> Watched())
      ensures lateNow == (if op.Dpc? then !old(dpcQueued) && late
                          else late || (op.Open? && op.p < PINS_PER_BANK && op.p !in old(openInterruptPins)
                                        && |old(watchdogCount)| == PINS_PER_BANK && old(watchdogCount)[op.p] == 0))
    {
      hide EnabledMask, Restrict, Detects, Ignores, Decrement;
      lateNow := late;
      match op {
        case Events(pins) =>
          // the hardware latches only what it is told to detect
          Latch(pins * EnabledMask(hw));
        case Isr => PreProcessControllerInterrupt();
        case Dpc =>
          if dpcQueued {
            EvtDpcFunc();
            lateNow := false;
          }
        case Timer =>
          if timerStarted {
            EvtReenableInterruptTimerFunc();
          }
        case Mask(pins) => MaskInterrupts(pins);
        case Unmask(p, mode, polarity) =>
          if p < PINS_PER_BANK {
            UnmaskInterrupt(p, mode, polarity);
          }
        case Clear(pins) => ClearActiveInterrupts(pins);
        case Open(p, mode, polarity) =>
          if p < PINS_PER_BANK && p !in openInterruptPins {
            lateNow := late || watchdogCount[p] == 0;
            EnableInterrupt(p, mode, polarity);
          }
        case Close(p) => DisableInterrupt(p);
      }
    }

    /** The storm bound for any interleaving of events, interrupts, DPCs, timers and calls: as long as no pin has been
        opened with its watchdog run out since the DPC last ran, at most ten interrupt runs have seen a pin since then,
        and one seen ten times is disabled. */
    method Run(script: seq<Op>) returns (late: bool)
      requires Masks() && Watched()
      modifies this
      ensures Masks() && |seen| == PINS_PER_BANK
      ensures !late ==> forall p | 0 <= p < PINS_PER_BANK ::
                && seen[p] <= WATCHDOG_RESET
                && (seen[p] == WATCHDOG_RESET ==> p !in EnabledMask(hw) && p !in gpeds && dpcQueued)
      ensures forall p | p in openInterruptPins ::
                if p in enabledMask then p in EnabledMask(hw) <==> p in EnabledMask(registers)
                else p !in EnabledMask(hw) && (dpcQueued || timerStarted)
    {
      late := false;
      for i := 0 to |script|
        invariant Masks() && (!late ==> Watched())
      {
        late := Step(script[i], late);
      }
      forall p | p in openInterruptPins
        ensures if p in enabledMask then p in EnabledMask(hw) <==> p in EnabledMask(registers)
                else p !in EnabledMask(hw) && (dpcQueued || timerStarted)
      {
        OpenPinsComeBack(p);
      }
    }

    /** Every open pin is detected as asked for, or on its way back to being so. */
    lemma OpenPinsComeBack(p: nat)
      requires Masks() && p in openInterruptPins
      ensures if p in enabledMask then p in EnabledMask(hw) <==> p in EnabledMask(registers)
              else p !in EnabledMask(hw) && (dpcQueued || timerStarted)
    {
    }
  }

  /** One step of a run: what the hardware does, what it starts, and what the framework calls. */
  datatype Op =
    | Events(pins: set<nat>)
    | Isr
    | Dpc
    | Timer
    | Mask(pins: set<nat>)
    | Unmask(p: nat, mode: InterruptMode, polarity: Polarity)
    | Clear(pins: set<nat>)
    | Open(p: nat, mode: InterruptMode, polarity: Polarity)
    | Close(p: nat)

  /** A pin opened with its watchdog run out is seen without bound: the count wraps around in its byte and the pin stays
      enabled. */
  method RunOutWatchdogWraps(bank: Bank, p: nat)
    requires bank.Masks() && bank.Watched() && p < PINS_PER_BANK
    requires p !in bank.openInterruptPins && bank.watchdogCount[p] == 0
    modifies bank
    ensures bank.Masks() && p in bank.enabledMask && |bank.seen| == |bank.watchdogCount| == PINS_PER_BANK
    ensures bank.seen[p] == WATCHDOG_RESET + 1 && bank.watchdogCount[p] == UCHAR - 1
  {
    bank.EnableInterrupt(p, LevelSensitive, ActiveHigh);
    assert p in bank.hw.gphen;
    hide Restrict, Detects;
    bank.Latch({p});
    bank.PreProcessControllerInterrupt();
  }

  /** A run that gets there: ten interrupts, then the pin is closed and opened again before the DPC runs. */
  method ReopenedBeforeDpc() returns (bank: Bank)
    ensures fresh(bank) && bank.Masks() && 3 in bank.enabledMask && |bank.seen| == |bank.watchdogCount| == PINS_PER_BANK
    ensures bank.seen[3] == WATCHDOG_RESET + 1 && bank.watchdogCount[3] == UCHAR - 1
  {
    bank := new Bank();
    bank.EnableInterrupt(3, LevelSensitive, ActiveHigh);
    for i := 0 to WATCHDOG_RESET
      invariant bank.Masks() && bank.Watched() && fresh(bank) && bank.watchdogCount[3] == WATCHDOG_RESET - i
      invariant 3 in bank.openInterruptPins && 3 in bank.registers.gphen
      invariant i < WATCHDOG_RESET ==> 3 in bank.enabledMask
    {
      bank.Latch({3});
      bank.PreProcessControllerInterrupt();
    }
    bank.DisableInterrupt(3);
    RunOutWatchdogWraps(bank, 3);
  }
}
