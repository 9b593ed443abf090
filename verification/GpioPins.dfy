/** Function and pull configuration of the GPIO pins: what connecting and disconnecting leaves behind.

    Pins are numbered over both banks; the bank masks are sets of such numbers.
  */
module GpioPins {
  import opened GpioBits

  const PIN_COUNT := 54
  const FUNCTION_BITS := 3
  const PULL_BITS := 2

  function Code(n: nat): word {
    seq(WORD_BITS, i => if i == 0 then n % 2 == 1 else if i == 1 then n / 2 % 2 == 1 else i == 2 && n / 4 % 2 == 1)
  }

  const INPUT: word := Code(0)
  const OUTPUT: word := Code(1)
  const PULL_DISABLE: word := Code(0)
  const PULL_DOWN: word := Code(1)
  const PULL_UP: word := Code(2)

  /** The ACPI pull configuration of a request; any other value counts as the default. */
  datatype AcpiPull = PullDefault | PullUp | PullDown | PullNone | PullInvalid

  datatype ConnectMode = ConnectModeInput | ConnectModeOutput | ConnectModeOther

  datatype Status = Success | NotSupported | InvalidParameter

  predicate Pins(pins: seq<nat>) {
    forall i | 0 <= i < |pins| :: pins[i] < PIN_COUNT
  }

  function Range(pins: seq<nat>): set<nat> {
    set p | p in pins
  }

  /** The shadow registers a drive mode change starts from and ends in. */
  datatype Config = Config(gpfsel: seq<word>, pull: seq<word>)

  predicate WellSized(c: Config) {
    |c.gpfsel| == WordsFor(PIN_COUNT, FUNCTION_BITS) && |c.pull| == WordsFor(PIN_COUNT, PULL_BITS)
  }

  function Function(c: Config, p: nat): word
    requires WellSized(c) && p < PIN_COUNT
  {
    InRange(PIN_COUNT, FUNCTION_BITS, p);
    Get(c.gpfsel, FUNCTION_BITS, p)
  }

  function Pull(c: Config, p: nat): word
    requires WellSized(c) && p < PIN_COUNT
  {
    InRange(PIN_COUNT, PULL_BITS, p);
    Get(c.pull, PULL_BITS, p)
  }

  function PullMode(acpi: AcpiPull, default: word): word {
    match acpi
    case PullUp => PULL_UP
    case PullDown => PULL_DOWN
    case PullNone => PULL_DISABLE
    case _ => default
  }

  /** One pin has the given function and pull, and no other pin has changed. */
  ghost predicate OnlyPin(before: Config, after: Config, p: nat, f: word, pull: word)
    requires WellSized(before) && WellSized(after) && p < PIN_COUNT
  {
    && Function(after, p) == f && Pull(after, p) == pull
    && forall q: nat | q < PIN_COUNT && q != p :: Function(after, q) == Function(before, q) && Pull(after, q) == Pull(before, q)
  }

  /** The pin as setDriveMode leaves it. */
  ghost predicate Driven(before: Config, after: Config, initial: Config, p: nat, f: word, acpi: AcpiPull)
    requires WellSized(before) && WellSized(after) && WellSized(initial) && p < PIN_COUNT
  {
    && Function(after, p) == f
    && Pull(after, p) == if f == OUTPUT then Pull(before, p) else PullMode(acpi, Pull(initial, p))
  }

  /** The pin as revertPinToDefault leaves it. */
  ghost predicate Reverted(before: Config, after: Config, initial: Config, p: nat)
    requires WellSized(before) && WellSized(after) && WellSized(initial) && p < PIN_COUNT
  {
    Driven(before, after, initial, p, Function(initial, p), PullDefault)
  }

  /** What a revert brings back: always the initial function, and the default pull if and only if the initial function is
      not OUTPUT or the pull was the default one all along. */
  lemma RevertBringsBack(before: Config, after: Config, initial: Config, p: nat)
    requires WellSized(before) && WellSized(after) && WellSized(initial) && p < PIN_COUNT
    requires Reverted(before, after, initial, p)
    ensures Function(after, p) == Function(initial, p) && Restored(after, initial, p)
    ensures Pull(after, p) == Pull(initial, p) <==> Function(initial, p) != OUTPUT || Pull(before, p) == Pull(initial, p)
  {
    hide Get;
  }

  /** Pins outside the set are as they were. */
  ghost predicate Untouched(before: Config, after: Config, pins: set<nat>)
    requires WellSized(before) && WellSized(after)
  {
    forall q: nat | q < PIN_COUNT && q !in pins :: Function(after, q) == Function(before, q) && Pull(after, q) == Pull(before, q)
  }

  /** The pin has the function it had when the controller started and, unless that is OUTPUT, its default pull. */
  ghost predicate Restored(c: Config, initial: Config, p: nat)
    requires WellSized(c) && WellSized(initial) && p < PIN_COUNT
  {
    Function(c, p) == Function(initial, p) && (Function(initial, p) != OUTPUT ==> Pull(c, p) == Pull(initial, p))
  }

  lemma CodesFit()
    ensures forall n :: Fits(Code(n), FUNCTION_BITS)
    ensures Fits(PULL_DISABLE, PULL_BITS) && Fits(PULL_DOWN, PULL_BITS) && Fits(PULL_UP, PULL_BITS)
    ensures INPUT != OUTPUT
  {
    assert INPUT[0] != OUTPUT[0];
  }

  /** The codes are the numbers of the function and pull fields, and no other three bits stand for OUTPUT. */
  lemma CodeValues(f: word)
    requires Fits(f, FUNCTION_BITS)
    ensures forall n | 0 <= n < 8 :: Value(Code(n)) == n
    ensures f == OUTPUT <==> Value(f) == 1
    ensures Value(PULL_UP) == 2 && Value(PULL_DOWN) == 1 && Value(PULL_DISABLE) == 0
  {
    forall n | 0 <= n < 8
      ensures Value(Code(n)) == n
    {
      ThreeBitValue(Code(n));
    }
    forall i | 3 <= i < WORD_BITS
      ensures !f[i]
    {
      assert And(f, ValueMask(FUNCTION_BITS))[i] == f[i];
    }
    ThreeBitValue(f);
    assert f == OUTPUT <==> f[0] && !f[1] && !f[2];
  }

  lemma ModesFit(c: Config, p: nat)
    requires WellSized(c) && p < PIN_COUNT
    ensures Fits(Function(c, p), FUNCTION_BITS)
    ensures forall acpi :: Fits(PullMode(acpi, Pull(c, p)), PULL_BITS)
  {
    InRange(PIN_COUNT, FUNCTION_BITS, p);
    InRange(PIN_COUNT, PULL_BITS, p);
    GetFits(c.gpfsel, FUNCTION_BITS, p);
    GetFits(c.pull, PULL_BITS, p);
    CodesFit();
  }

  lemma FunctionSet(c: Config, p: nat, f: word)
    requires WellSized(c) && p < PIN_COUNT && Fits(f, FUNCTION_BITS)
    ensures StorageIndex(p, FUNCTION_BITS) < |c.gpfsel|
    ensures var after := c.(gpfsel := SetIn(c.gpfsel, FUNCTION_BITS, p, f));
            && OnlyPin(c, after, p, f, Pull(c, p))
            && after.gpfsel == c.gpfsel[StorageIndex(p, FUNCTION_BITS) := after.gpfsel[StorageIndex(p, FUNCTION_BITS)]]
  {
    InRange(PIN_COUNT, FUNCTION_BITS, p);
    forall q: nat | q < PIN_COUNT
      ensures StorageIndex(q, FUNCTION_BITS) < |c.gpfsel|
      ensures Get(SetIn(c.gpfsel, FUNCTION_BITS, p, f), FUNCTION_BITS, q)
           == if q == p then f else Get(c.gpfsel, FUNCTION_BITS, q)
    {
      InRange(PIN_COUNT, FUNCTION_BITS, q);
      GetAfterSet(c.gpfsel, FUNCTION_BITS, p, f, q);
    }
    hide Get, And, Or, ShiftLeft;
  }

  /** Three bits for each pin, ten pins to a register: the pin's bits are `f`, and no other bit has changed. */
  ghost predicate FieldWritten(before: seq<word>, after: seq<word>, p: nat, f: word) {
    && |before| == |after| == 6 && p < PIN_COUNT
    && (forall b | 0 <= b < 3 :: after[p / 10][p % 10 * 3 + b] == f[b])
    && (forall k, b | 0 <= k < 6 && 0 <= b < 32 && !(k == p / 10 && p % 10 * 3 <= b < p % 10 * 3 + 3) ::
          after[k][b] == before[k][b])
  }

  lemma FunctionField(gpfsel: seq<word>, p: nat, f: word)
    requires |gpfsel| == WordsFor(PIN_COUNT, FUNCTION_BITS) && p < PIN_COUNT
    ensures Holds(gpfsel, FUNCTION_BITS, p) && FieldWritten(gpfsel, SetIn(gpfsel, FUNCTION_BITS, p, f), p, f)
  {
    InRange(PIN_COUNT, FUNCTION_BITS, p);
    ElementBits(gpfsel, FUNCTION_BITS, p, f);
  }

  lemma PullSet(c: Config, p: nat, mode: word)
    requires WellSized(c) && p < PIN_COUNT && Fits(mode, PULL_BITS)
    ensures StorageIndex(p, PULL_BITS) < |c.pull|
    ensures OnlyPin(c, c.(pull := SetIn(c.pull, PULL_BITS, p, mode)), p, Function(c, p), mode)
  {
    InRange(PIN_COUNT, PULL_BITS, p);
    forall q: nat | q < PIN_COUNT
      ensures StorageIndex(q, PULL_BITS) < |c.pull|
      ensures Get(SetIn(c.pull, PULL_BITS, p, mode), PULL_BITS, q) == if q == p then mode else Get(c.pull, PULL_BITS, q)
    {
      InRange(PIN_COUNT, PULL_BITS, q);
      GetAfterSet(c.pull, PULL_BITS, p, mode, q);
    }
    hide Get, SetIn;
  }

  lemma NothingDriven(c: Config)
    requires WellSized(c)
    ensures Range([]) == {} && Untouched(c, c, {})
  {
  }

  /** Driving one pin after others. */
  lemma DriveNext(start: Config, before: Config, after: Config, initial: Config, done: seq<nat>, p: nat, f: word, acpi: AcpiPull)
    requires WellSized(start) && WellSized(before) && WellSized(after) && WellSized(initial) && p < PIN_COUNT && Pins(done)
    requires Untouched(start, before, Range(done)) && forall d | d in done :: Driven(start, before, initial, d, f, acpi)
    requires Driven(before, after, initial, p, f, acpi) && Untouched(before, after, {p})
    ensures Pins(done + [p]) && Untouched(start, after, Range(done + [p])) && Range(done + [p]) == Range(done) + {p}
    ensures forall d | d in done + [p] :: Driven(start, after, initial, d, f, acpi)
  {
    hide Get, PullMode;
  }

  /** The pull is set first, unless the pin becomes an output, and the function after it. */
  lemma PullThenFunction(before: Config, middle: Config, after: Config, initial: Config, p: nat, f: word, acpi: AcpiPull)
    requires WellSized(before) && WellSized(middle) && WellSized(after) && WellSized(initial) && p < PIN_COUNT
    requires if f == OUTPUT then middle == before
             else OnlyPin(before, middle, p, Function(before, p), PullMode(acpi, Pull(initial, p)))
    requires OnlyPin(middle, after, p, f, Pull(middle, p))
    ensures Driven(before, after, initial, p, f, acpi) && Untouched(before, after, {p})
  {
    hide Function, Pull;
  }

  lemma PullValues(default: word)
    ensures Value(PullMode(PullUp, default)) == 2 && Value(PullMode(PullDown, default)) == 1
    ensures Value(PullMode(PullNone, default)) == 0
    ensures PullMode(PullDefault, default) == PullMode(PullInvalid, default) == default
  {
    CodesFit();
    CodeValues(OUTPUT);
  }

  class Controller {
    var current: Config             // gpfsel and pullConfig
    const initial: Config           // initialGpfsel and defaultPullConfig
    var openIoPins: set<nat>
    var openInterruptPins: set<nat>

    // the hardware
    var gpfselRegisters: seq<word>
    var pinPull: seq<word>          // the pull that was last clocked into each pin

    // history
    ghost var openFunctionPins: set<nat>
    ghost var preserved: set<nat>   // pins whose configuration a disconnect was asked to keep, since their last revert

    ghost predicate Open(p: nat)
      reads this
    {
      p in openIoPins || p in openInterruptPins || p in openFunctionPins
    }

    ghost predicate Shadowed()
      reads this
    {
      && WellSized(current) && WellSized(initial)
      && gpfselRegisters == current.gpfsel
      && |pinPull| == PIN_COUNT && forall p: nat | p < PIN_COUNT :: pinPull[p] == Pull(current, p)
    }

    /** Shadow and hardware agree, and every pin that nobody has open is restored. */
    ghost predicate Valid()
      reads this
    {
      && Shadowed()
      && forall p: nat | p < PIN_COUNT && !Open(p) && p !in preserved :: Restored(current, initial, p)
    }

    /** As long as no disconnect has been asked to keep a configuration, a pin that nobody has open has its initial
        function and, unless that is OUTPUT, its default pull, in the shadow registers and in the hardware alike. */
    lemma ClosedPinRestored(p: nat)
      requires Valid() && preserved == {} && p < PIN_COUNT && !Open(p)
      ensures Holds(gpfselRegisters, FUNCTION_BITS, p) && |pinPull| == PIN_COUNT && WellSized(initial)
      ensures Get(gpfselRegisters, FUNCTION_BITS, p) == Function(initial, p)
      ensures Function(initial, p) != OUTPUT ==> pinPull[p] == Pull(initial, p)
    {
      InRange(PIN_COUNT, FUNCTION_BITS, p);
      hide Get;
    }

    /** The constructor with StartController: the function registers are read, the pulls are the data sheet's. */
    constructor (gpfsel: seq<word>, defaultPull: seq<word>)
      requires WellSized(Config(gpfsel, defaultPull))
      ensures Valid() && initial == Config(gpfsel, defaultPull) && preserved == {} && forall p: nat :: !Open(p)
    {
      current, initial := Config(gpfsel, defaultPull), Config(gpfsel, defaultPull);
      openIoPins, openInterruptPins, openFunctionPins, preserved := {}, {}, {}, {};
      gpfselRegisters := gpfsel;
      pinPull := seq(PIN_COUNT, p requires 0 <= p < PIN_COUNT => Pull(Config(gpfsel, defaultPull), p));
    }

    /** updatePullMode: nothing is clocked when the shadow already has the mode. */
    method UpdatePullMode(p: nat, mode: word)
      requires Shadowed() && p < PIN_COUNT && Fits(mode, PULL_BITS)
      modifies this`current, this`pinPull
      ensures Shadowed() && OnlyPin(old(current), current, p, Function(old(current), p), mode)
      ensures current.gpfsel == old(current).gpfsel && pinPull[p] == mode
    {
      if mode == Pull(current, p) {
        return;
      }
      ghost var before := current;
      PullSet(before, p, mode);
      hide Get, Fits, SetIn;
      current := current.(pull := SetIn(current.pull, PULL_BITS, p, mode));
      pinPull := pinPull[p := mode];
    }

    /** setDriveMode: the pull first, unless the pin becomes an output, then the function. */
    method SetDriveMode(p: nat, f: word, acpi: AcpiPull)
      requires Shadowed() && p < PIN_COUNT && Fits(f, FUNCTION_BITS)
      modifies this`current, this`pinPull, this`gpfselRegisters
      ensures Shadowed()
      ensures Driven(old(current), current, initial, p, f, acpi) && Untouched(old(current), current, {p})
      ensures FieldWritten(old(gpfselRegisters), gpfselRegisters, p, f)
      ensures Value(f) == 1 ==> pinPull == old(pinPull)
      ensures Value(f) != 1 ==>
                && (acpi.PullUp? ==> Value(pinPull[p]) == 2)
                && (acpi.PullDown? ==> Value(pinPull[p]) == 1)
                && (acpi.PullNone? ==> Value(pinPull[p]) == 0)
                && (acpi.PullDefault? || acpi.PullInvalid? ==> pinPull[p] == Pull(initial, p))
    {
      hide Get, Fits, Code, And, SetIn, Value, Driven, Untouched, OnlyPin, PullMode, Function, Pull, FieldWritten;
      ModesFit(initial, p);
      CodeValues(f);
      PullValues(Pull(initial, p));
      ghost var before := current;
      if f != OUTPUT {
        UpdatePullMode(p, PullMode(acpi, Pull(initial, p)));
      }
      ghost var middle := current;
      SelectFunction(p, f);
      PullThenFunction(before, middle, current, initial, p, f, acpi);
    }

    /** setDriveMode, the function part. */
    method SelectFunction(p: nat, f: word)
      requires Shadowed() && p < PIN_COUNT && Fits(f, FUNCTION_BITS)
      modifies this`current, this`gpfselRegisters
      ensures Shadowed() && OnlyPin(old(current), current, p, f, Pull(old(current), p))
      ensures FieldWritten(old(gpfselRegisters), gpfselRegisters, p, f)
    {
      FunctionSet(current, p, f);
      FunctionField(current.gpfsel, p, f);
      hide Get, Fits, And, SetIn;
      var index := StorageIndex(p, FUNCTION_BITS);
      current := current.(gpfsel := SetIn(current.gpfsel, FUNCTION_BITS, p, f));
      gpfselRegisters := gpfselRegisters[index := current.gpfsel[index]];
    }

    /** setDriveMode for a pin that somebody has open. */
    method DriveOpenPin(p: nat, f: word, acpi: AcpiPull)
      requires Valid() && p < PIN_COUNT && Open(p) && Fits(f, FUNCTION_BITS)
      modifies this`current, this`pinPull, this`gpfselRegisters
      ensures Valid()
      ensures Driven(old(current), current, initial, p, f, acpi) && Untouched(old(current), current, {p})
    {
      hide Get, Fits, Code, And, PullMode, Driven;
      SetDriveMode(p, f, acpi);
    }

    /** revertPinToDefault. */
    method RevertPinToDefault(p: nat)
      requires Shadowed() && p < PIN_COUNT
      modifies this`current, this`pinPull, this`gpfselRegisters, this`preserved
      ensures Shadowed() && Restored(current, initial, p) && preserved == old(preserved) - {p}
      ensures Reverted(old(current), current, initial, p) && Untouched(old(current), current, {p})
    {
      ModesFit(initial, p);
      hide Get, Fits, Code, And;
      SetDriveMode(p, Function(initial, p), PullDefault);
      preserved := preserved - {p};
    }

    /** ConnectIoPins. */
    method ConnectIoPins(pins: seq<nat>, mode: ConnectMode, acpi: AcpiPull) returns (status: Status)
      requires Valid() && Pins(pins)
      modifies this`current, this`pinPull, this`gpfselRegisters, this`openIoPins
      ensures Valid()
      ensures status == if mode == ConnectModeOther then NotSupported else Success
      ensures status != Success ==> openIoPins == old(openIoPins) && current == old(current)
      ensures status == Success ==>
                && openIoPins == old(openIoPins) + Range(pins) && Untouched(old(current), current, Range(pins))
                && (forall p | p in pins ::
                      Driven(old(current), current, initial, p, if mode == ConnectModeInput then INPUT else OUTPUT, acpi))
    {
      if mode == ConnectModeOther {
        return NotSupported;
      }
      var f := if mode == ConnectModeInput then INPUT else OUTPUT;
      CodesFit();
      hide Get, Fits, Code, And, PullMode, Driven, Untouched, Restored, Range, Function, Pull;
      NothingDriven(current);
      var i := 0;
      while i < |pins|
        invariant i <= |pins| && Pins(pins[..i]) && Valid() && openIoPins == old(openIoPins) + Range(pins[..i])
        invariant Untouched(old(current), current, Range(pins[..i]))
        invariant forall p | p in pins[..i] :: Driven(old(current), current, initial, p, f, acpi)
      {
        assert pins[..i + 1] == pins[..i] + [pins[i]];
        ghost var before := current;
        openIoPins := openIoPins + {pins[i]};
        DriveOpenPin(pins[i], f, acpi);
        DriveNext(old(current), before, current, initial, pins[..i], pins[i], f, acpi);
        i := i + 1;
      }
      assert pins[..|pins|] == pins;
      return Success;
    }

    /** DisconnectIoPins: a pin reverts unless it still serves an interrupt or its configuration is to be kept. */
    method DisconnectIoPins(pins: seq<nat>, preserveConfiguration: bool)
      requires Valid() && Pins(pins)
      modifies this`current, this`pinPull, this`gpfselRegisters, this`openIoPins, this`preserved
      ensures Valid() && openIoPins == old(openIoPins) - Range(pins)
      ensures Untouched(old(current), current, if preserveConfiguration then {} else Range(pins) - openInterruptPins)
      ensures preserved == if preserveConfiguration then old(preserved) + Range(pins)
                           else old(preserved) - (Range(pins) - openInterruptPins)
      ensures forall p | p in pins && !preserveConfiguration && p !in openInterruptPins ::
                Reverted(old(current), current, initial, p)
    {
      hide Get, Fits, Code, And, Restored, Driven;
      NothingDriven(current);
      var i := 0;
      while i < |pins|
        invariant i <= |pins| && Pins(pins[..i]) && Valid() && openIoPins == old(openIoPins) - Range(pins[..i])
        invariant Untouched(old(current), current, if preserveConfiguration then {} else Range(pins[..i]) - openInterruptPins)
        invariant preserved == if preserveConfiguration then old(preserved) + Range(pins[..i])
                               else old(preserved) - (Range(pins[..i]) - openInterruptPins)
        invariant forall p | p in pins[..i] && !preserveConfiguration && p !in openInterruptPins ::
                    Reverted(old(current), current, initial, p)
      {
        var p := pins[i];
        assert pins[..i + 1] == pins[..i] + [p];
        ghost var before := current;
        if !preserveConfiguration && p !in openInterruptPins {
          RevertPinToDefault(p);
          RestoredElsewhere(before, current, initial, p);
          RevertNext(old(current), before, current, initial, pins[..i], openInterruptPins, p);
        }
        if preserveConfiguration {
          preserved := preserved + {p};
        }
        openIoPins := openIoPins - {p};
        i := i + 1;
      }
      assert pins[..|pins|] == pins;
    }

    /** EnableInterrupt, the pin configuration part: an input, unless the pin is already connected for I/O. */
    method EnableInterrupt(p: nat, acpi: AcpiPull)
      requires Valid() && p < PIN_COUNT
      modifies this`current, this`pinPull, this`gpfselRegisters, this`openInterruptPins
      ensures Valid() && openInterruptPins == old(openInterruptPins) + {p} && Untouched(old(current), current, {p})
      ensures if p in openIoPins then current == old(current) else Driven(old(current), current, initial, p, INPUT, acpi)
    {
      CodesFit();
      hide Get, Fits, Code, And;
      openInterruptPins := openInterruptPins + {p};
      if p !in openIoPins {
        SetDriveMode(p, INPUT, acpi);
      }
    }

    /** DisableInterrupt, the pin configuration part. */
    method DisableInterrupt(p: nat)
      requires Valid() && p < PIN_COUNT
      modifies this`current, this`pinPull, this`gpfselRegisters, this`openInterruptPins, this`preserved
      ensures Valid() && openInterruptPins == old(openInterruptPins) - {p} && Untouched(old(current), current, {p})
      ensures if p in openIoPins then current == old(current) && preserved == old(preserved)
              else Reverted(old(current), current, initial, p) && preserved == old(preserved) - {p}
    {
      hide Get, Fits, Code, And, Restored, Driven;
      ghost var before := current;
      if p !in openIoPins {
        RevertPinToDefault(p);
        RestoredElsewhere(before, current, initial, p);
      }
      openInterruptPins := openInterruptPins - {p};
    }

    /** ConnectFunctionConfigPins: alternate functions only, numbers 2 to 7. */
    method ConnectFunctionConfigPins(pins: seq<nat>, functionNumber: nat, acpi: AcpiPull) returns (status: Status)
      requires Valid() && Pins(pins)
      modifies this`current, this`pinPull, this`gpfselRegisters, this`openFunctionPins
      ensures Valid()
      ensures status == (if !(2 <= functionNumber <= 7) then InvalidParameter
                         else if acpi == PullInvalid then NotSupported else Success)
      ensures status != Success ==> openFunctionPins == old(openFunctionPins) && current == old(current)
      ensures status == Success ==>
                && openFunctionPins == old(openFunctionPins) + Range(pins) && Untouched(old(current), current, Range(pins))
                && (forall p | p in pins :: Driven(old(current), current, initial, p, Code(functionNumber), acpi))
    {
      if !(2 <= functionNumber <= 7) {
        return InvalidParameter;
      }
      if acpi == PullInvalid {
        return NotSupported;
      }
      CodesFit();
      hide Get, Fits, Code, And, PullMode, Driven, Untouched, Restored, Range, Function, Pull;
      DriveFunctionPins(pins, Code(functionNumber), acpi);
      return Success;
    }

    /** Each pin of the list gets the function and the pull. */
    method DriveFunctionPins(pins: seq<nat>, f: word, acpi: AcpiPull)
      requires Valid() && Pins(pins) && Fits(f, FUNCTION_BITS)
      modifies this`current, this`pinPull, this`gpfselRegisters, this`openFunctionPins
      ensures Valid() && openFunctionPins == old(openFunctionPins) + Range(pins)
      ensures Untouched(old(current), current, Range(pins))
      ensures forall p | p in pins :: Driven(old(current), current, initial, p, f, acpi)
    {
      hide Get, Fits, Code, And, PullMode, Driven, Untouched, Restored, Range, Function, Pull;
      NothingDriven(current);
      var i := 0;
      while i < |pins|
        invariant i <= |pins| && Pins(pins[..i]) && Valid() && openFunctionPins == old(openFunctionPins) + Range(pins[..i])
        invariant Untouched(old(current), current, Range(pins[..i]))
        invariant forall p | p in pins[..i] :: Driven(old(current), current, initial, p, f, acpi)
      {
        assert pins[..i + 1] == pins[..i] + [pins[i]];
        ghost var before := current;
        openFunctionPins := openFunctionPins + {pins[i]};
        DriveOpenPin(pins[i], f, acpi);
        DriveNext(old(current), before, current, initial, pins[..i], pins[i], f, acpi);
        i := i + 1;
      }
      assert pins[..|pins|] == pins;
    }

    /** DisconnectFunctionConfigPins: always reverts. */
    method DisconnectFunctionConfigPins(pins: seq<nat>)
      requires Valid() && Pins(pins)
      modifies this`current, this`pinPull, this`gpfselRegisters, this`openFunctionPins, this`preserved
      ensures Valid() && openFunctionPins == old(openFunctionPins) - Range(pins)
      ensures preserved == old(preserved) - Range(pins) && Untouched(old(current), current, Range(pins))
      ensures forall p | p in pins :: Reverted(old(current), current, initial, p)
    {
      hide Get, Fits, Code, And, Restored, Driven;
      NothingDriven(current);
      var i := 0;
      while i < |pins|
        invariant i <= |pins| && Pins(pins[..i]) && Valid() && openFunctionPins == old(openFunctionPins) - Range(pins[..i])
        invariant Untouched(old(current), current, Range(pins[..i])) && preserved == old(preserved) - Range(pins[..i])
        invariant forall p | p in pins[..i] :: Reverted(old(current), current, initial, p)
      {
        var p := pins[i];
        assert pins[..i + 1] == pins[..i] + [p];
        ghost var before := current;
        RevertPinToDefault(p);
        RestoredElsewhere(before, current, initial, p);
        RevertNext(old(current), before, current, initial, pins[..i], {}, p);
        openFunctionPins := openFunctionPins - {p};
        i := i + 1;
      }
      assert pins[..|pins|] == pins;
    }
  }

  /** A pin whose initial function is OUTPUT: connected as an input with a pull-up and disconnected again, it is an output
      as before, but its pull stays up. */
  method OutputPinKeepsPull() returns (c: Controller)
    ensures fresh(c) && c.Valid() && c.preserved == {} && !c.Open(0)
    ensures Function(c.initial, 0) == OUTPUT && Pull(c.initial, 0) == PULL_DISABLE
    ensures Function(c.current, 0) == OUTPUT && Pull(c.current, 0) == PULL_UP != PULL_DISABLE
  {
    OutputConfig();
    c := new Controller(seq(WordsFor(PIN_COUNT, FUNCTION_BITS), i => OUTPUT), seq(WordsFor(PIN_COUNT, PULL_BITS), i => PULL_DISABLE));
    assert !c.Open(0) && 0 in Range([0]);
    hide Get, Code, And, Fits, Restored;
    var _ := c.ConnectIoPins([0], ConnectModeInput, PullUp);
    assert 0 in [0];
    c.DisconnectIoPins([0], false);
  }

  lemma OutputConfig()
    ensures var c := Config(seq(WordsFor(PIN_COUNT, FUNCTION_BITS), i => OUTPUT), seq(WordsFor(PIN_COUNT, PULL_BITS), i => PULL_DISABLE));
            WellSized(c) && Function(c, 0) == OUTPUT && Pull(c, 0) == PULL_DISABLE
    ensures PULL_UP != PULL_DISABLE && INPUT != OUTPUT
  {
    CodesFit();
    assert PULL_UP[1] != PULL_DISABLE[1];
    assert BitPosition(0, FUNCTION_BITS) == 0 && BitPosition(0, PULL_BITS) == 0;
    assert StorageIndex(0, FUNCTION_BITS) == 0 && StorageIndex(0, PULL_BITS) == 0;
  }

  /** Reverting one pin after others. */
  lemma RevertNext(start: Config, before: Config, after: Config, initial: Config, done: seq<nat>, except: set<nat>, p: nat)
    requires WellSized(start) && WellSized(before) && WellSized(after) && WellSized(initial) && p < PIN_COUNT && Pins(done)
    requires p !in except && Untouched(start, before, Range(done) - except)
    requires forall d | d in done && d !in except :: Reverted(start, before, initial, d)
    requires Reverted(before, after, initial, p) && Untouched(before, after, {p})
    ensures Pins(done + [p]) && Untouched(start, after, Range(done + [p]) - except) && Range(done + [p]) == Range(done) + {p}
    ensures forall d | d in done + [p] && d !in except :: Reverted(start, after, initial, d)
  {
    hide Get, PullMode;
  }

  lemma RestoredElsewhere(before: Config, after: Config, initial: Config, p: nat)
    requires WellSized(before) && WellSized(after) && WellSized(initial)
    requires forall q: nat | q < PIN_COUNT && q != p ::
               Function(after, q) == Function(before, q) && Pull(after, q) == Pull(before, q)
    ensures forall q: nat | q < PIN_COUNT && q != p :: Restored(after, initial, q) <==> Restored(before, initial, q)
  {
    hide Get, Function, Pull;
  }
}
