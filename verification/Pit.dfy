/** The 8253/8254 timer core.  The device keeps three channel structures and updates them
    in place; what each operation does to a channel is a function on its state, and the
    properties of whole runs are proved about those functions. */
module Pit {

  datatype Chip = I8253 | I8254

  datatype Phase = WaitCount | WaitTrigger | WaitGate | LoadNext | Counting | ReloadNext | StrobeRecover | Done

  /** What the control word sets. */
  datatype Setup = Setup(control: int, modeRaw: int, mode: int, rwMode: int, bcd: bool)

  /** What reads of the channel use. */
  datatype Latches = Latches(readPhase: int, countLatched: bool, statusLatched: bool, outputLatch: int,
                             statusLatch: int)

  /** What writes of a count use. */
  datatype Loading = Loading(writePhase: int, countRegister: int, nullCount: bool, initialLoad: bool,
                             incompleteReload: bool)

  /** What the clock uses. */
  datatype Counter = Counter(element: int, output: bool, armed: bool, ceUndefined: bool, toggleOnReload: bool,
                             phase: Phase)

  datatype Channel = Channel(chip: Chip, setup: Setup, latch: Latches, load: Loading, ctr: Counter, gate: bool,
                             clocks: int)

  // ----- the counting element -----

  function CanonicalMode(raw: int): int {
    var m := raw % 8;
    if m > 5 then m % 4 else m
  }

  function ReloadValue(l: Loading): int {
    if l.countRegister != 0 then l.countRegister else 0x1_0000
  }

  function VisibleCount(value: int): int {
    if value == 0x1_0000 then 0 else value
  }

  function BcdDecrement(value: int): int {
    if value == 0 || value == 0x1_0000 then 0x9999
    else if value % 16 != 0 then (value - 1) % 0x1_0000
    else if value / 16 % 16 != 0 then (value - 0x7) % 0x1_0000
    else if value / 256 % 16 != 0 then (value - 0x67) % 0x1_0000
    else (value - 0x667) % 0x1_0000
  }

  function Decremented(bcd: bool, e: int): int {
    if bcd then BcdDecrement(e)
    else if e == 0 || e == 0x1_0000 then 0xFFFF
    else (e - 1) % 0x1_0000
  }

  function DecrementedBy(bcd: bool, e: int, n: nat): int {
    if n == 0 then e else Decremented(bcd, DecrementedBy(bcd, e, n - 1))
  }

  /** A new element shows through the output latch unless a count is latched there. */
  function WithElement(c: Channel, e: int): Channel {
    c.(ctr := c.ctr.(element := e),
    latch := c.latch.(outputLatch := if c.latch.countLatched then c.latch.outputLatch else VisibleCount(e)))
  }

  function WithOutput(c: Channel, output: bool, phase: Phase): Channel {
    c.(ctr := c.ctr.(output := output, phase := phase))
  }

  // ----- what each operation does to a channel -----

  predicate Odd(c: Channel) {
    c.load.countRegister % 2 == 1
  }

  function LoadedElement(c: Channel): int {
    if c.chip == I8254 && c.setup.mode == 3 && Odd(c) then ReloadValue(c.load) - 1 else ReloadValue(c.load)
  }

  /** The counter part of a load: OUT, the phase, and a pending square-wave toggle. */
  function Reloaded(k: Counter, mode: int, gate: bool): Counter {
    var running := if gate then Counting else WaitGate;
    var d := k.(ceUndefined := false);
    if mode == 0 || mode == 1 then d.(output := false, phase := Counting)
    else if mode == 2 then d.(output := true, phase := running)
    else if mode == 3 then
      d.(output := if k.toggleOnReload then !k.output else if k.phase != ReloadNext then true else k.output,
      toggleOnReload := false, phase := running)
    else d.(output := true, phase := Counting)
  }

  function Load(c: Channel): Channel {
    var d := WithElement(c, LoadedElement(c));
    d.(ctr := Reloaded(d.ctr, c.setup.mode, c.gate),
    load := c.load.(
      nullCount := false,
      incompleteReload := c.load.incompleteReload || (c.setup.rwMode == 3 && c.load.writePhase == 1)))
  }

  function PowerOn(chip: Chip): Channel {
    Channel(chip, Setup(0, 0, 0, 1, false), Latches(0, false, false, 0, 0), Loading(0, 0, true, true, false),
            Counter(0, false, false, false, false, WaitCount), false, 0)
  }

  function LatchCount(c: Channel): Channel {
    if c.latch.countLatched then c
    else c.(latch := c.latch.(outputLatch := VisibleCount(c.ctr.element), countLatched := true, readPhase := 0))
  }

  function StatusByte(c: Channel): int {
    (if c.ctr.output then 0x80 else 0) + (if c.load.nullCount then 0x40 else 0) + c.setup.control % 64
  }

  function LatchStatus(c: Channel): Channel {
    if c.latch.statusLatched then c
    else c.(latch := c.latch.(statusLatch := StatusByte(c), statusLatched := true))
  }

  function ProgramMode(c: Channel, control: int): Channel {
    var raw := control / 2 % 8;
    c.(setup := Setup(control, raw, CanonicalMode(raw), control / 16 % 4, control % 2 == 1),
    latch := c.latch.(readPhase := 0, countLatched := false, statusLatched := false),
    load := Loading(0, c.load.countRegister, true, true, false),
    ctr := Counter(c.ctr.element, CanonicalMode(raw) != 0, false, true, false, WaitCount))
  }

  function FinalizeWrite(c: Channel): Channel {
    var m := c.setup.mode;
    var register := if c.load.countRegister == 1 && m == 2 then 2
                    else if c.load.countRegister == 1 && m == 3 then 0
                    else c.load.countRegister;
    var phase := if c.load.initialLoad then (if m == 1 || m == 5 then WaitTrigger else LoadNext)
                 else if c.load.incompleteReload || m == 0 || m == 4 then LoadNext
                 else c.ctr.phase;
    c.(ctr := c.ctr.(armed := true, phase := phase),
    load := c.load.(
      countRegister := register, nullCount := true, initialLoad := false,
      incompleteReload := if c.load.initialLoad then c.load.incompleteReload else false))
  }

  function WithRegister(c: Channel, register: int, writePhase: int): Channel {
    c.(load := c.load.(countRegister := register, writePhase := writePhase))
  }

  function DataWrite(c: Channel, value: int): Channel {
    var r := c.load.countRegister;
    if c.setup.rwMode == 1 then FinalizeWrite(WithRegister(c, value, c.load.writePhase))
    else if c.setup.rwMode == 2 then FinalizeWrite(WithRegister(c, value * 256, c.load.writePhase))
    else if c.setup.rwMode != 3 then c
    else if c.load.writePhase != 0 then FinalizeWrite(WithRegister(c, r % 256 + value * 256, 0))
    else
      var d := WithRegister(c, r / 256 * 256 + value, 1);
      if c.setup.mode == 0 then WithOutput(d, false, WaitCount) else d
  }

  /** The byte a read returns, and the channel after it. */
  function ReadByte(c: Channel): int {
    var value := if c.latch.countLatched then c.latch.outputLatch else VisibleCount(c.ctr.element);
    if c.latch.statusLatched then c.latch.statusLatch
    else if !c.latch.countLatched && c.setup.rwMode == 3 && c.load.writePhase == 1 then
      255 - c.load.countRegister % 256
    else if c.setup.rwMode == 1 then value % 256
    else if c.setup.rwMode == 2 then value / 256
    else if c.setup.rwMode == 3 then (if c.latch.readPhase == 0 then value % 256 else value / 256)
    else 0
  }

  function AfterRead(c: Channel): Channel {
    if c.latch.statusLatched then c.(latch := c.latch.(statusLatched := false))
    else if !c.latch.countLatched && c.setup.rwMode == 3 && c.load.writePhase == 1 then c
    else if c.setup.rwMode == 1 || c.setup.rwMode == 2 then c.(latch := c.latch.(countLatched := false))
    else if c.setup.rwMode == 3 then
      if c.latch.readPhase == 0 then c.(latch := c.latch.(readPhase := 1))
      else c.(latch := c.latch.(readPhase := 0, countLatched := false))
    else c
  }

  function SetGate(c: Channel, gate: bool): Channel {
    var d, m, idle := c.(gate := gate), c.setup.mode, c.ctr.phase == WaitCount;
    if !c.gate && gate && !idle && (m == 1 || m == 5) then d.(ctr := c.ctr.(armed := true, phase := LoadNext))
    else if !c.gate && gate && !idle && (m == 2 || m == 3) then d.(ctr := c.ctr.(phase := LoadNext))
    else if c.gate && !gate && (m == 2 || m == 3) then WithOutput(d, true, if idle then WaitCount else WaitGate)
    else d
  }

  function CountMode3(c: Channel): Channel {
    if Odd(c) && c.chip == I8254 then
      var d := WithElement(c, DecrementedBy(c.setup.bcd, c.ctr.element, 2));
      if VisibleCount(d.ctr.element) != 0 then d
      else if d.ctr.output then d.(ctr := d.ctr.(toggleOnReload := true, phase := ReloadNext))
      else WithElement(WithOutput(d, true, d.ctr.phase), ReloadValue(d.load) - 1)
    else
      var n := if Odd(c) && c.ctr.element % 2 == 1 then (if c.ctr.output then 1 else 3) else 2;
      var d := WithElement(c, DecrementedBy(c.setup.bcd, c.ctr.element, n));
      if VisibleCount(d.ctr.element) != 0 then d
      else WithElement(WithOutput(d, !d.ctr.output, d.ctr.phase), ReloadValue(d.load))
  }

  function Count(c: Channel): Channel {
    var m := c.setup.mode;
    var d := WithElement(c, Decremented(c.setup.bcd, c.ctr.element));
    var v := VisibleCount(d.ctr.element);
    if m == 3 then (if c.gate then CountMode3(c) else c)
    else if (m == 0 || m == 2 || m == 4) && !c.gate then c
    else if m == 0 then (if v == 0 then WithOutput(d, true, d.ctr.phase) else d)
    else if m == 1 then
      (if v == 0 then d.(ctr := d.ctr.(output := d.ctr.output || d.ctr.armed, armed := false)) else d)
    else if m == 2 then (if v == 1 then WithOutput(d, false, ReloadNext) else d)
    else if m == 4 then (if v == 0 then WithOutput(d, false, StrobeRecover) else d)
    else if m == 5 then
      (if v == 0 then d.(ctr := d.ctr.(output := false, armed := false, phase := StrobeRecover)) else d)
    else c
  }

  function Tick(c0: Channel): Channel {
    var c := c0.(clocks := (c0.clocks + 1) % 0x1_0000_0000_0000_0000);
    match c.ctr.phase
    case LoadNext => Load(c)
    case ReloadNext => Load(c)
    case StrobeRecover => WithOutput(c, true, Counting)
    case WaitTrigger => if c.ctr.ceUndefined && c.ctr.armed then WithElement(c, 3) else c
    case Counting => Count(c)
    case _ => c
  }

  /** A read-back command latches what it selects. */
  function ReadBack(c: Channel, value: int, selected: bool): Channel {
    if !selected then c
    else
      var d := if value / 32 % 2 == 0 then LatchCount(c) else c;
      if value / 16 % 2 == 0 then LatchStatus(d) else d
  }

  /** Whether a read-back command names channel i: bit i + 1 of the command. */
  predicate Selects(value: int, i: int) {
    (if i == 0 then value / 2 else if i == 1 then value / 4 else value / 8) % 2 == 1
  }

  /** What a control write does to channel i. */
  function ControlOn(chip: Chip, c: Channel, value: int, i: int): Channel {
    if value / 64 == 3 then ReadBack(c, value, chip == I8254 && Selects(value, i))
    else if value / 64 != i then c
    else if value / 16 % 4 == 0 then LatchCount(c)
    else ProgramMode(c, value)
  }

  // ----- the device -----

  datatype Pins = Pins(chip: Chip, channels: seq<Channel>, lastControl: int)

  class Device {
    var chip: Chip
    var channel: array<Channel>
    var lastControl: int

    ghost predicate Valid()
      reads this
    {
      channel.Length == 3
    }

    ghost function View(): Pins
      reads this, channel
    {
      Pins(chip, channel[..], lastControl)
    }

    constructor (chip: Chip)
      ensures Valid() && fresh(channel)
      ensures View() == Pins(chip, [PowerOn(chip), PowerOn(chip), PowerOn(chip)], 0)
    {
      this.chip, lastControl := chip, 0;
      channel := new Channel[3](_ => PowerOn(chip));
    }

    method Reset(chip: Chip)
      requires Valid()
      modifies this, channel
      ensures Valid() && channel == old(channel)
      ensures View() == Pins(chip, [PowerOn(chip), PowerOn(chip), PowerOn(chip)], 0)
    {
      this.chip, lastControl := chip, 0;
      for i := 0 to 3
        invariant channel == old(channel) && this.chip == chip && lastControl == 0 && Valid()
        invariant forall j :: 0 <= j < i ==> channel[j] == PowerOn(chip)
      {
        channel[i] := PowerOn(chip);
      }
    }

    method SetElement(i: nat, e: int)
      requires i < channel.Length
      modifies channel
      ensures channel[..] == old(channel[..])[i := WithElement(old(channel[i]), e)]
    {
      var c := channel[i];
      c := c.(ctr := c.ctr.(element := e));
      if !c.latch.countLatched {
        c := c.(latch := c.latch.(outputLatch := VisibleCount(e)));
      }
      channel[i] := c;
    }

    method DecrementOnce(i: nat)
      requires i < channel.Length
      modifies channel
      ensures channel[..] == old(channel[..])[i := WithElement(old(channel[i]),
                               Decremented(old(channel[i]).setup.bcd, old(channel[i]).ctr.element))]
    {
      var e := channel[i].ctr.element;
      if channel[i].setup.bcd {
        SetElement(i, BcdDecrement(e));
      } else if e == 0 {
        SetElement(i, 0xFFFF);
      } else if e == 0x1_0000 {
        SetElement(i, 0xFFFF);
      } else {
        SetElement(i, (e - 1) % 0x1_0000);
      }
    }

    method DecrementTimes(i: nat, n: nat)
      requires i < channel.Length && n > 0
      modifies channel
      ensures channel[..] == old(channel[..])[i := WithElement(old(channel[i]),
                               DecrementedBy(old(channel[i]).setup.bcd, old(channel[i]).ctr.element, n))]
    {
      hide Decremented;
      ghost var bcd, e := channel[i].setup.bcd, channel[i].ctr.element;
      var left: nat := n;
      while left > 0
        invariant 0 <= left <= n
        invariant left == n ==> channel[..] == old(channel[..])
        invariant left < n ==>
                    channel[..] == old(channel[..])[i := WithElement(old(channel[i]), DecrementedBy(bcd, e, n - left))]
      {
        left := left - 1;
        DecrementOnce(i);
      }
    }

    method LoadCountingElement(i: nat)
      requires i < channel.Length
      modifies channel
      ensures channel[..] == old(channel[..])[i := Load(old(channel[i]))]
    {
      hide WithElement, LoadedElement, ReloadValue, Reloaded;
      var c := channel[i];
      LoadedIsMasked(c);
      var load := ReloadValue(c.load);
      if c.chip == I8254 && c.setup.mode == 3 && c.load.countRegister % 2 == 1 {
        load := load - load % 2;
      }
      SetElement(i, load);
      WithElementKeeps(c, load);
      c := channel[i];
      var k, l := c.ctr, c.load;
      l := l.(nullCount := false);
      k := k.(ceUndefined := false);
      if c.setup.rwMode == 3 && l.writePhase == 1 {
        l := l.(incompleteReload := true);
      }
      ReloadedDefined(c.ctr, c.setup.mode, c.gate);
      k := StartCounting(k, c.setup.mode, c.gate);
      channel[i] := c.(ctr := k, load := l);
    }

    method StartCounting(k0: Counter, mode: int, gate: bool) returns (k: Counter)
      requires !k0.ceUndefined
      ensures k == Reloaded(k0, mode, gate)
    {
      k := k0;
      match mode {
        case 0 => k := k.(output := false, phase := Counting);
        case 1 => k := k.(output := false, phase := Counting);
        case 2 => k := k.(output := true, phase := if gate then Counting else WaitGate);
        case 3 =>
          if k.toggleOnReload {
            k := k.(output := !k.output, toggleOnReload := false);
          } else if k.phase != ReloadNext {
            k := k.(output := true);
          }
          k := k.(phase := if gate then Counting else WaitGate);
        case _ => k := k.(output := true, phase := Counting);
      }
    }

    method LatchCountOf(i: nat)
      requires i < channel.Length
      modifies channel
      ensures channel[..] == old(channel[..])[i := LatchCount(old(channel[i]))]
    {
      var c := channel[i];
      if c.latch.countLatched {
        return;
      }
      var l := c.latch;
      l := l.(outputLatch := VisibleCount(c.ctr.element));
      l := l.(countLatched := true);
      l := l.(readPhase := 0);
      channel[i] := c.(latch := l);
    }

    method LatchStatusOf(i: nat)
      requires i < channel.Length
      modifies channel
      ensures channel[..] == old(channel[..])[i := LatchStatus(old(channel[i]))]
    {
      var c := channel[i];
      if c.latch.statusLatched {
        return;
      }
      channel[i] := c.(latch := c.latch.(statusLatch := StatusByte(c), statusLatched := true));
    }

    method Program(i: nat, control: int)
      requires i < channel.Length
      modifies channel
      ensures channel[..] == old(channel[..])[i := ProgramMode(old(channel[i]), control)]
    {
      var c := channel[i];
      var s, l, w, k := c.setup, c.latch, c.load, c.ctr;
      s := s.(control := control, modeRaw := control / 2 % 8);
      s := s.(mode := CanonicalMode(s.modeRaw));
      s := s.(rwMode := control / 16 % 4, bcd := control % 2 == 1);
      w, l := w.(writePhase := 0), l.(readPhase := 0);
      l := l.(countLatched := false, statusLatched := false);
      w, k := w.(nullCount := true), k.(armed := false);
      w := w.(initialLoad := true, incompleteReload := false);
      k := k.(ceUndefined := true, toggleOnReload := false, phase := WaitCount);
      k := k.(output := s.mode != 0);
      channel[i] := c.(setup := s, latch := l, load := w, ctr := k);
    }

    method ControlWrite(value: int)
      requires Valid() && 0 <= value < 256
      modifies this, channel
      ensures Valid() && channel == old(channel)
      ensures chip == old(chip) && lastControl == value
      ensures forall i :: 0 <= i < 3 ==> channel[i] == ControlOn(chip, old(channel[i]), value, i)
    {
      hide LatchCount, LatchStatus, ProgramMode;
      var select := value / 64;
      lastControl := value;
      if select == 3 {
        if chip == I8254 {
          for i := 0 to 3
            invariant channel == old(channel) && chip == old(chip) && lastControl == value && Valid()
            invariant forall j :: 0 <= j < i ==> channel[j] == ControlOn(chip, old(channel[j]), value, j)
            invariant forall j :: i <= j < 3 ==> channel[j] == old(channel[j])
          {
            if Selects(value, i) {
              if value / 32 % 2 == 0 {
                LatchCountOf(i);
              }
              if value / 16 % 2 == 0 {
                LatchStatusOf(i);
              }
            }
          }
        }
      } else if value / 16 % 4 == 0 {
        LatchCountOf(select);
      } else {
        Program(select, value);
      }
    }

    method CompleteWrite(i: nat)
      requires i < channel.Length
      modifies channel
      ensures channel[..] == old(channel[..])[i := FinalizeWrite(old(channel[i]))]
    {
      var c := channel[i];
      var m, l, k := c.setup.mode, c.load, c.ctr;
      if l.countRegister == 1 {
        if m == 2 {
          l := l.(countRegister := 2);
        } else if m == 3 {
          l := l.(countRegister := 0);
        }
      }
      l, k := l.(nullCount := true), k.(armed := true);
      if l.initialLoad {
        l := l.(initialLoad := false);
        k := k.(phase := if m == 1 || m == 5 then WaitTrigger else LoadNext);
      } else {
        if l.incompleteReload || m == 0 || m == 4 {
          k := k.(phase := LoadNext);
        }
        l := l.(incompleteReload := false);
      }
      channel[i] := c.(ctr := k, load := l);
    }

    method DataWriteTo(i: nat, value: int)
      requires Valid()
      modifies channel
      ensures channel[..] == if i >= 3 then old(channel[..]) else old(channel[..])[i := DataWrite(old(channel[i]), value)]
    {
      hide FinalizeWrite;
      if i >= 3 {
        return;
      }
      var c := channel[i];
      var r := c.load.countRegister;
      match c.setup.rwMode {
        case 1 =>
          channel[i] := WithRegister(c, value, c.load.writePhase);
          CompleteWrite(i);
        case 2 =>
          channel[i] := WithRegister(c, value * 256, c.load.writePhase);
          CompleteWrite(i);
        case 3 =>
          if c.load.writePhase == 0 {
            c := WithRegister(c, r / 256 * 256 + value, 1);
            if c.setup.mode == 0 {
              c := WithOutput(c, false, WaitCount);
            }
            channel[i] := c;
          } else {
            channel[i] := WithRegister(c, r % 256 + value * 256, 0);
            CompleteWrite(i);
          }
        case _ =>
      }
    }

    method DataRead(i: nat) returns (r: int)
      requires Valid()
      modifies channel
      ensures i >= 3 ==> r == 0xFF && channel[..] == old(channel[..])
      ensures i < 3 ==> r == ReadByte(old(channel[i])) && channel[..] == old(channel[..])[i := AfterRead(old(channel[i]))]
    {
      if i >= 3 {
        return 0xFF;
      }
      var c := channel[i];
      var l := c.latch;
      if l.statusLatched {
        channel[i] := c.(latch := l.(statusLatched := false));
        return l.statusLatch;
      }
      var value := if l.countLatched then l.outputLatch else VisibleCount(c.ctr.element);
      if !l.countLatched && c.setup.rwMode == 3 && c.load.writePhase == 1 {
        return 255 - c.load.countRegister % 256;
      }
      match c.setup.rwMode {
        case 1 =>
          channel[i] := c.(latch := l.(countLatched := false));
          return value % 256;
        case 2 =>
          channel[i] := c.(latch := l.(countLatched := false));
          return value / 256;
        case 3 =>
          if l.readPhase == 0 {
            channel[i] := c.(latch := l.(readPhase := 1));
            return value % 256;
          }
          channel[i] := c.(latch := l.(readPhase := 0, countLatched := false));
          return value / 256;
        case _ =>
          return 0;
      }
    }

    method ChangeGate(i: nat, gate: bool)
      requires Valid()
      modifies channel
      ensures channel[..] == if i >= 3 then old(channel[..]) else old(channel[..])[i := SetGate(old(channel[i]), gate)]
    {
      if i >= 3 {
        return;
      }
      var c := channel[i];
      var was, k := c.gate, c.ctr;
      c := c.(gate := gate);
      if !was && gate {
        match c.setup.mode {
          case 1 | 5 =>
            if k.phase != WaitCount {
              k := k.(armed := true, phase := LoadNext);
            }
          case 2 | 3 =>
            if k.phase != WaitCount {
              k := k.(phase := LoadNext);
            }
          case _ =>
        }
      } else if was && !gate {
        match c.setup.mode {
          case 2 | 3 =>
            k := k.(output := true);
            if k.phase != WaitCount {
              k := k.(phase := WaitGate);
            }
          case _ =>
        }
      }
      channel[i] := c.(ctr := k);
    }

    method CountSquareWave(i: nat)
      requires i < channel.Length
      modifies channel
      ensures channel[..] == old(channel[..])[i := CountMode3(old(channel[i]))]
    {
      hide DecrementedBy;
      var c := channel[i];
      var odd := c.load.countRegister % 2 == 1;
      if odd && c.chip == I8254 {
        DecrementTimes(i, 2);
        c := channel[i];
        if VisibleCount(c.ctr.element) == 0 {
          if c.ctr.output {
            channel[i] := c.(ctr := c.ctr.(toggleOnReload := true, phase := ReloadNext));
          } else {
            channel[i] := c.(ctr := c.ctr.(output := true));
            SetElement(i, ReloadValue(c.load) - 1);
          }
        }
      } else {
        if odd && c.ctr.element % 2 != 0 {
          DecrementTimes(i, if c.ctr.output then 1 else 3);
        } else {
          DecrementTimes(i, 2);
        }
        c := channel[i];
        if VisibleCount(c.ctr.element) == 0 {
          channel[i] := c.(ctr := c.ctr.(output := !c.ctr.output));
          SetElement(i, ReloadValue(c.load));
        }
      }
    }

    method CountDown(i: nat)
      requires i < channel.Length
      modifies channel
      ensures channel[..] == old(channel[..])[i := Count(old(channel[i]))]
    {
      hide Decremented, CountMode3;
      var c := channel[i];
      match c.setup.mode {
        case 0 =>
          if c.gate {
            DecrementOnce(i);
            c := channel[i];
            if VisibleCount(c.ctr.element) == 0 {
              channel[i] := c.(ctr := c.ctr.(output := true));
            }
          }
        case 1 =>
          DecrementOnce(i);
          c := channel[i];
          if VisibleCount(c.ctr.element) == 0 {
            var k := c.ctr;
            if k.armed {
              k := k.(output := true);
            }
            channel[i] := c.(ctr := k.(armed := false));
          }
        case 2 =>
          if c.gate {
            DecrementOnce(i);
            c := channel[i];
            if VisibleCount(c.ctr.element) == 1 {
              channel[i] := c.(ctr := c.ctr.(output := false, phase := ReloadNext));
            }
          }
        case 3 =>
          if c.gate {
            CountSquareWave(i);
          }
        case 4 =>
          if c.gate {
            DecrementOnce(i);
            c := channel[i];
            if VisibleCount(c.ctr.element) == 0 {
              channel[i] := c.(ctr := c.ctr.(output := false, phase := StrobeRecover));
            }
          }
        case 5 =>
          DecrementOnce(i);
          c := channel[i];
          if VisibleCount(c.ctr.element) == 0 {
            channel[i] := c.(ctr := c.ctr.(output := false, armed := false, phase := StrobeRecover));
          }
        case _ =>
      }
    }

    method TickChannel(i: nat)
      requires Valid()
      modifies channel
      ensures channel[..] == if i >= 3 then old(channel[..]) else old(channel[..])[i := Tick(old(channel[i]))]
    {
      hide Load, Count;
      if i >= 3 {
        return;
      }
      var c := channel[i];
      c := c.(clocks := (c.clocks + 1) % 0x1_0000_0000_0000_0000);
      channel[i] := c;
      match c.ctr.phase {
        case LoadNext => LoadCountingElement(i);
        case ReloadNext => LoadCountingElement(i);
        case StrobeRecover => channel[i] := c.(ctr := c.ctr.(output := true, phase := Counting));
        case WaitTrigger =>
          if c.ctr.ceUndefined && c.ctr.armed {
            SetElement(i, 3);
          }
        case Counting => CountDown(i);
        case _ =>
      }
    }

    method TickAll()
      requires Valid()
      modifies channel
      ensures forall i :: 0 <= i < 3 ==> channel[i] == Tick(old(channel[i]))
    {
      hide Tick;
      for i := 0 to 3
        invariant forall j :: 0 <= j < i ==> channel[j] == Tick(old(channel[j]))
        invariant forall j :: i <= j < 3 ==> channel[j] == old(channel[j])
      {
        TickChannel(i);
      }
    }
  }

  lemma ReloadedDefined(k: Counter, mode: int, gate: bool)
    ensures Reloaded(k.(ceUndefined := false), mode, gate) == Reloaded(k, mode, gate)
  {
  }

  lemma LoadedIsMasked(c: Channel)
    ensures var load := ReloadValue(c.load);
            LoadedElement(c) ==
            if c.chip == I8254 && c.setup.mode == 3 && c.load.countRegister % 2 == 1 then load - load % 2 else load
  {
  }

  lemma WithElementKeeps(c: Channel, e: int)
    ensures var d := WithElement(c, e);
            d.setup == c.setup && d.load == c.load && d.gate == c.gate && d.ctr == c.ctr.(element := e)
  {
  }
}
