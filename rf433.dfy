/**
 * The RF433 transmitter of fog-controller.py (`RF433Controller`,
 * fog-controller.py:24-110): a code is sent as RCSwitch "Protocol 1" pulses
 * on a GPIO pin. The pin's history of `gpio_write` calls and `time.sleep`
 * calls is kept as a trace of events; a sleep is counted in pulse units of
 * `pulse_length` (320 microseconds). A decoder for such traces gives the
 * round trip that says the encoding is exact.
 */
module Rf433 {
  /** A level written to the pin: `gpio_write(handle, pin, 0)` or `1`. */
  datatype Level = Low | High

  /** One call on the pin: a write, or a sleep of some pulse units. */
  datatype Event = Write(level: Level) | Sleep(units: nat)

  /** The length of one pulse unit, in microseconds. */
  const PULSE_LENGTH_US: nat := 320

  // Protocol 1 timing, in pulse units
  const SYNC_HIGH: nat := 1
  const SYNC_LOW: nat := 31
  const ZERO_HIGH: nat := 1
  const ZERO_LOW: nat := 3
  const ONE_HIGH: nat := 3
  const ONE_LOW: nat := 1

  /** The codes that switch the fog machine on and off. */
  const CODE_ON: int := 4543756
  const CODE_OFF: int := 4543792

  /** `send_code`'s default code length in bits. */
  const DEFAULT_LENGTH: nat := 24

  /** The initial `repeat_transmit`. */
  const DEFAULT_REPEATS: int := 10

  /** What one step of the transmission sends: a data bit or the sync mark. */
  datatype Symbol = Bit(one: bool) | Sync

  /** A pulse: the pin goes HIGH for `high` units, then LOW for `low` units. */
  function Pulse(high: nat, low: nat): seq<Event> {
    [Write(High), Sleep(high), Write(Low), Sleep(low)]
  }

  /** The pulse of a symbol: `transmit_bit` and `transmit_sync`. */
  function Waveform(s: Symbol): seq<Event> {
    match s
    case Bit(one) => if one then Pulse(ONE_HIGH, ONE_LOW) else Pulse(ZERO_HIGH, ZERO_LOW)
    case Sync => Pulse(SYNC_HIGH, SYNC_LOW)
  }

  /** The pulses of a sequence of symbols, one after another. */
  function Waves(syms: seq<Symbol>): seq<Event>
    decreases |syms|
  {
    if syms == [] then [] else Waveform(syms[0]) + Waves(syms[1..])
  }

  lemma {:induction false} WavesAppend(a: seq<Symbol>, b: seq<Symbol>)
    ensures Waves(a + b) == Waves(a) + Waves(b)
    decreases |a|
  {
    if a != [] {
      calc {
        Waves(a + b);
        { assert (a + b)[1..] == a[1..] + b; }
        Waveform(a[0]) + Waves(a[1..] + b);
        { WavesAppend(a[1..], b); }
        Waveform(a[0]) + Waves(a[1..]) + Waves(b);
      }
    } else {
      assert a + b == b;
    }
  }

  function Pow2(n: nat): (p: nat)
    ensures p >= 1
  {
    if n == 0 then 1 else 2 * Pow2(n - 1)
  }

  /**
   * Bit `i` of `code` as a truth value. Python's `>>` divides by 2^i
   * rounding toward negative infinity, as Dafny's division by a positive
   * number does, and `& 1` of Python's two's complement integers is the
   * remainder modulo 2, which Dafny's `%` never makes negative.
   */
  function BitAt(code: int, i: nat): bool {
    ShiftAndMask(code, i) == 1
  }

  /** `(code >> i) & 1`. */
  function ShiftAndMask(code: int, i: nat): (bit: int)
    ensures bit == 0 || bit == 1
  {
    (code / Pow2(i)) % 2
  }

  /** The bits of one frame in the order they are sent: bit `length - 1` first, bit 0 last. */
  function FrameBits(code: int, length: nat): (bits: seq<bool>)
    ensures |bits| == length
    ensures forall k :: 0 <= k < length ==> bits[k] == BitAt(code, length - 1 - k)
  {
    seq(length, k requires 0 <= k < length => BitAt(code, length - 1 - k))
  }

  function BitSymbols(bits: seq<bool>): (syms: seq<Symbol>)
    ensures |syms| == |bits|
    ensures forall k :: 0 <= k < |bits| ==> syms[k] == Bit(bits[k])
  {
    seq(|bits|, k requires 0 <= k < |bits| => Bit(bits[k]))
  }

  /** One frame: the code's bits, then the sync mark. */
  function FrameSymbols(code: int, length: nat): seq<Symbol> {
    BitSymbols(FrameBits(code, length)) + [Sync]
  }

  /** `n` copies of a frame. */
  function Repeat(frame: seq<Symbol>, n: nat): seq<Symbol>
    decreases n
  {
    if n == 0 then [] else Repeat(frame, n - 1) + frame
  }

  /** How many times `for _ in range(repeats)` runs. */
  function RepeatCount(repeats: int): nat {
    if repeats < 0 then 0 else repeats
  }

  /** Everything `send_code(code, length)` does to the pin: the frames, then a final LOW. */
  function Transmission(code: int, length: nat, repeats: int): seq<Event> {
    Waves(Repeat(FrameSymbols(code, length), RepeatCount(repeats))) + [Write(Low)]
  }

  lemma WavesSnoc(s: seq<Symbol>, x: Symbol)
    ensures Waves(s + [x]) == Waves(s) + Waveform(x)
  {
    WavesAppend(s, [x]);
    assert Waves([x]) == Waveform(x) + Waves([]);
  }

  /** Sending bit `i` extends the part of the frame already sent by one symbol. */
  lemma BitSent(code: int, length: nat, i: nat, before: seq<Event>)
    requires i < length
    ensures var frame := FrameSymbols(code, length);
      before + Waves(frame[..length - 1 - i]) + Waveform(Bit(ShiftAndMask(code, i) != 0)) ==
      before + Waves(frame[..length - i])
  {
    var frame := FrameSymbols(code, length);
    var j := length - 1 - i;
    assert frame[j] == Bit(ShiftAndMask(code, i) != 0);
    assert frame[..j + 1] == frame[..j] + [frame[j]];
    WavesSnoc(frame[..j], frame[j]);
  }

  /** All bits and then the sync mark make one more whole frame. */
  lemma FrameSent(code: int, length: nat, r: nat, before: seq<Event>)
    ensures var frame := FrameSymbols(code, length);
      before + Waves(Repeat(frame, r)) + Waves(frame[..length]) + Waveform(Sync) ==
      before + Waves(Repeat(frame, r + 1))
  {
    var frame := FrameSymbols(code, length);
    assert frame == frame[..length] + [Sync];
    WavesSnoc(frame[..length], Sync);
    WavesAppend(Repeat(frame, r), frame);
  }

  // ---------------------------------------------------------------------------
  // The transmitter
  // ---------------------------------------------------------------------------

  /** `RF433Controller`: the claimed pin, the repeat count and what has been sent on the pin. */
  class Rf433Controller {
    const gpioPin: int
    const handle: int
    var repeatTransmit: int
    /** Every write and sleep on the pin since the pin was claimed. */
    var trace: seq<Event>
    /** Whether `cleanup` has closed the chip. */
    var closed: bool

    /** `__init__`: opens the chip, claims the pin for output and writes LOW. */
    constructor (gpioPin: int, handle: int)
      ensures this.gpioPin == gpioPin && this.handle == handle
      ensures repeatTransmit == DEFAULT_REPEATS && trace == [Write(Low)] && !closed
    {
      this.gpioPin := gpioPin;
      this.handle := handle;
      repeatTransmit := DEFAULT_REPEATS;
      trace := [Write(Low)];
      closed := false;
    }

    /** `cleanup`: closes the chip; its errors are ignored. */
    method Cleanup()
      modifies this`closed
      ensures closed
    {
      closed := true;
    }

    /** `transmit_bit(bit)`: a '1' for any non-zero `bit`, a '0' otherwise. */
    method TransmitBit(bit: int)
      modifies this`trace
      ensures trace == old(trace) + Waveform(Bit(bit != 0))
    {
      if bit != 0 {
        trace := trace + [Write(High), Sleep(ONE_HIGH)];
        trace := trace + [Write(Low), Sleep(ONE_LOW)];
      } else {
        trace := trace + [Write(High), Sleep(ZERO_HIGH)];
        trace := trace + [Write(Low), Sleep(ZERO_LOW)];
      }
    }

    /** `transmit_sync()`. */
    method TransmitSync()
      modifies this`trace
      ensures trace == old(trace) + Waveform(Sync)
    {
      trace := trace + [Write(High), Sleep(SYNC_HIGH)];
      trace := trace + [Write(Low), Sleep(SYNC_LOW)];
    }

    /**
     * `send_code(code, length)`: `repeat_transmit` times, the bits from
     * `length - 1` down to 0 and a sync mark; then the pin is left LOW.
     */
    method SendCode(code: int, length: nat)
      modifies this`trace
      ensures trace == old(trace) + Transmission(code, length, repeatTransmit)
    {
      ghost var frame := FrameSymbols(code, length);
      var r := 0;
      while r < repeatTransmit
        invariant 0 <= r <= RepeatCount(repeatTransmit)
        invariant trace == old(trace) + Waves(Repeat(frame, r))
      {
        var i: int := length - 1;
        while i >= 0
          invariant -1 <= i < length
          invariant trace == old(trace) + Waves(Repeat(frame, r)) + Waves(frame[..length - 1 - i])
        {
          var bit := ShiftAndMask(code, i);
          TransmitBit(bit);
          BitSent(code, length, i, old(trace) + Waves(Repeat(frame, r)));
          i := i - 1;
        }
        TransmitSync();
        FrameSent(code, length, r, old(trace));
        r := r + 1;
      }
      trace := trace + [Write(Low)];
    }

    /** `turn_on()`: sends `CODE_ON` with the default length. */
    method TurnOn() returns (success: bool)
      modifies this`trace
      ensures success && trace == old(trace) + Transmission(CODE_ON, DEFAULT_LENGTH, repeatTransmit)
    {
      SendCode(CODE_ON, DEFAULT_LENGTH);
      success := true;
    }

    /** `turn_off()`: sends `CODE_OFF` with the default length. */
    method TurnOff() returns (success: bool)
      modifies this`trace
      ensures success && trace == old(trace) + Transmission(CODE_OFF, DEFAULT_LENGTH, repeatTransmit)
    {
      SendCode(CODE_OFF, DEFAULT_LENGTH);
      success := true;
    }

    /** `send_custom_code(code)`. */
    method SendCustomCode(code: int) returns (success: bool)
      modifies this`trace
      ensures success && trace == old(trace) + Transmission(code, DEFAULT_LENGTH, repeatTransmit)
    {
      SendCode(code, DEFAULT_LENGTH);
      success := true;
    }
  }
}

/**
 * A receiver for the traces the transmitter produces, and the proofs that it
 * reads every frame back as the code modulo 2^length, and of the
 * transmission's length in pulse units.
 */
module Rf433Receiver {
  import opened Wrappers
  import opened Rf433

  // ---------------------------------------------------------------------------
  // Arithmetic of the right shift
  // ---------------------------------------------------------------------------

  lemma MulAtLeast(m: int, k: int)
    requires m > 0 && k >= 1
    ensures m * k >= m
  {
  }

  /** Division with remainder has one answer. */
  lemma DivModUnique(a: int, m: int, q: int, r: int)
    requires m > 0 && a == m * q + r && 0 <= r < m
    ensures a / m == q && a % m == r
  {
    var q0 := a / m;
    if q0 > q {
      MulAtLeast(m, q0 - q);
    } else if q0 < q {
      MulAtLeast(m, q - q0);
    }
  }

  /** Shifting right by one more place is halving first: `(a >> 1) >> i == a >> (i + 1)`. */
  lemma Halve(a: int, p: int)
    requires p >= 1
    ensures a / (2 * p) == (a / 2) / p
    ensures a % (2 * p) == 2 * ((a / 2) % p) + a % 2
  {
    var q1, r1 := a / 2, a % 2;
    var q2, r2 := q1 / p, q1 % p;
    assert q1 == p * q2 + r2;
    assert a == 2 * q1 + r1;
    assert a == (2 * p) * q2 + (2 * r2 + r1) by {
      assert 2 * (p * q2) == (2 * p) * q2;
    }
    DivModUnique(a, 2 * p, q2, 2 * r2 + r1);
  }

  /** `(code >> (i + 1)) & 1 == ((code >> 1) >> i) & 1`, negative codes included. */
  lemma ShiftOneMore(code: int, i: nat)
    ensures ShiftAndMask(code, i + 1) == ShiftAndMask(code / 2, i)
  {
    Halve(code, Pow2(i));
  }

  /** Python's -1 has every bit set: `(-1 >> i) & 1 == 1` for every `i`. */
  lemma MinusOneAllOnes(i: nat)
    ensures ShiftAndMask(-1, i) == 1
  {
    var p := Pow2(i);
    DivModUnique(-1, p, -1, p - 1);
  }

  // ---------------------------------------------------------------------------
  // Reading pulses back
  // ---------------------------------------------------------------------------

  /**
   * The symbol of one pulse, told apart by its HIGH and LOW durations as a
   * Protocol 1 receiver does.
   */
  function ReadSymbol(w: seq<Event>): Option<Symbol>
    requires |w| == 4
  {
    if w[0] == Write(High) && w[1].Sleep? && w[2] == Write(Low) && w[3].Sleep? then
      var high, low := w[1].units, w[3].units;
      if high == ONE_HIGH && low == ONE_LOW then Some(Bit(true))
      else if high == ZERO_HIGH && low == ZERO_LOW then Some(Bit(false))
      else if high == SYNC_HIGH && low == SYNC_LOW then Some(Sync)
      else None
    else None
  }

  lemma ReadPulse(s: Symbol)
    ensures ReadSymbol(Waveform(s)) == Some(s)
  {
  }

  /** The symbols of a trace read four events at a time. */
  function ReadSymbols(ev: seq<Event>): Option<seq<Symbol>>
    decreases |ev|
  {
    if ev == [] then Some([])
    else if |ev| < 4 then None
    else
      match ReadSymbol(ev[..4])
      case None => None
      case Some(s) =>
        match ReadSymbols(ev[4..])
        case None => None
        case Some(rest) => Some([s] + rest)
  }

  lemma {:induction false} ReadWaves(syms: seq<Symbol>)
    ensures ReadSymbols(Waves(syms)) == Some(syms)
    decreases |syms|
  {
    if syms != [] {
      var w, rest := Waveform(syms[0]), Waves(syms[1..]);
      assert Waves(syms) == w + rest;
      assert (w + rest)[..4] == w;
      assert (w + rest)[4..] == rest;
      ReadPulse(syms[0]);
      ReadWaves(syms[1..]);
      assert [syms[0]] + syms[1..] == syms;
    }
  }

  /**
   * The frames of a symbol sequence: the bits before each sync mark.
   * `pending` holds the bits read since the last sync mark; bits with no
   * sync mark after them make the sequence unreadable.
   */
  function SplitFrames(syms: seq<Symbol>, pending: seq<bool>): Option<seq<seq<bool>>>
    decreases |syms|
  {
    if syms == [] then (if pending == [] then Some([]) else None)
    else
      match syms[0]
      case Bit(b) => SplitFrames(syms[1..], pending + [b])
      case Sync =>
        match SplitFrames(syms[1..], [])
        case None => None
        case Some(frames) => Some([pending] + frames)
  }

  lemma {:induction false} SplitOneFrame(bits: seq<bool>, k: nat, rest: seq<Symbol>)
    requires k <= |bits| && SplitFrames(rest, []).Some?
    ensures SplitFrames(BitSymbols(bits)[k..] + ([Sync] + rest), bits[..k]) ==
            Some([bits] + SplitFrames(rest, []).value)
    decreases |bits| - k
  {
    var syms := BitSymbols(bits)[k..] + ([Sync] + rest);
    if k == |bits| {
      assert syms == [Sync] + rest;
      assert bits[..k] == bits;
      assert syms[1..] == rest;
    } else {
      assert syms[0] == Bit(bits[k]);
      assert syms[1..] == BitSymbols(bits)[k + 1..] + ([Sync] + rest);
      assert bits[..k] + [bits[k]] == bits[..k + 1];
      SplitOneFrame(bits, k + 1, rest);
    }
  }

  lemma {:induction false} RepeatFront(frame: seq<Symbol>, n: nat)
    requires n >= 1
    ensures Repeat(frame, n) == frame + Repeat(frame, n - 1)
    decreases n
  {
    if n > 1 {
      RepeatFront(frame, n - 1);
    }
  }

  /** `n` copies of one value. */
  function Copies<T>(x: T, n: nat): (r: seq<T>)
    ensures |r| == n && forall i :: 0 <= i < n ==> r[i] == x
  {
    seq(n, _ => x)
  }

  lemma {:induction false} SplitRepeated(bits: seq<bool>, n: nat)
    ensures SplitFrames(Repeat(BitSymbols(bits) + [Sync], n), []) == Some(Copies(bits, n))
    decreases n
  {
    if n > 0 {
      var frame := BitSymbols(bits) + [Sync];
      RepeatFront(frame, n);
      SplitRepeated(bits, n - 1);
      assert Repeat(frame, n) == BitSymbols(bits)[0..] + ([Sync] + Repeat(frame, n - 1));
      assert bits[..0] == [];
      SplitOneFrame(bits, 0, Repeat(frame, n - 1));
      assert [bits] + Copies(bits, n - 1) == Copies(bits, n);
    }
  }

  /** The number a frame's bits stand for, most significant bit first. */
  function ValueOf(bits: seq<bool>): nat
    decreases |bits|
  {
    if bits == [] then 0
    else 2 * ValueOf(bits[..|bits| - 1]) + (if bits[|bits| - 1] then 1 else 0)
  }

  /** One frame's bits stand for the code modulo 2^length: no bit is lost or reordered. */
  lemma {:induction false} FrameValue(code: int, length: nat)
    ensures ValueOf(FrameBits(code, length)) == code % Pow2(length)
    decreases length
  {
    if length > 0 {
      var bits := FrameBits(code, length);
      var half := FrameBits(code / 2, length - 1);
      forall k | 0 <= k < length - 1
        ensures bits[k] == half[k]
      {
        Halve(code, Pow2(length - 2 - k));
      }
      assert bits[..length - 1] == half;
      assert bits[length - 1] == (code % 2 == 1);
      FrameValue(code / 2, length - 1);
      Halve(code, Pow2(length - 1));
    }
  }

  /** What a receiver makes of a whole trace: the value of each frame, if the trace ends LOW and reads cleanly. */
  function Receive(ev: seq<Event>): Option<seq<int>> {
    if ev == [] || ev[|ev| - 1] != Write(Low) then None
    else
      match ReadSymbols(ev[..|ev| - 1])
      case None => None
      case Some(syms) =>
        match SplitFrames(syms, [])
        case None => None
        case Some(frames) => Some(Values(frames))
  }

  function Values(frames: seq<seq<bool>>): (r: seq<int>)
    ensures |r| == |frames| && forall i :: 0 <= i < |frames| ==> r[i] == ValueOf(frames[i])
  {
    seq(|frames|, i requires 0 <= i < |frames| => ValueOf(frames[i]))
  }

  /** A trace of whole pulses ended by the LOW write is received as the values of its frames. */
  lemma ReceiveWaves(syms: seq<Symbol>, frames: seq<seq<bool>>)
    requires SplitFrames(syms, []) == Some(frames)
    ensures Receive(Waves(syms) + [Write(Low)]) == Some(Values(frames))
  {
    var ev := Waves(syms) + [Write(Low)];
    assert ev[..|ev| - 1] == Waves(syms);
    ReadWaves(syms);
  }

  /**
   * `send_code(code, length)` is read back as `repeat_transmit` frames, each
   * the code modulo 2^length.
   */
  lemma TransmissionRoundTrip(code: int, length: nat, repeats: int)
    ensures Receive(Transmission(code, length, repeats)) == Some(Copies(code % Pow2(length), RepeatCount(repeats)))
  {
    var n := RepeatCount(repeats);
    var bits := FrameBits(code, length);
    SplitRepeated(bits, n);
    ReceiveWaves(Repeat(BitSymbols(bits) + [Sync], n), Copies(bits, n));
    FrameValue(code, length);
    assert Values(Copies(bits, n)) == Copies(code % Pow2(length), n);
  }

  lemma Pow2Of24()
    ensures Pow2(DEFAULT_LENGTH) == 16777216
  {
    assert Pow2(8) == 256;
    assert Pow2(16) == 65536;
  }

  /** The two codes differ and fit in 24 bits, so both come back whole. */
  lemma OnOffCodesRoundTrip(repeats: int)
    ensures CODE_ON != CODE_OFF
    ensures 0 <= CODE_ON < Pow2(DEFAULT_LENGTH) && 0 <= CODE_OFF < Pow2(DEFAULT_LENGTH)
    ensures Receive(Transmission(CODE_ON, DEFAULT_LENGTH, repeats)) == Some(Copies(CODE_ON, RepeatCount(repeats)))
    ensures Receive(Transmission(CODE_OFF, DEFAULT_LENGTH, repeats)) == Some(Copies(CODE_OFF, RepeatCount(repeats)))
  {
    Pow2Of24();
    TransmissionRoundTrip(CODE_ON, DEFAULT_LENGTH, repeats);
    TransmissionRoundTrip(CODE_OFF, DEFAULT_LENGTH, repeats);
  }

  // ---------------------------------------------------------------------------
  // Timing
  // ---------------------------------------------------------------------------

  /** The time a trace takes, in pulse units: the sum of its sleeps. */
  function Units(ev: seq<Event>): nat
    decreases |ev|
  {
    if ev == [] then 0 else (if ev[0].Sleep? then ev[0].units else 0) + Units(ev[1..])
  }

  lemma {:induction false} UnitsAppend(a: seq<Event>, b: seq<Event>)
    ensures Units(a + b) == Units(a) + Units(b)
    decreases |a|
  {
    if a != [] {
      assert (a + b)[1..] == a[1..] + b;
      UnitsAppend(a[1..], b);
    } else {
      assert a + b == b;
    }
  }

  /** Every bit lasts 4 units, whatever its value. */
  lemma {:induction false} BitsUnits(bits: seq<bool>)
    ensures Units(Waves(BitSymbols(bits))) == 4 * |bits|
    decreases |bits|
  {
    if bits != [] {
      var syms := BitSymbols(bits);
      assert syms[1..] == BitSymbols(bits[1..]);
      UnitsAppend(Waveform(syms[0]), Waves(syms[1..]));
      BitsUnits(bits[1..]);
    }
  }

  /** A frame lasts 4 units per bit and 32 for the sync mark: 128 units (40960 microseconds) for 24 bits. */
  lemma FrameUnits(code: int, length: nat)
    ensures Units(Waves(FrameSymbols(code, length))) == 4 * length + 32
    ensures length == DEFAULT_LENGTH ==> (4 * length + 32) * PULSE_LENGTH_US == 40960
  {
    var bits := FrameBits(code, length);
    WavesAppend(BitSymbols(bits), [Sync]);
    BitsUnits(bits);
    UnitsAppend(Waves(BitSymbols(bits)), Waves([Sync]));
  }

  lemma {:induction false} RepeatUnits(frame: seq<Symbol>, n: nat)
    ensures Units(Waves(Repeat(frame, n))) == n * Units(Waves(frame))
    decreases n
  {
    if n > 0 {
      var prefix := Repeat(frame, n - 1);
      assert Repeat(frame, n) == prefix + frame;
      WavesAppend(prefix, frame);
      UnitsAppend(Waves(prefix), Waves(frame));
      RepeatUnits(frame, n - 1);
      var u := Units(Waves(frame));
      assert n * u == (n - 1) * u + u;
    }
  }

  /** The whole transmission lasts one frame's time per repetition; the final LOW write takes none. */
  lemma TransmissionUnits(code: int, length: nat, repeats: int)
    ensures Units(Transmission(code, length, repeats)) == RepeatCount(repeats) * (4 * length + 32)
  {
    var frame := FrameSymbols(code, length);
    UnitsAppend(Waves(Repeat(frame, RepeatCount(repeats))), [Write(Low)]);
    RepeatUnits(frame, RepeatCount(repeats));
    FrameUnits(code, length);
  }
}
