/**
 * The `Executor` of src/executor.py: the bus master that bit-bangs a serial
 * bus over one 8-bit GPIO port. Its output word `state` is changed in place,
 * bit by bit, and written to the port after every change. The GPIO handle is
 * replaced by a ghost `trace` of port events and by `port`, the sequence of
 * values the port reads return; the inbound queue is the field `requests`.
 */
module Executor {
  import opened BusSpec

  datatype Option<T> = None | Some(value: T)

  /** `run` reads this many bits after every request (src/executor.py:145). */
  const ReadLength: nat := 2048

  class Executor {
    const clk: bv8
    const mosi: bv8
    const miso: bv8
    const cs: bv8
    /** The pin directions the port is opened with: every pin an output but data-in. */
    const direction: bv8
    /** The value the n-th port read returns, counting from 0: the live pins as sampled. */
    const port: nat -> bv8
    /** The output word, every bit low at the start. */
    var state: bv8
    /** How many times the port has been read. */
    var samples: nat
    /** The inbound queue; each request is the list of bits to transmit. */
    var requests: seq<seq<int>>
    /** Every port operation so far, oldest first. */
    ghost var trace: seq<Event>

    function Assignment(): Pins
    {
      Pins(clk, mosi, miso, cs)
    }

    /**
     * The invariant of the bus between operations, over this object's fields:
     * the bus invariant, and the read counter is the number of reads in the trace.
     */
    ghost predicate Valid()
      reads this
    {
      Invariant(Assignment(), state, trace) && samples == CountReads(trace)
    }

    /**
     * `__init__` (src/executor.py:29-70): default masks D0 to D3, every pin
     * low, and that word written once to the port.
     */
    constructor (requests: seq<seq<int>>, port: nat -> bv8,
                 clk: bv8 := DefaultPins.clk, mosi: bv8 := DefaultPins.mosi,
                 miso: bv8 := DefaultPins.miso, cs: bv8 := DefaultPins.cs)
      requires ValidPins(Pins(clk, mosi, miso, cs))
      ensures Valid()
      ensures Assignment() == Pins(clk, mosi, miso, cs)
      ensures direction == Direction(miso)
      ensures this.port == port && this.requests == requests
      ensures state == 0 && samples == 0 && trace == [Write(0)]
    {
      this.clk, this.mosi, this.miso, this.cs := clk, mosi, miso, cs;
      this.direction := Direction(miso);
      this.port := port;
      this.requests := requests;
      state := 0;
      samples := 0;
      trace := [];
      new;
      WritePort();
      assert CountReads(trace) == CountReads([]);
    }

    /** `self.gpio.write_port(self.state)`. */
    method WritePort()
      modifies this`trace
      ensures trace == old(trace) + [Write(state)]
    {
      trace := trace + [Write(state)];
    }

    /** `self.gpio.read()`: the next value the port returns. */
    method ReadPort() returns (v: bv8)
      modifies this`trace, this`samples
      ensures v == port(old(samples))
      ensures samples == old(samples) + 1
      ensures trace == old(trace) + [Read]
    {
      v := port(samples);
      samples := samples + 1;
      trace := trace + [Read];
    }

    /** `time.sleep(self.clock_interval)`: only its place among the port operations is kept. */
    method Hold()
      modifies this`trace
      ensures trace == old(trace) + [Sleep]
    {
      trace := trace + [Sleep];
    }

    /**
     * One pass of the loop in `_write_bits` (src/executor.py:77-93): clock
     * high and chip select low, write, hold; data-out set to whether the bit
     * equals 1, clock low, write, hold.
     */
    method WriteBit(bit: int)
      modifies this`state, this`trace
      ensures state == Shift(Assignment(), Select(Assignment(), old(state)), bit)
      ensures trace == old(trace) + BitEvents(Assignment(), old(state), bit)
    {
      var p := Assignment();
      state := Raise(p, state);
      state := ClearSelect(p, state);
      WritePort();
      Hold();
      state := Drive(p, state, bit);
      state := Lower(p, state);
      WritePort();
      Hold();
      BitEventsEmitted(p, old(trace), old(state), bit);
    }

    /** `_write_bits(bits)` (src/executor.py:72-97): every bit in order, as given. */
    method WriteBits(bits: seq<int>)
      modifies this`state, this`trace
      ensures state == AfterBits(Assignment(), old(state), bits)
      ensures trace == old(trace) + WriteBitsEvents(Assignment(), old(state), bits)
    {
      var i := 0;
      while i < |bits|
        invariant 0 <= i <= |bits|
        invariant state == AfterBits(Assignment(), old(state), bits[..i])
        invariant trace == old(trace) + WriteBitsEvents(Assignment(), old(state), bits[..i])
      {
        WriteBitsStep(Assignment(), old(state), old(trace), bits, i);
        WriteBit(bits[i]);
        i := i + 1;
      }
      assert bits[..i] == bits;
    }

    /**
     * One pass of the loop in `_read_bits` (src/executor.py:104-121): clock
     * high, write, read the port and take its data-in bit, hold, clock low,
     * write, hold.
     */
    method ReadBit() returns (bit: int)
      modifies this`state, this`trace, this`samples
      ensures bit == Sample(Assignment(), port(old(samples)))
      ensures samples == old(samples) + 1
      ensures state == Lower(Assignment(), Raise(Assignment(), old(state)))
      ensures trace == old(trace) + ReadCycleEvents(Assignment(), old(state))
    {
      var p := Assignment();
      state := Raise(p, state);
      WritePort();
      var v := ReadPort();
      bit := Sample(p, v);
      Hold();
      state := Lower(p, state);
      WritePort();
      Hold();
      ReadCycleEmitted(p, old(trace), old(state));
    }

    /**
     * `_read_bits(count)` (src/executor.py:99-124): `count` receive cycles;
     * the result lists the data-in bit of every sample, in order.
     */
    method ReadBits(count: nat) returns (result: seq<int>)
      modifies this`state, this`trace, this`samples
      ensures result == Received(Assignment(), port, old(samples), count)
      ensures |result| == count
      ensures samples == old(samples) + count
      ensures state == AfterReads(Assignment(), old(state), count)
      ensures trace == old(trace) + ReadBitsEvents(Assignment(), old(state), count)
    {
      result := [];
      var i := 0;
      while i < count
        invariant 0 <= i <= count
        invariant samples == old(samples) + i
        invariant result == Received(Assignment(), port, old(samples), i)
        invariant state == AfterReads(Assignment(), old(state), i)
        invariant trace == old(trace) + ReadBitsEvents(Assignment(), old(state), i)
      {
        ReadBitsStep(Assignment(), old(state), old(trace), i);
        var bit := ReadBit();
        result := result + [bit];
        i := i + 1;
      }
    }

    /** `_write_clock()` (src/executor.py:126-136): one clock cycle with no data. */
    method WriteClock()
      requires Valid()
      modifies this`state, this`trace
      ensures Valid()
      ensures state == old(state)
      ensures trace == old(trace) + ClockEvents(Assignment(), old(state))
    {
      var p := Assignment();
      state := Raise(p, state);
      WritePort();
      Hold();
      state := Lower(p, state);
      WritePort();
      Hold();
      ClockEmitted(p, old(trace), old(state));
      ClockPreserves(p, old(state), old(trace));
      ClockCounts(p, old(state));
      CountAppend(old(trace), ClockEvents(p, old(state)));
    }

    /**
     * One iteration of the loop in `run` (src/executor.py:141-150). With a
     * request queued, take exactly the oldest one, transmit it, then read
     * ReadLength bits and return them; with the queue empty, run one idle
     * clock cycle and leave the queue as it is.
     */
    method Step() returns (response: Option<seq<int>>)
      requires Valid()
      modifies this`state, this`trace, this`samples, this`requests
      ensures Valid()
      ensures old(requests) == [] ==>
        response == None && requests == [] && samples == old(samples) && state == old(state) &&
        trace == old(trace) + ClockEvents(Assignment(), old(state))
      ensures old(requests) != [] ==>
        requests == old(requests)[1..] &&
        response == Some(Received(Assignment(), port, old(samples), ReadLength)) &&
        |response.value| == ReadLength &&
        samples == old(samples) + ReadLength &&
        state == AfterBits(Assignment(), old(state), old(requests)[0]) &&
        trace == old(trace) + WriteBitsEvents(Assignment(), old(state), old(requests)[0])
                 + ReadBitsEvents(Assignment(), state, ReadLength)
    {
      if |requests| > 0 {
        var bits := requests[0];
        requests := requests[1..];
        WriteBits(bits);
        WriteBitsPreserves(Assignment(), old(state), old(trace), bits);
        WriteBitsCounts(Assignment(), old(state), bits);
        CountAppend(old(trace), WriteBitsEvents(Assignment(), old(state), bits));
        ghost var sent, rest := trace, state;
        var result := ReadBits(ReadLength);
        ReadBitsPreserves(Assignment(), rest, sent, ReadLength);
        ReadBitsCounts(Assignment(), rest, ReadLength);
        CountAppend(sent, ReadBitsEvents(Assignment(), rest, ReadLength));
        response := Some(result);
      } else {
        WriteClock();
        response := None;
      }
    }
  }
}
