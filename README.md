# M95160W EEPROM dumper: a Dafny model of the bit-banging bus master

The repository dumps an ST M95160W serial EEPROM through the GPIO port of an
FT2232H. Two parts of it are modelled here.

- The `Executor` of `src/executor.py`. It is the bus master. It keeps one 8-bit
  output word, `state`. Before each port write it raises or lowers the clock
  (CLK), data-out (MOSI) and chip-select (CS) bits of that word. It samples the
  data-in (MISO) bit of the port to receive bits. It takes bit lists to transmit
  from an inbound queue.
- `bits_to_bytes` of `src/m95160W.py`. It packs a received bit list into one
  integer, first bit most significant. It reverses its argument in place and
  ORs `bit << idx` into an accumulator.

The model has three modules.

- `BusSpec` (`bus_spec.dfy`) describes the executor's behaviour as values. The
  GPIO handle becomes a trace of events: `Write(word)`, `Read` and `Sleep`.
  Each operation is given by the events it appends and the output word it
  leaves behind. The module proves the shape of each operation's events, the
  number of its reads and writes, and the invariant it keeps.
- `Executor` (`executor.dfy`) is a class with the source's fields. The pin
  masks are `const` fields. The output word, the read counter and the request
  queue are mutable fields. The trace is a ghost field. The port's inputs are
  a function `port` from read number to port value. Each method changes these
  fields step by step, as the Python does, and is proved to produce exactly
  what `BusSpec` describes.
- `Packing` (`packing.dfy`) has `bits_to_bytes` as a method over an
  `array<int>`. It reverses the array in place, then runs the OR loop. The
  method is proved against a pure function. The function is proved equal to
  the positional MSB-first value, which is below 2^n, on 0/1 lists.
  Unpacking inverts it, and it is injective.

Python's `|` on integers is modelled as an OR on unbounded two's-complement
integers (`Packing.IntOr`). The list elements can be any integer. For lists
of 0/1 values the OR equals addition; for other values it does not
(`Packing.OrIsNotSumBeyondBits`).

## Model

| member | source | states |
|---|---|---|
| BusSpec.DirectionSplitsPort | src/executor.py:56-58 | The direction word `0xFF ^ miso` makes the data-in pin the only input: it shares no bit with `miso` and together with it covers the whole port. |
| BusSpec.DefaultPinsValid | src/executor.py:29 | The default masks D0 to D3 (`0x01`, `0x02`, `0x04`, `0x08`) are nonzero and share no pin, so the constructor can be called with its defaults. |
| BusSpec.Raise | src/executor.py:78 | `state` or-assign `clk`, the clock rising edge, also at lines 107 and 129; its effect on the word is stated by `BusSpec.RaiseKeeps`. |
| BusSpec.Lower | src/executor.py:91 | `state &= ~clk` on the 8-bit word, the clock falling edge, also at lines 119 and 134; its effect on the word is stated by `BusSpec.LowerKeeps`. |
| BusSpec.RaiseKeeps | src/executor.py:78 | ORing the clock mask into the word (`state` or-assign `clk`) sets the clock and leaves every other bit of the word unchanged. |
| BusSpec.LowerKeeps | src/executor.py:91 | `state &= ~clk` clears the clock and leaves every other bit of the word unchanged. |
| BusSpec.CycleSettles | src/executor.py:129-134 | From a word at rest, a clock cycle passes through a settled word (CS low, no unassigned bit high) and returns to the word it started from. |
| BusSpec.RaiseSettles | src/executor.py:107 | Raising the clock of a settled word keeps it settled. |
| BusSpec.CycleReturns | src/executor.py:119 | Raising then lowering the clock returns a word whose clock was low. |
| BusSpec.CycleLowers | src/executor.py:107-119 | A clock cycle ends with the clock low and every other bit as it was. |
| BusSpec.ClearSelect | src/executor.py:79 | `state &= ~cs`: chip select driven low. |
| BusSpec.Drive | src/executor.py:85-88 | Data-out set when the bit equals 1 and cleared for every other value. |
| BusSpec.Select | src/executor.py:78-79 | The first word of a transmitted bit: clock raised, then chip select cleared; stated by `BusSpec.SelectOpens` and `BusSpec.SelectSettles`. |
| BusSpec.Shift | src/executor.py:85-91 | The second word of a transmitted bit: data-out driven from the bit, then clock lowered; stated by `BusSpec.ShiftCloses` and `BusSpec.ShiftRests`. |
| BusSpec.SelectOpens | src/executor.py:78-79 | The first word of every transmitted bit has the clock high and chip select low. |
| BusSpec.ShiftCloses | src/executor.py:85-91 | The second word of every transmitted bit has the clock low, and data-out high exactly when the bit equals 1; any other value drives it low. |
| BusSpec.SelectSettles | src/executor.py:78-79 | Selecting keeps a settled word settled. |
| BusSpec.ShiftRests | src/executor.py:85-91 | After a bit is shifted out, the word is at rest: settled, with the clock low. |
| BusSpec.BitEvents | src/executor.py:78-93 | The events of one pass of `_write_bits`: write of the selected word, hold, write of the shifted word, hold; its shape is stated by `BusSpec.BitEventsShape`. |
| BusSpec.AfterBits | src/executor.py:76-93 | The output word after every bit of the list has been selected and shifted in order; `BusSpec.WriteBitsSettles` proves it ends at rest. |
| BusSpec.WriteBitsEvents | src/executor.py:76-93 | `_write_bits(bits)` produces exactly four events per bit. |
| BusSpec.BitSettles | src/executor.py:77-93 | One transmitted bit from a word at rest writes only settled words and ends at rest. |
| BusSpec.BitEventsShape | src/executor.py:77-93 | The events of one bit are write, hold, write, hold. The first write has the clock high and CS low. The second has the clock low and data-out equal to whether the bit is 1. |
| BusSpec.WriteBitsShape | src/executor.py:76-93 | For every i, events 4i to 4i+3 of `_write_bits(bits)` have the per-bit shape for `bits[i]`: the bits go out in list order. |
| BusSpec.WriteBitsSettles | src/executor.py:72-97 | Transmitting from a word at rest never raises chip select, data-in or an unassigned bit in any written word, and leaves the clock low. |
| BusSpec.WriteBitsPreserves | src/executor.py:72-97 | `_write_bits` keeps the bus invariant: valid pins, word at rest, every word written so far settled. |
| BusSpec.ReadCycleSettles | src/executor.py:107-121 | One receive cycle from a word at rest writes settled words and returns to that word. |
| BusSpec.ReadCycleEvents | src/executor.py:107-121 | The events of one pass of `_read_bits`: write of the raised word, read, hold, write of the lowered word, hold; its shape is stated by `BusSpec.ReadCycleShape`. |
| BusSpec.AfterReads | src/executor.py:104-121 | The output word after `count` raise/lower cycles; `BusSpec.AfterReadsKeeps` proves only the clock changes. |
| BusSpec.ReadBitsEvents | src/executor.py:104-121 | `_read_bits(count)` produces exactly five events per received bit. |
| BusSpec.Sample | src/executor.py:112-115 | The bit appended for one port read is 0 or 1, and it is 1 exactly when every data-in bit of the read value is set. |
| BusSpec.Received | src/executor.py:103-115 | The list `_read_bits(count)` returns has exactly `count` elements. |
| BusSpec.ReceivedSamples | src/executor.py:104-115 | Element i of the returned list is the sample of the i-th port read. |
| BusSpec.ReceivedBits | src/executor.py:112-115 | Every returned element is 0 or 1. Element i is 1 exactly when the i-th read had every data-in bit set. |
| BusSpec.RaisedFrom | src/executor.py:107 | A raised word that agrees with `s` off the clock counts as `s` raised. |
| BusSpec.LoweredFrom | src/executor.py:119 | A lowered word that agrees with `s` off the clock counts as `s` lowered. |
| BusSpec.ReadCycleShape | src/executor.py:107-121 | One receive cycle is: a write with the clock high, a read, a hold, a write with the clock low, a hold. Both words keep data-out and chip select as they were. |
| BusSpec.AfterReadsKeeps | src/executor.py:104-121 | Receiving touches no bit but the clock and ends with the clock low. |
| BusSpec.ReadBitsShape | src/executor.py:104-121 | For every i, events 5i to 5i+4 of `_read_bits(count)` are one receive cycle in that order, with data-out and CS unchanged. |
| BusSpec.ReadBitsSettles | src/executor.py:99-124 | Receiving from a word at rest writes only settled words and ends on the same word. |
| BusSpec.ReadBitsPreserves | src/executor.py:99-124 | `_read_bits` keeps the bus invariant and returns the output word it started from. |
| BusSpec.ClockEvents | src/executor.py:129-136 | The events of `_write_clock`: write of the raised word, hold, write of the lowered word, hold; its shape is stated by `BusSpec.ClockShape`. |
| BusSpec.ClockShape | src/executor.py:126-136 | `_write_clock` is exactly two writes, each followed by a hold. The first has the clock high, the second the clock low, and every other bit is unchanged. |
| BusSpec.ClockSettles | src/executor.py:126-136 | An idle cycle from a word at rest writes settled words and returns to that word. |
| BusSpec.ClockPreserves | src/executor.py:126-136 | `_write_clock` keeps the bus invariant and leaves the output word as it was. |
| BusSpec.BitEventsCounts | src/executor.py:77-93 | One transmitted bit writes the port twice and never reads it. |
| BusSpec.ReadCycleCounts | src/executor.py:107-121 | One receive cycle writes the port twice and reads it once. |
| BusSpec.ClockCounts | src/executor.py:126-136 | An idle clock cycle writes the port twice and never reads it. |
| BusSpec.WriteBitsCounts | src/executor.py:72-97 | `_write_bits(bits)` writes the port exactly `2 * len(bits)` times and never reads it. |
| BusSpec.ReadBitsCounts | src/executor.py:99-124 | `_read_bits(count)` writes the port exactly `2 * count` times and reads it exactly `count` times. |
| BusSpec.TransferCounts | src/executor.py:143-146 | Handling one request writes the port `2 * len(bits) + 2 * count` times and reads it `count` times. |
| Executor.Executor.constructor | src/executor.py:29-70 | Every pin starts low. The masks default to D0 to D3. The direction word is `0xFF ^ miso`. The all-low word is written once. The bus invariant holds from the start, and the read counter (0) equals the number of reads in the trace. |
| Executor.Executor.WritePort | src/executor.py:80 | A port write appends the current output word to the trace. |
| Executor.Executor.ReadPort | src/executor.py:112 | A port read returns the next value the port supplies and appends a read to the trace. |
| Executor.Executor.Hold | src/executor.py:81 | A sleep appends a hold to the trace. |
| Executor.Executor.WriteBit | src/executor.py:77-93 | One pass of the `_write_bits` loop, done in place on `state`, produces exactly the word and the four events of `BusSpec.BitEvents`. |
| Executor.Executor.WriteBits | src/executor.py:72-97 | The in-place loop leaves `state` equal to `AfterBits` of the old word. It extends the trace by exactly `WriteBitsEvents` of the request. |
| Executor.Executor.ReadBit | src/executor.py:104-121 | One receive cycle returns the data-in sample of the next port read and advances the read counter by one. Its trace and word are those of `BusSpec.ReadCycleEvents`. |
| Executor.Executor.ReadBits | src/executor.py:99-124 | Returns `Received` for the next `count` port reads and advances the read counter by `count`. It extends the trace by exactly `ReadBitsEvents`. |
| Executor.Executor.WriteClock | src/executor.py:126-136 | Keeps the bus invariant and leaves `state` unchanged. It extends the trace by exactly `ClockEvents`, and the read counter still equals the number of reads in the trace. |
| Executor.Executor.Step | src/executor.py:138-150 | One pass of `run`'s loop. With a request queued, it dequeues exactly the oldest one, transmits it, then reads 2048 bits and returns them. With the queue empty, it runs one idle clock cycle and returns nothing. Either way the bus invariant holds afterwards and the read counter equals the number of reads in the trace. |
| Packing.Reverse | src/m95160W.py:16 | `data.reverse()` as a value: same length, and element i comes from position n-1-i. |
| Packing.ReverseTwice | src/m95160W.py:16 | Reversing twice restores the list. |
| Packing.IntOr | src/m95160W.py:18 | Python's bitwise OR on unbounded integers: the lowest bit of the result is the OR of the operands' lowest bits, the result is negative exactly when an operand is, and ORing a value with itself gives that value. |
| Packing.IntOrHalves | src/m95160W.py:18 | Above the lowest bit, the OR of `a` and `b` is the OR of `a >> 1` and `b >> 1`; with the lowest-bit clause of `Packing.IntOr` this makes it bitwise OR. |
| Packing.OrAccumulate | src/m95160W.py:17-18 | The accumulator after the loop, the OR over positions idx of `bit << idx`, is negative exactly when some element is negative. |
| Packing.BitsToBytesValue | src/m95160W.py:12-20 | `bits_to_bytes([])` is 0. |
| Packing.OrAccumulateIsSum | src/m95160W.py:17-18 | On a 0/1 list, the OR-accumulation of `bit << idx` equals the sum of `bit * 2^idx` and lies in [0, 2^n). |
| Packing.SumOfReversed | src/m95160W.py:16-18 | Reading the reversed list least-significant-first is reading the list most-significant-first. |
| Packing.BitsToBytesIsPackMSB | src/m95160W.py:12-20 | For a 0/1 list d of length n, `bits_to_bytes(d)` is the sum of d[i] * 2^(n-1-i), which lies in [0, 2^n). |
| Packing.EightBitsFitAByte | src/m95160W.py:12-20 | Eight received bits pack into a value in [0, 256). |
| Packing.OrIsNotSumBeyondBits | src/m95160W.py:18 | With an element other than 0 or 1 the OR is not the sum: `[1, 2]` packs to 2, not 4. |
| Packing.PackMSBLast | src/m95160W.py:12-20 | The packed value is twice the value of the list without its last bit, plus that bit. |
| Packing.UnpackMSB | src/m95160W.py:12-20 | Splitting a value into n bits gives n bits. |
| Packing.UnpackPack | src/m95160W.py:12-20 | Unpacking the packed value of a 0/1 list into as many bits gives the list back. |
| Packing.BitsToBytesInjective | src/m95160W.py:12-20 | Two 0/1 lists of one length with equal packed values are equal. |
| Packing.ReverseInPlace | src/m95160W.py:16 | The in-place reversal leaves the array holding the reverse of its old contents. |
| Packing.BitsToBytes | src/m95160W.py:12-20 | Returns `BitsToBytesValue` of the array's old contents and leaves the array reversed. On a 0/1 array of length n the result is the MSB-first value and lies in [0, 2^n). |
| Packing.PackPayloadThrice | src/m95160W.py:73-77 | The three calls on one payload: the second sees the list reversed and packs it the other way round, the third agrees with the first, and the payload is left reversed. |

## Left out

- The GPIO driver (pyftdi `GpioController`, `open_from_url`, the FTDI URL). Port writes become trace events. Port reads become the `port` function, indexed by the number of reads so far. In the model opening the port, every port write and every port read succeed; in the source an exception from `open_from_url`, `write_port` or `read` propagates and ends the process, and that failure path is not modelled.
- `time.sleep` and the clock interval: only the place of each sleep among the port operations is kept, not its duration or any timing.
- The process: `multiprocessing.Process`, `start`, and the infinite `while True` in `run`. `Executor.Executor.Step` models one pass of that loop. The source `run` returns after the first request and never puts the result on the response queue `res`. That queue is stored but unused, so it is not modelled.
- `Executor.Executor.constructor`: requires nonzero, pairwise disjoint masks. The source does not check this but relies on it; with overlapping masks, clearing CS would also clear the clock.
- Masks wider than 8 bits: the port is 8 bits wide, so masks and the output word are `bv8`.
- Logging, and the log formatting of `bits_to_bytes`' value at src/m95160W.py:71-75 beyond the three calls (`Packing.PackPayloadThrice`).
- `main` in src/m95160W.py. It builds the READ command, starts the process, reads responses and writes `eeprom.bin`. It enqueues a dictionary, not a bit list: iterating it yields the keys `"bits"` and `"size"`, neither equal to 1, so `_write_bits` drives data-out low twice. It waits on the response queue, which `run` never fills. None of this is modelled beyond the fact that `_write_bits` drives data-out low for any element other than 1 (`BusSpec.ShiftCloses`).
- Python booleans and floats in a bit list: elements are modelled as integers (`True == 1` in Python).
- The source never raises chip select; the model keeps it low throughout, as written.
