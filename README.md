# TekPower-Discharge in Dafny

A model of the control program for TekPower/Array programmable electronic
loads (`main.cpp`). The program drives the load over a serial line with
26-byte frames, runs a discharge test, and stops when a limit is reached.

- **Frame codec.** Every frame is 26 bytes: preamble `0xAA`, device address,
  opcode, payload and a checksum. The checksum is the low byte of the sum of
  bytes 0..24.
  - `Checksum` is a loop that accumulates the sum.
  - `WriteData` stamps the checksum into byte 25 in place and writes the
    frame.
  - `RequestStatus` reads the reply into the caller's buffer. It accepts the
    reply only when 26 bytes arrived and the checksum matches.
- **Commands.** The project models the three frames the program sends:
  - set load (`0x90`), with the power ceiling divided by 100 and the load
    scaled by load type;
  - request status (`0x91`);
  - activate (`0x92`), with a two-bit state byte.
- **Status decoder.** It reads current, voltage and power as little-endian
  fields of the status reply, in the device's own integer units (mA, mV,
  0.1 W), plus the flag byte 17.
- **Stop decision.** The checks run in the program's order:
  1. load off, checked before anything is decoded or logged;
  2. low voltage, then low current, both only after 3 s;
  3. the time limit;
  4. the sample count, compared before it is raised.
- **Test loop.** The start-up exchange comes first. Each pass of the sampling
  loop sends a waveform-dependent set-load command, checks ESC, polls and
  decides. The loop ends with the shut-down exchange (load off, then
  front-panel control).

Each imperative function of the program is a method. The serial port is a
class (`Transport.Port`) whose fields record the frames written and consume
a script of write counts and replies. Each method is proved against a
reference function:
- `Seal` for `WriteData`;
- `RequestFrame`, `ActivateFrame` and `SetLoadFrame` for the commands;
- `Step`, `Ticks` and `Session` for the loop.

The properties are proved as lemmas about those functions.

Two behaviours of the code are easy to misread, and the model follows the
code in both:
- The load-off check happens before the reading is decoded and logged. A pass
  that finds the load off therefore logs no sample, although telemetry is
  otherwise written before the stop decision.
- Both calls to `RequestStatus` (`main.cpp:337`, `main.cpp:381`) ignore its
  result. A short or corrupt reply is decoded anyway, from whatever the buffer
  then holds.

## Model

| member | source | states |
|---|---|---|
| Bytes.Inc32 | main.cpp:484 | `count++` on a `uint32_t`: the result is `(count + 1) mod 2^32` |
| Bytes.LE16RoundTrip | main.cpp:137-146 | a 16-bit little-endian field written anywhere in a frame reads back as the low 16 bits of the value |
| Transport.Received | main.cpp:92 | a read of `reply` into a buffer keeps the buffer's length, puts the reply's bytes first and leaves the rest of the buffer as it was |
| Transport.Port.Write | main.cpp:77 | `WriteFile` records the 26 bytes as sent and reports the next scripted count; the replies are untouched |
| Transport.Port.Read | main.cpp:92 | `ReadFile` reports as many bytes as the next reply holds, copies them into the front of the buffer, keeps the tail, and consumes that reply |
| FrameCodec.Checksum | main.cpp:56-65 | the loop returns the low byte of the sum of bytes 0..24 (the 32-bit accumulator cannot wrap) |
| FrameCodec.ChecksumIgnoresLastByte | main.cpp:56-65 | byte 25 never influences the checksum |
| FrameCodec.ChecksumUpdate | main.cpp:56-65 | changing one of bytes 0..24 shifts the checksum by the difference, modulo 256 |
| FrameCodec.SealIsValid | main.cpp:74 | a frame with its checksum stamped keeps bytes 0..24, has 26 bytes and passes the receiver's check |
| FrameCodec.WriteData | main.cpp:69-81 | byte 25 becomes the checksum of bytes 0..24, nothing else in the buffer changes, the frame passes the check in `RequestStatus`, exactly that frame is sent, and success means the transport reported 26 bytes written |
| FrameCodec.SingleByteCorruptionDetected | main.cpp:94-96 | changing any single byte of a valid frame, payload or checksum, makes it fail the acceptance test |
| Commands.ScaledLoad | main.cpp:127-135 | constant power sends the load divided by 100 (rounded down), constant resistance divided by 10, anything else unchanged |
| Commands.ScaledLoadExamples | main.cpp:131-135 | 150 W in constant power is sent as 1500, 25 ohm in constant resistance as 2500, 1 A in constant current as 1000 |
| Commands.RequestStatus | main.cpp:84-97 | sends the request frame, leaves the reply in the caller's buffer (stale tail after a short read), and returns true exactly when 26 bytes arrived and the buffer passes the checksum test; an accepted buffer is exactly the reply |
| Commands.RequestFrameLayout | main.cpp:87-88 | the request is `AA adr 91`, 22 zero bytes, and the low byte of `0xAA + adr + 0x91` |
| Commands.ActivateLoad | main.cpp:102-111 | sends exactly the activate frame for the two switches |
| Commands.ActivateFrameLayout | main.cpp:104-110 | the activate frame is valid, carries `AA adr 92`, a state byte in 0..3 whose bit 0 is the load switch and bit 1 the PC-control switch, and zeros up to byte 24 |
| Commands.SetLoad | main.cpp:125-148 | scaling the arguments and laying the bytes out one by one sends exactly the set-load frame |
| Commands.SetLoadFrameLayout | main.cpp:137-147 | the set-load frame is valid, carries `AA adr 90`, the current ceiling, the power ceiling divided by 100 and the scaled load each as a 16-bit little-endian field (low 16 bits), the address again, the low byte of the load type, and zeros in bytes 11..24 |
| StatusDecoder.DecodeStatus | main.cpp:416-430 | decoding is total on any 26 bytes: current and power are below 2^16, voltage is the 32-bit little-endian value of bytes 5..8, and the flags are byte 17 |
| StatusDecoder.DecodeKeepsFields | main.cpp:416-430 | decoding loses nothing: bytes 3..10 can be rebuilt from the decoded values |
| StatusDecoder.DecodeOfFields | main.cpp:416-430 | a reply built from in-range values decodes back to exactly those values (with `DecodeKeepsFields`, a round trip) |
| StatusDecoder.DecodedValuesNonNegative | main.cpp:416-430 | current, voltage and power are never negative |
| StatusDecoder.AlertsFollowMasks | main.cpp:383-402 | each report is printed exactly when its mask (4, 8, 16) is set, and the two mask-16 reports always come together |
| Termination.CheckLimits | main.cpp:443-482 | the limit checks made after the reading is logged (low voltage, low current, time, sample count, in that order) never yield an abort or load off, and yield the sample limit only when the count is past it |
| Termination.Evaluate | main.cpp:404-482 | the decision for one poll is load off exactly when bit 1 of byte 17 is clear, and is never an abort |
| Termination.EvaluateIsFirstMatch | main.cpp:404-482 | the decision names a condition exactly when that condition holds and no earlier one does, and is "go on" exactly when none holds |
| Termination.UnsetLimitsNeverFire | main.cpp:443-482 | a voltage or current limit below zero, a time limit of zero or less, or a sample limit of 0xFFFFFFFF never stops the run |
| Termination.DefaultsStopOnlyOnLoadOff | main.cpp:29-37 | with every limit at the program's defaults, the only reason to stop is the load-off flag |
| Termination.AlertBitsNeverStop | main.cpp:383-411 | changing the flag byte without changing the load-on bit never changes the decision |
| Waveform.SineLoad | main.cpp:365-368 | the sine load is `((s + 1) / 2) * A` rounded down, so it lies in 0..A |
| Waveform.SquareLoad | main.cpp:370 | the square load is A exactly when the sine is positive (or A is 0), and otherwise 0 |
| Waveform.LoadCommand | main.cpp:354-374 | a constant waveform passes the configured ceilings and load; sine and square pass 30000 and 200000 and a load within 0..A |
| Waveform.WaveformAtSineZeroAndOne | main.cpp:365-370 | at sine 0 the sine load is A/2 (rounded down) and the square load 0; at sine exactly 1 both are A |
| TestLoop.Step | main.cpp:354-482 | one pass polls exactly when ESC was not pressed, aborts exactly when it was, and logs one sample whenever it lets the loop go on |
| TestLoop.Ticks | main.cpp:345-485 | the loop over the given ticks, stopping at the first pass that stops, never polls more often than there are ticks |
| TestLoop.Resume | main.cpp:345-485 | the loop from a pass that takes place is that pass, then, unless it stopped, the loop from the next tick; it never polls more often than there are ticks |
| TestLoop.Session | main.cpp:330-491 | a run polls at least once (the start-up poll) and at most once per tick more, and its first three frames are the start-up exchange |
| TestLoop.Startup | main.cpp:330-338 | start-up sends the zero set-load, the activate (load on, PC control) and a status request, in that order, and uses one reply |
| TestLoop.Shutdown | main.cpp:487-491 | shut-down sends load off under PC control, then load off under front-panel control, and reads nothing |
| TestLoop.CommandLoad | main.cpp:354-374 | each pass first sends the set-load frame of its waveform command |
| TestLoop.Poll | main.cpp:381-482 | one poll: the request is sent and one reply used; on load off it stops with nothing logged, otherwise it logs the decoded reading and decides by the limits |
| TestLoop.Pass | main.cpp:345-482 | one pass does exactly what `Step` says; it leaves the polled reply read over the old buffer in `status` (the old buffer unchanged on ESC); and the loop from this tick is that pass followed, unless it stopped, by the loop from the next tick with that buffer and the count raised |
| TestLoop.Sampling | main.cpp:340-485 | the loop's frames, polls, log and reason are exactly those of `Ticks` from sample 0 |
| TestLoop.Run | main.cpp:330-491 | the whole program after opening the port sends, logs and consumes exactly what `Session` says |
| LoopProperties.StepDecision | main.cpp:376-441 | a pass stops on ESC before polling; otherwise it sends set-load then request, decides exactly as `Evaluate` does on the polled buffer, and logs one sample with its time unless the load is off |
| LoopProperties.StepShape | main.cpp:354-411 | a pass polls unless ESC was pressed, logs exactly when it polled without finding the load off, and aborts exactly when ESC was pressed |
| LoopProperties.TicksPoll | main.cpp:381-484 | a pass that polls either ends the loop with that poll's decision, or the loop continues with one more poll |
| LoopProperties.TicksCounts | main.cpp:345-485 | any stretch of the loop sends two frames per poll, plus one after an abort, logs one sample per poll except a load-off one, and ends without a reason only when every tick has polled |
| LoopProperties.TicksFrames | main.cpp:354-381 | the `k`-th pass sends the set-load frame of tick `k` and then a status request; an abort's set-load frame is the last frame |
| LoopProperties.TicksTimes | main.cpp:347-441 | the `k`-th logged sample carries the time of the `k`-th tick |
| LoopProperties.OnlySampleLimit | main.cpp:443-482 | with the voltage, current and time limits unset and the load on, the decision is "stop on sample limit" exactly when the count is past the limit |
| LoopProperties.SampleLimitPolls | main.cpp:473-484 | with only a sample limit N, no ESC and the load on, the loop from count c makes exactly N + 2 - c polls and stops on the sample limit |
| LoopProperties.SessionShape | main.cpp:330-491 | a session starts with the start-up frames; one that stopped ends, after the loop's frames, with load off under PC control and then front-panel control; it polls once more than its loop |
| LoopProperties.SessionSampleLimit | main.cpp:473-491 | with only a sample limit N, the run makes N + 3 polls (the start-up poll and N + 2 in the loop) and ends with the shut-down frames |

## Left out

- `ParseCommandLine` (`main.cpp:156-274`) is not modelled. The settings arrive as `TestLoop.Config`, whose limits play the role of the program's globals. Its defaults are `Termination.Unset`.
- Opening and configuring the COM port (`main.cpp:285-315`) is not modelled. The transport is `Transport.Port`: the frames written, plus a script of write counts and a script of replies.
- Transport.Port.Read: a reply longer than 26 bytes cannot be scripted, because one `ReadFile` of 26 never delivers more. After the script ends, a read delivers nothing, whereas the real blocking read would wait.
- Transport.Port.Write: after the script of write counts ends, every write reports 26 bytes.
- CSV and `printf` output: which telemetry lines are written, and when, is modelled by `TestLoop.Trace`'s log, and `Alerts` gives the alert reports in order. Their formatting, the termination messages and the floating-point columns (computed power, Ah, Wh) are not modelled.
- Energy integration (`main.cpp:351-352`, `434-437`) is left out: amp-hours, watt-hours and `computed_power` are floating-point accumulations.
- `Sleep`, `GetTickCount64` and `_kbhit`/`_getch` are inputs: each pass is a `Tick` giving the elapsed milliseconds and whether ESC was pressed. A key other than ESC is the same as no key.
- The sine itself (`sin(2*3.14*t/period)` in doubles) is an input in [-1, 1]. A waveform period of 0, which `ParseCommandLine` accepts (`main.cpp:244` rejects only negative periods), makes the phase NaN or infinite and the sine-load conversion undefined; that case is excluded.
- Waveform.WaveformAtSineZeroAndOne: the program approximates pi by 3.14, so at a quarter period the sine is 0.99999968 rather than 1. With the default load of 1000, the sine load is then 999, not 1000. The model takes the sine value as given and does not promise "full amplitude at a quarter period".
- Waveform.SineLoad: computed in exact reals, not doubles. A value that double rounding would put on the other side of an integer can differ by one.
- Termination.CheckLimits: compares the readings and the elapsed time as exact reals (`raw / 1000`, `ms / 1000`). `float` and `double` rounding near a threshold is not modelled.
- TestLoop.Run: the program's `while(1)` loop only ends on a stop. The model runs over a finite script of ticks. When the ticks run out, it ends with no reason and no shut-down exchange, which stands for a run still in progress.
- TestLoop.Run: the contents of `status` before the first poll are uninitialised stack memory in the program. They are a parameter here.
- Waveform numbers other than 0..2 are not modelled (`Waveform.Wave` has three values), because `ParseCommandLine` resets them to 0. Load-type codes are any 32-bit value, as in `SetLoad`.
