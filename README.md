# Cerberus and MSB firmware: a Dafny model

A Dafny model of the decision logic in the Northeastern Electric Racing
firmware repository MSB-FW.rs, with proofs about it. It covers:

- **Cerberus**, the vehicle controller:
  - the functional state machine (`state_handler`);
  - the fault manager (`fault_handler`) and its fault-code table;
  - the CAN task (`can_handler`), with its acceptance list, dispatch to the
    DTI and BMS mailboxes, and the outbound queue;
  - the DTI motor-controller adapter, which decodes the eRPM;
  - the BMS liveness watchdog;
  - the control-expander task (`ctrl_expander_handler`): TSMS debounce,
    ready-to-drive sound (RTDS) timing, fuse packing and PDU commands.
- **The two I²C drivers**:
  - the PCA9539 I/O expander: register addressing and read-modify-write pin
    access;
  - the LSM6DSO IMU: bit-field register writes, chip detection, the
    full-scale caches and raw sample assembly.
- **The sensor board helper**: strap inputs to board location, the
  per-location CAN identifier, and the LED pattern.

How the model is built:

- Each async task becomes a class. Its local variables are fields and one
  method handles one loop pass. What the task waits for (a request, a frame,
  a tick, a register read) is the method's input.
- An embassy `Signal` is a single slot that the latest write overwrites. A
  `Channel` is a first-in, first-out sequence.
- Time is whole milliseconds. A `Ticker` fires once its deadline has passed
  and then moves the deadline one period on.
- `select` polling order is modelled only in the BMS watchdog
  (`Bms.Signals`, `Bms.Watch`): a frame that arrives exactly at the deadline
  wins over the timeout. The other tasks' handlers take the branch that
  fired as an input.
- Each I²C device is its register file. Whether a transfer fails is a
  boolean parameter.
- Payload bytes are the integer newtype `Bytes.byte`. Register contents are
  `bv8`. Sixteen-bit sensor words are `bv16`, and their signed value is
  defined bit by bit (`Words.Unsigned16`, `Words.Signed16`) and proved equal
  to the reading of the two bytes (`Words.Le16Signed`).

The model shows several things about the firmware as written:

- Entering FAULTED always halts the controller. FAULTED signals `Nero(OFF)`
  back into the task's own request slot, and every Nero request reaches a
  `todo!()` (`StateMachine.FaultedHalts`).
- The car cannot start driving without the ready-to-drive sound being
  commanded (`StateMachine.DriveRequiresReadyToDrive`).
- No current fault code is critical, so no fault event ever faults the car
  (`Fault.NoFaultEventFaultsTheCar`).
- The unfault tick signals READY whatever the latched severity
  (`Fault.UnfaultAlwaysSignalsReady`).
- The status-frame copy at `cerberus/src/fault.rs:73` panics on every loop
  pass (see Findings).
- `set_gyroscope_scale` clears the accelerometer cache on failure, not the
  gyroscope cache (`Lsm6dso.Imu.SetGyroscopeScale`).
- No PDU command can raise the RTDS output pin
  (`Monitor.CommandNeverRaisesRtds`).
- The strap triple (false, true, true) falls through to FrontLeft
  (`Msb.FromStraps`).

Module layout:

| file | module | from |
|---|---|---|
| results.dfy | Results | Option and Result |
| bytes.dfy | Bytes | bit access, `reverse_bits`, `copy_from_slice`, 32-bit big-endian and two's complement |
| words.dfy | Words | little-endian 16-bit words and their `i16` value |
| can.dfy | Can | frames and identifiers |
| cerberus_lib.dfy | Cerberus | cerberus/src/lib.rs |
| state_machine.dfy | StateMachine | cerberus/src/state_machine.rs |
| fault.dfy | Fault | cerberus/src/fault.rs |
| can_router.dfy | CanRouter | cerberus/src/can_handler.rs |
| dti.dfy | Dti | cerberus/src/dti.rs |
| bms.dfy | Bms | cerberus/src/bms.rs |
| monitor.dfy | Monitor | cerberus/src/monitor.rs |
| pca9539.dfy | Pca9539 | crates/pca9539-ner/src/lib.rs |
| lsm6dso.dfy | Lsm6dso | crates/lsm6dso-ner/src/lib.rs |
| msb.dfy | Msb | msb-fw-rs/src/lib.rs, msb-fw-rs/src/controllers.rs |

## Model

| member | source | states |
|---|---|---|
| Cerberus.SeverityLevel | cerberus/src/lib.rs:42-48 | the discriminants are 1..5, and a severity is critical exactly when its discriminant is at most 3 |
| Cerberus.SeverityLevelInjective | cerberus/src/lib.rs:42-48 | distinct severities have distinct discriminants, each below 256, so `as u8` loses nothing |
| Cerberus.CodeValue | cerberus/src/lib.rs:50-54 | every fault-code discriminant fits in a `u32` |
| Cerberus.CodeValueInjective | cerberus/src/lib.rs:50-54 | the two codes have distinct discriminants |
| Cerberus.Severity | cerberus/src/lib.rs:56-62 | the table is total; only FaultsClear is Defcon5, BmsCanMonitorFault is Defcon4, and no code is critical |
| Cerberus.ClearIsLeastUrgent | cerberus/src/lib.rs:56-62 | no code is less urgent than FaultsClear |
| StateMachine.Interlock | cerberus/src/state_machine.rs:36-55 | the activation interlock: speed at most 1, brake pressed and TSMS on |
| StateMachine.Decide | cerberus/src/state_machine.rs:25-77 | a Nero request is unimplemented; an accepted request enters the requested state; READY needs speed ≤ 1; an active mode needs a prior REVERSE or the interlock; REVERSE needs a prior FPit; SoundRtds is sent only on an interlocked activation; only FAULTED re-signals |
| StateMachine.ReadyRejectedWhileMoving | cerberus/src/state_machine.rs:27-31 | READY above speed 1 is rejected |
| StateMachine.ReadyAcceptedAtRest | cerberus/src/state_machine.rs:27-35 | at rest READY is accepted from any state, FAULTED included, and sends pump off then fault line on |
| StateMachine.ActivationGuarded | cerberus/src/state_machine.rs:36-55 | outside REVERSE an active mode is accepted exactly when speed ≤ 1, brake and TSMS hold, and then sends SoundRtds, pump on, fault line on, in that order |
| StateMachine.ActivationFromReverse | cerberus/src/state_machine.rs:39-54 | from REVERSE an active mode skips every guard and the sound, and sends pump on, fault line on |
| StateMachine.ReverseOnlyFromPit | cerberus/src/state_machine.rs:56-61 | REVERSE is accepted exactly when the previous state is FPit, and it sends nothing |
| StateMachine.FaultedUnconditional | cerberus/src/state_machine.rs:62-66 | FAULTED is always accepted, sends pump off then fault line off, and signals Nero(OFF) back |
| StateMachine.FaultedRepostUnimplemented | cerberus/src/state_machine.rs:62-77 | the request FAULTED signals back reaches a `todo!()` |
| StateMachine.RunFrom | cerberus/src/state_machine.rs:23-84 | the loop over a run of samples, where FAULTED's re-signalled request is handled next and a Nero request halts |
| StateMachine.RunEndsInRequestedState | cerberus/src/state_machine.rs:23-84 | a run ends in its starting state or in a state that one of its samples requested |
| StateMachine.FaultedHalts | cerberus/src/state_machine.rs:23-84 | a loop run whose next request is FAULTED ends in FAULTED, halted, having sent exactly pump off and fault line off |
| StateMachine.DriveRequiresReadyToDrive | cerberus/src/state_machine.rs:23-84 | a run that starts outside the drive states and ends in one has sent SoundRtds |
| StateMachine.DriveKeepsOrSounds | cerberus/src/state_machine.rs:23-84 | a run ends in a drive state only if it started in one or sent SoundRtds |
| StateMachine.VehicleStateMachine.constructor | cerberus/src/state_machine.rs:20-21 | the task starts in READY and OFF, with no request pending and nothing sent |
| StateMachine.VehicleStateMachine.Signal | cerberus/src/state_machine.rs:65 | a new request overwrites the slot and changes nothing else, as the FAULTED re-signal here and the fault task's `state_send.signal` (cerberus/src/fault.rs:51, 67) do |
| StateMachine.VehicleStateMachine.Step | cerberus/src/state_machine.rs:23-84 | one pass takes the pending request and acts as `Decide` says: when accepted, the state is updated and the commands are appended in order; when rejected, both previous states and the sent commands are unchanged; a Nero request halts the task |
| Fault.React | cerberus/src/fault.rs:39-70 | a fault event latches its code, signals FAULTED and restarts the countdown exactly when critical; a status tick keeps the latch and signals nothing; the unfault tick clears the latch and signals READY |
| Fault.NoFaultEventFaultsTheCar | cerberus/src/fault.rs:46-58 | with the current code table a fault event only latches its code |
| Fault.UnfaultAlwaysSignalsReady | cerberus/src/fault.rs:65-69 | the unfault tick signals READY and clears the latch whatever the latch held |
| Fault.StatusBytesAsWritten | cerberus/src/fault.rs:72-73 | the buffer update as written: the severity byte into [3..4], then the four-byte code into the three-byte window [0..3] |
| Fault.StatusBytesAsWrittenPanics | cerberus/src/fault.rs:72-73 | as written, the code copy always fails with a 3-byte destination against a 4-byte source |
| Fault.StatusBytes | cerberus/src/fault.rs:72-73 | the corrected buffer: byte 3 is the severity number, byte 4 is unchanged, bytes 0..3 read back as the code |
| Fault.StatusBytesRoundTrip | cerberus/src/fault.rs:72-73 | a receiver decoding the corrected payload recovers the latched code and its severity |
| Fault.FaultManager.constructor | cerberus/src/fault.rs:29-35 | the task starts with a clear latch, a zero buffer and both tickers one period ahead |
| Fault.FaultManager.Handle | cerberus/src/fault.rs:37-78 | one event updates the latch, signal slot and ticker deadlines as `React` says, rewrites the buffer in place to `StatusBytes`, and queues exactly one valid 0x502 status frame, with the corrected layout of the cerberus/src/fault.rs:73 finding (as written, every pass panics at that copy before the send) |
| CanRouter.PassesFilter | cerberus/src/can_handler.rs:22-31 | the acceptance list: standard ids 0x1, 0x2, 0x156 and 0x416 |
| CanRouter.Route | cerberus/src/can_handler.rs:42-54 | a frame goes to the DTI mailbox exactly when its id is standard 0x416, and to the BMS mailbox exactly when it is standard 0x156 |
| CanRouter.ExtendedNeverDelivered | cerberus/src/can_handler.rs:49-51 | no extended frame is delivered, for any raw id |
| CanRouter.FilterAndDispatch | cerberus/src/can_handler.rs:22-54 | every delivered frame passes the acceptance list; of the listed ids, exactly 0x1 and 0x2 are dropped |
| CanRouter.CanHandler.constructor | cerberus/src/can_handler.rs:15-19 | empty mailboxes and an empty channel |
| CanRouter.CanHandler.Send | cerberus/src/can_handler.rs:19 | a sender appends to the channel while it has room and waits otherwise; the FIFO invariant holds |
| CanRouter.CanHandler.Transmit | cerberus/src/can_handler.rs:36-41 | the oldest queued frame is written to the bus unchanged |
| CanRouter.CanHandler.Receive | cerberus/src/can_handler.rs:42-54 | a received frame is signalled, unchanged, to the mailbox `Route` picks; a bus error or a dropped frame changes nothing |
| CanRouter.CanHandler.TakeDti | cerberus/src/dti.rs:12 | waiting on the DTI mailbox takes its frame and empties it |
| CanRouter.CanHandler.TakeBms | cerberus/src/bms.rs:14 | waiting on the BMS mailbox takes its frame and empties it |
| Bytes.WrapI32 | cerberus/src/dti.rs:17-20 | the `as i32` reading is in the i32 range and congruent to its argument modulo 2^32 |
| Bytes.BeBytes32 | cerberus/src/fault.rs:73 | `to_be_bytes` gives four bytes |
| Can.NewStandardId | msb-fw-rs/src/lib.rs:42 | `StandardId::new` succeeds exactly when the raw id fits in 11 bits, and then gives that standard id |
| Bytes.BeU32OfBeBytes32 | cerberus/src/fault.rs:73 | reading back `to_be_bytes` gives the value modulo 2^32 |
| Bytes.BeBytes32OfBeU32 | cerberus/src/fault.rs:73 | `to_be_bytes` of the value of four bytes gives the same bytes |
| Bytes.CopyFromSlice | cerberus/src/fault.rs:72-73 | the copy succeeds exactly when the lengths match, and then replaces the window and keeps the rest |
| Bytes.SetBit | cerberus/src/monitor.rs:181-189 | `set_bit` gives the bit the new value and keeps the other seven |
| Bytes.ReverseBits | cerberus/src/monitor.rs:192-193 | `reverse_bits` moves bit i to bit 7 - i |
| Dti.Shl24 | cerberus/src/dti.rs:17 | the shifted byte wraps into the i32 range and is a multiple of 2^24 |
| Dti.DecodeErpm | cerberus/src/dti.rs:17-20 | the eRPM is bytes 0..3 read as a big-endian two's-complement i32 |
| Dti.PartialSumsInRange | cerberus/src/dti.rs:17-20 | none of the three additions overflows an i32 |
| Dti.EncodeDecodedErpm | cerberus/src/dti.rs:17-20 | `to_be_bytes` of the decoded eRPM gives the first four payload bytes back |
| Dti.DecodeEncodedErpm | cerberus/src/dti.rs:17-20 | decoding the big-endian bytes of any i32 gives it back |
| Dti.PrefixOnly | cerberus/src/dti.rs:17-20 | bytes after index 3 do not affect the eRPM |
| Dti.TruncDiv | cerberus/src/dti.rs:21 | Rust's integer `/` rounds toward zero |
| Dti.TruncDivOfNegative | cerberus/src/dti.rs:21 | for every dividend and positive divisor, truncating division is Euclidean division, plus one when the dividend is negative and not a multiple |
| Dti.EuclidUnique | cerberus/src/dti.rs:21 | a quotient and remainder in range are the Euclidean ones |
| Dti.ErpmDivInRange | cerberus/src/dti.rs:21 | for every i32 eRPM, the truncated `erpm / 10` stays an i32 and ten times its magnitude is at most the eRPM's magnitude |
| Dti.DtiHandler.constructor | cerberus/src/dti.rs:9 | the shared speed register starts at its given value |
| Dti.DtiHandler.Handle | cerberus/src/dti.rs:11-29 | only a standard 0x416 frame updates the speed, from the truncated `erpm / 10`; other ids leave it unchanged; a 0x416 frame shorter than 4 bytes panics |
| Bms.Signals | cerberus/src/bms.rs:13-20 | every signalled fault is `BmsCanMonitorFault`, at least one timeout after the wait began |
| Bms.FaultMeansSilence | cerberus/src/bms.rs:14-18 | no frame arrived in the four seconds before any signalled fault |
| Bms.SteadyFramesNoFault | cerberus/src/bms.rs:14-15 | frames at most four seconds apart keep the fault from being signalled |
| Bms.SilenceRepeats | cerberus/src/bms.rs:13-18 | with no frame the fault is signalled every four seconds |
| Bms.SignalsFromArrival | cerberus/src/bms.rs:13-20 | the signals of a timeline are those up to any frame followed by the signals of the wait that frame restarts |
| Bms.FirstGapSignalsFault | cerberus/src/bms.rs:14-18 | when no frame arrives within the first four seconds, the first signal is the fault at exactly four seconds |
| Bms.GapSignalsFault | cerberus/src/bms.rs:14-18 | after any frame followed by more than four seconds of silence, within the horizon, the fault is signalled exactly four seconds after that frame |
| Bms.SilenceAfterLastFrame | cerberus/src/bms.rs:14-18 | after the last frame the fault is signalled once for every whole four seconds left to the horizon, at multiples of four seconds after that frame |
| Bms.Watch | cerberus/src/bms.rs:13-20 | the loop run over a timeline sends exactly the signals `Signals` describes |
| Monitor.DebounceTick | cerberus/src/monitor.rs:150-157 | the TSMS is published exactly when the reading repeats with a count above 5, and then the count restarts at 1; a changed reading keeps the count; the previous reading always becomes the new one |
| Monitor.DebounceKeepsRange | cerberus/src/monitor.rs:150-156 | the count stays in 0..6, so the `u8` increment cannot overflow |
| Monitor.DebounceRun | cerberus/src/monitor.rs:150-157 | a run publishes at most one value per reading, and only values that were read |
| Monitor.SteadyReadingPublished | cerberus/src/monitor.rs:150-157 | a reading held for eight ticks is published from any reachable state |
| Monitor.FuseBytes | cerberus/src/monitor.rs:181-193 | the two fuse bytes: the input bits packed with `set_bit`, then each byte bit-reversed |
| Monitor.FuseLowRaw | cerberus/src/monitor.rs:181-188 | the first raw byte holds bank0 bits 4..7 in bits 0..3 and bank1 bits 0..3 in bits 4..7 |
| Monitor.FuseHighRaw | cerberus/src/monitor.rs:189 | the second raw byte holds bank1 bit 4 in bit 0 and nothing else |
| Monitor.FuseLayout | cerberus/src/monitor.rs:178-193 | after reversal each fuse input sits at the mirrored bit; byte 1 carries only bank1 bit 4, in bit 7 |
| Monitor.FuseHighValue | cerberus/src/monitor.rs:189-193 | for any two input banks, byte 1 is 0x80 when bank1 bit 4 is set and 0 otherwise |
| Monitor.FuseFrame | cerberus/src/monitor.rs:195-204 | the fuse frame is a valid standard 0x111 frame of two bytes |
| Monitor.CommandWrite | cerberus/src/monitor.rs:207-243 | pump, fault line and brake light write their level to bank 0 pins P00, P01 and P02 of the output register; SoundRtds writes no pin |
| Monitor.CommandPinsDistinct | cerberus/src/monitor.rs:207-239 | two output commands drive the same pin exactly when they are of the same kind |
| Monitor.SetupRegisters | cerberus/src/monitor.rs:76-111 | the four setup writes keep the register file's size |
| Monitor.SetupConfiguresOutputs | cerberus/src/monitor.rs:76-111 | after setup the three command pins and the RTDS pin are outputs, RTDS is low and the TSMS pin is an input |
| Monitor.CommandNeverRaisesRtds | cerberus/src/monitor.rs:207-239 | no output command changes the RTDS pin's level |
| Monitor.ControlExpander.constructor | cerberus/src/monitor.rs:72-119 | the driver at 0x76 with the four setup writes applied; debounce state false and 0; no sound |
| Monitor.ControlExpander.TsmsTick | cerberus/src/monitor.rs:126-158 | the sound ends, and P07 goes low, exactly when more than 1750 ms have passed; then bank 1 pin 6 is debounced as `DebounceTick` says |
| Monitor.ControlExpander.FuseTick | cerberus/src/monitor.rs:159-206 | queues exactly the fuse frame of the two input banks and changes nothing else |
| Monitor.ControlExpander.Command | cerberus/src/monitor.rs:207-244 | an output command writes its pin as `CommandWrite` says; SoundRtds only starts the sound at `now` |
| Pca9539.PinIndex | crates/pca9539-ner/src/lib.rs:38-48 | every pin is a bit position below 8 |
| Pca9539.PinIndexInjective | crates/pca9539-ner/src/lib.rs:38-48 | distinct pins have distinct positions |
| Pca9539.BankOffset | crates/pca9539-ner/src/lib.rs:52-55 | the bank offset is 0 or 1 |
| Pca9539.RegisterBase | crates/pca9539-ner/src/lib.rs:59-68 | each register type has an even base below 8 |
| Pca9539.Address | crates/pca9539-ner/src/lib.rs:123-127 | the address is below 8; its low bit is the bank and the rest is the register base |
| Pca9539.AddressInjective | crates/pca9539-ner/src/lib.rs:50-68 | distinct register and bank pairs have distinct addresses |
| Pca9539.PinWritten | crates/pca9539-ner/src/lib.rs:140 | the computed value is the register with only the pin's bit set to the state |
| Pca9539.PinLevel | crates/pca9539-ner/src/lib.rs:147 | `read_pin` is true exactly when the pin's bit is set |
| Pca9539.ReadAfterWrite | crates/pca9539-ner/src/lib.rs:140-147 | reading a pin after writing it gives the written level |
| Pca9539.WriteLeavesOtherPins | crates/pca9539-ner/src/lib.rs:140 | writing one pin keeps every other pin's level |
| Pca9539.WritePinIdempotent | crates/pca9539-ner/src/lib.rs:140 | writing the same level twice is writing it once |
| Pca9539.Expander.constructor | crates/pca9539-ner/src/lib.rs:90-92 | `new` always succeeds and keeps the address |
| Pca9539.Expander.Default | crates/pca9539-ner/src/lib.rs:82-87 | `new_default` always succeeds, at address 0x74 |
| Pca9539.Expander.ReadRegister | crates/pca9539-ner/src/lib.rs:126-128 | the register at `reg + bank`, or the bus error |
| Pca9539.Expander.WriteRegister | crates/pca9539-ner/src/lib.rs:117-124 | a successful write replaces only the register at `reg + bank`; a failed one changes nothing |
| Pca9539.Expander.WritePin | crates/pca9539-ner/src/lib.rs:132-143 | success exactly when both transfers succeed, and then only the pin's bit changes; a failed read writes nothing |
| Pca9539.Expander.ReadPin | crates/pca9539-ner/src/lib.rs:145-148 | the pin's bit, or the bus error |
| Lsm6dso.FieldMaskIsShift | crates/lsm6dso-ner/src/lib.rs:274 | the field is `mask << shift` |
| Lsm6dso.BitsWritten | crates/lsm6dso-ner/src/lib.rs:274 | the value `write_bits` computes from the current register |
| Lsm6dso.BitsWrittenOutside | crates/lsm6dso-ner/src/lib.rs:274 | `write_bits` keeps every bit outside the field |
| Lsm6dso.BitsWrittenField | crates/lsm6dso-ner/src/lib.rs:274 | within the field the register holds `new_value & mask`, shifted |
| Lsm6dso.BitsWrittenIdempotent | crates/lsm6dso-ner/src/lib.rs:274 | writing the same field value twice is writing it once |
| Lsm6dso.BitWrittenIsSetBit | crates/lsm6dso-ner/src/lib.rs:257-264 | `write_bit` sets or clears the one bit at `shift`, following bit 0 of the value |
| Lsm6dso.RawTemperature | crates/lsm6dso-ner/src/lib.rs:180-184 | the raw temperature is the `i16` value of the two bytes, little-endian |
| Lsm6dso.RawAxes | crates/lsm6dso-ner/src/lib.rs:278-285 | each axis is the `i16` value of its two bytes, little-endian, in x, y, z order |
| Lsm6dso.SplitAll | crates/lsm6dso-ner/src/lib.rs:124-125 | the fourteen bytes split into temperature (2), gyroscope (6) and accelerometer (6) |
| Lsm6dso.AccelAvailable | crates/lsm6dso-ner/src/lib.rs:192-195 | new accelerometer data is status bit 0 |
| Lsm6dso.GyroAvailable | crates/lsm6dso-ner/src/lib.rs:196-199 | new gyroscope data is status bit 1 |
| Lsm6dso.CachedScale | crates/lsm6dso-ner/src/lib.rs:202-223 | a cached scale is returned as it is; otherwise the result is the register's decoding, a bus failure is a communication error and an undecodable value is a read failure |
| Words.Le16 | crates/lsm6dso-ner/src/lib.rs:280-282 | the low byte and the high byte can be read back from the assembled word |
| Words.Le16Inverse | crates/lsm6dso-ner/src/lib.rs:280-282 | every 16-bit word is the assembly of its own two bytes |
| Words.Unsigned16 | crates/lsm6dso-ner/src/lib.rs:280-282 | a 16-bit word's unsigned value is in 0..65535, below 0x8000 exactly when bit 15 is clear |
| Words.U8 | crates/lsm6dso-ner/src/lib.rs:280-282 | a byte's unsigned value is in 0..255, below 0x80 exactly when bit 7 is clear |
| Words.U8IsValue | crates/lsm6dso-ner/src/lib.rs:280-282 | that value is the byte's integer reading |
| Words.I16Value | crates/lsm6dso-ner/src/lib.rs:280-282 | the reference `i16` of a low and a high byte: low + 256 × high, less 65536 when the high byte's sign bit is set, in the `i16` range |
| Words.Le16Value | crates/lsm6dso-ner/src/lib.rs:280-282 | the assembled word's unsigned value is low + 256 × high |
| Words.Signed16 | crates/lsm6dso-ner/src/lib.rs:280-282 | the `i16` reading is in range and negative exactly when bit 15 is set |
| Words.Le16Signed | crates/lsm6dso-ner/src/lib.rs:280-282 | the `i16` reading of the assembled word is the reference value of its two bytes |
| Lsm6dso.Imu.constructor | crates/lsm6dso-ner/src/lib.rs:42-47 | the driver starts with both caches empty |
| Lsm6dso.Imu.ReadRegister | crates/lsm6dso-ner/src/lib.rs:288-295 | the register's value, or a communication error |
| Lsm6dso.Imu.WriteRegister | crates/lsm6dso-ner/src/lib.rs:310-315 | a successful write replaces only that register; a failed one changes nothing |
| Lsm6dso.Imu.WriteBits | crates/lsm6dso-ner/src/lib.rs:266-276 | success exactly when both transfers succeed, and then the register holds `BitsWritten`; a failed read writes nothing; the caches are unchanged |
| Lsm6dso.Imu.WriteBit | crates/lsm6dso-ner/src/lib.rs:257-264 | `write_bits` with mask 1 |
| Lsm6dso.Imu.Check | crates/lsm6dso-ner/src/lib.rs:225-229 | true exactly when WHO_AM_I holds 0x6C; a bus error propagates |
| Lsm6dso.Imu.SetAccelerometerScale | crates/lsm6dso-ner/src/lib.rs:68-82 | the scale field of CTRL1_XL is written; the cache holds the scale on success and is emptied on failure |
| Lsm6dso.Imu.SetGyroscopeScale | crates/lsm6dso-ner/src/lib.rs:90-101 | the scale field of CTRL2_G is written; on success the gyroscope cache holds the scale; on failure the accelerometer cache is emptied and the gyroscope cache is kept |
| Lsm6dso.Imu.SetOutput | crates/lsm6dso-ner/src/lib.rs:60-87 | the output field of the sensor's control register is written; the caches are unchanged |
| Lsm6dso.Imu.SetLowPowerMode | crates/lsm6dso-ner/src/lib.rs:104-118 | the CTRL6_C bit is written, then the CTRL7_G bit; the second write is skipped when the first fails |
| Lsm6dso.Imu.ReadAccelerometerScale | crates/lsm6dso-ner/src/lib.rs:202-211 | a cached scale is returned with no bus access; otherwise the register is read and decoded, and a decoded value fills the cache |
| Lsm6dso.Imu.ReadGyroscopeScale | crates/lsm6dso-ner/src/lib.rs:214-223 | the same for CTRL2_G and the gyroscope cache |
| Lsm6dso.Imu.ReadAll | crates/lsm6dso-ner/src/lib.rs:121-131 | the gyroscope scale is read first, then the accelerometer scale, each as `CachedScale` says, and the first error is returned; with both scales, a success is the split of the fourteen bytes read and a failed transfer is a communication error; each cache is filled only by its own successful read; the registers are unchanged |
| Lsm6dso.New | crates/lsm6dso-ner/src/lib.rs:41-57 | succeeds exactly when WHO_AM_I reads 0x6C and the auto-increment write succeeds; a mismatch is ChipDetectFailed and a bus error propagates; the new driver has auto-increment set and empty caches |
| Msb.FromStraps | msb-fw-rs/src/lib.rs:20-34 | the decision tree is total, and each location is chosen exactly on its strap condition, with (false, true, true) falling through to FrontLeft |
| Msb.EveryLocationSelectable | msb-fw-rs/src/lib.rs:20-34 | every location has a strap setting that selects it |
| Msb.Offset | msb-fw-rs/src/lib.rs:43-46 | the offset is at most 0x60 |
| Msb.OffsetInjective | msb-fw-rs/src/lib.rs:43-46 | distinct locations have distinct offsets |
| Msb.BaseRaw | msb-fw-rs/src/lib.rs:38-41 | a standard base is used as it is; an extended base gives its top eleven bits |
| Msb.CanId | msb-fw-rs/src/lib.rs:37-48 | the id exists exactly when base plus offset fits in 11 bits (otherwise the `unwrap` panics), and it is the standard id of that sum |
| Msb.FrontLeftIsBase | msb-fw-rs/src/lib.rs:43 | FrontLeft keeps a standard base as it is |
| Msb.CanIdsDistinct | msb-fw-rs/src/lib.rs:42-47 | for one base the four locations never share an id |
| Msb.AllLocationsFit | msb-fw-rs/src/lib.rs:42-47 | every location has an id exactly when the base is at most 0x7FF - 0x60 |
| Msb.LedPattern | msb-fw-rs/src/controllers.rs:14-31 | led1 is high exactly at the front, led2 exactly on the left |
| Msb.PatternRoundTrip | msb-fw-rs/src/controllers.rs:14-31 | the pattern decodes back to the location, and every pattern is some location's |
| Msb.PatternInjective | msb-fw-rs/src/controllers.rs:14-31 | distinct locations light distinct patterns |
| Msb.Leds.constructor | msb-fw-rs/src/controllers.rs:7-11 | the two outputs bound to a location |
| Msb.Leds.Show | msb-fw-rs/src/controllers.rs:12-32 | one pass drives both outputs to the location's pattern |

## Left out

- I²C transport. Each device is its register file, and a failed transfer
  is a boolean parameter. The PCA9539's raw `read`/`write` byte helpers
  and `address()` accessor are folded into the register methods.
- Floating-point arithmetic:
  - the DTI mph formula (a `toSpeed` parameter stands for it);
  - the LSM6DSO temperature, gyroscope and accelerometer scaling and
    `to_radians`;
  - `lv_sense_handler`'s ADC scaling.

  `read_gyro`, `read_accelerometer` and `read_temperature` are left out
  too: past the float conversion they are the raw reads that `ReadAll`
  already models.
- Executor and concurrency semantics. Only these are modelled:
  - in the BMS watchdog, `select` polls its first branch first;
  - a `Signal` is a one-slot overwrite;
  - a `Channel` is a bounded FIFO.

  Task wiring in `cerberus/src/main.rs`, atomics' memory ordering and
  clock reads are not modelled. Times are parameters.
- The hardware side of bxCAN: transmit-mailbox eviction (`dequeued_frame`),
  the bit rate, and the filter hardware. The filter appears only as the
  acceptance-list predicate.
- `steeringio_handler` and `lv_sense_handler` in cerberus/src/monitor.rs.
  The first computes values and discards them; the second is ADC and float
  work.
- The LSM6DSO `regs` module is not part of this model. Field masks,
  offsets and `TryFrom` decodings are parameters, and the register map is a
  datatype.
- msb-fw-rs/src/can_handler.rs, msb-fw-rs/src/readers.rs and the three
  `main.rs` files.
- The embassy CAN id types are not part of this model.
  `ExtendedId::standard_id` is taken as the top eleven bits of the 29-bit
  id.
- Fault.FaultManager.Handle: the caller chooses which `select3` branch
  fired, so a tick may be handled while a fault event is already waiting,
  which the first-branch priority of `select3` would not allow.
- Fault.FaultManager.Handle: writes the buffer with the corrected layout
  of the cerberus/src/fault.rs:73 finding. As written, every pass panics at
  that copy before the status frame is sent (`Fault.StatusBytesAsWrittenPanics`).
- CanRouter.CanHandler: transmit and receive are separate methods that the
  caller chooses between; the `select` order between them is not modelled.
- Monitor.ControlExpander: the TSMS tick, the fuse tick and a command are
  separate methods that the caller chooses between; the `select3` order is
  not modelled.
- Monitor.ControlExpander: the expander bus is assumed never to fail.
  Every transfer there is `unwrap!`ed, and a failure halts the firmware.
- Msb.Leds.Show: models one pass of `control_leds`. The endless loop and
  its two-second wait are left out.
- Dti.DtiHandler.Handle: the stored speed is `toSpeed` applied to the
  truncated `erpm / 10`, not the float formula.
- Dti.DecodeErpm: the property that `+` in the decode equals `|` is stated
  as equality with the big-endian reading, not as a bit-level identity.
- Lsm6dso.Imu.ReadAll: the scale values feed only the float conversion,
  which is left out. The fourteen-byte transfer is its `Option` argument.
- Words.Unsigned16: defined as a sum of bit place values rather than a
  bit-vector-to-integer conversion. `Words.Le16Value` and `Words.U8IsValue`
  tie it to the bytes' integer values.

## Findings

| source | as written | input that shows it | evidently intended | confidence | as-written member | corrected member |
|---|---|---|---|---|---|---|
| cerberus/src/fault.rs:73 | the four bytes of `(last_fault as u32).to_be_bytes()` are copied into the three-byte slice `fault_bits[0..3]`, so `copy_from_slice` panics | any event on any pass, for example the first status tick with the latch FaultsClear | the low three bytes of the big-endian code in bytes 0..3 | not executed | Fault.StatusBytesAsWritten / Fault.StatusBytesAsWrittenPanics | Fault.StatusBytes / Fault.StatusBytesRoundTrip (used by Fault.FaultManager.Handle) |
