# Touchpad drivers over AMD SMBus: models and proofs

Four pieces of stateful driver code that make a PS/2 touchpad work over SMBus on AMD
machines, each modelled in the form it has in C and proved in Dafny.

**ASF Host Notify engine** (`AsfHardware`, `AsfEffects`, `AsfEngine`, `AsfStranding`, `AsfFence`). One SMBus
controller is time-shared between mastering transfers and listening for Host Notify
(section 5.5.9 of the SMBus Specification 2.0). `AsfHardware` holds the registers, the two
receive banks and the steps of the interrupt side: the hard IRQ handler and the devices on
the bus. `AsfEngine.Piix4Asf` is the driver, method by method; between any two of its register
accesses `Env` runs any number of interrupt steps, the PM region request may fail at every
call, and firmware may rewrite registers while the system sleeps. Every message the
controller acknowledges gets a number, and the log says whether it was read or forfeited, so
"nothing is lost" is a statement about sets of numbers. Ghost records list every access issued,
every wait with the slave armed and every passage of the slave through reset. `AsfEffects` states what each routine
does as a relation between the states on entry and exit. `AsfFence` is the step system of
threads over the two mutexes.

**RMI4 over SMBus** (`RmiRegisters`, `RmiSmbus`). The driver's round-robin copy of the device's
8-entry mapping table, the 32-byte chunking, and the flat register file both are meant to
look like. A failed table write may or may not have reached the device.

**PS/2 bytes and ALPS packets** (`AlpsBytes`, `AlpsSync`, `AlpsFrames`, `PsmouseCore`;
`AlpsBitmap`, `AlpsMultiPacket`, `AlpsContacts`, `AlpsWire`, `AlpsDriver`). The byte machine with
its resynchronisation, device announcements, bare PS/2 packets and PS/2 data spliced into 6-byte
packets; then bitmap geometry and the reassembly of multitouch reports from several packets, with
encoders that the decoders undo. `PsmouseCore.Psmouse`
and `AlpsDriver.AlpsData` change their buffers and fields in place, each proved equal to a
function on the state; the theorems are about those functions and any stream of bytes or
packets.

**SMBus companions** (`SmbusCompanion`, `CompanionRuns`, `PsmouseSmbus`). Records on a shared list that the PS/2
side and the I2C side tear down in either order, over an explicit heap, so that every
allocation and every free is visible. `PsmouseSmbus.Driver` walks and changes the list in
place; each entry point equals one event on the abstract world.

What the proofs found:

- IRQ thread, wedged bank, PM region busy: messages that come in during that run may be left
  in the banks of a slave that has stopped listening. They stay there until the next transfer,
  which finds `listening` clear, skips its drain and resets the slave. `Piix4Asf.AccessAsf` says
  that exactly those are forfeited then, and nothing else without a reception error;
  `AsfStranding.AHostNotifyIsLost` is a run that loses one. Whatever waited before the IRQ
  thread ran has been read and reported even so.
- The comment on `ASF_NOTIFY_MAX` counts two drains per call; a transfer can drain four times.
  The list still never overflows when full flags clear on acknowledgement, at two messages a
  drain, nor in the IRQ thread.
- `rmi_smb_read_block` keeps its count in an `int`: from 2 GiB on it reads less than asked,
  and reports success (`RmiSmbus.ReadIsFlatUpToInt`).
- On an interleaved touchpad a bare PS/2 packet right after an ALPS packet whose fourth byte
  ends in 0xf is misread; the stream is reported as sent if and only if this does not happen
  (`AlpsFrames.Demultiplexes`, `AlpsFrames.ClashHappens`).
- A V3 position with a pressure of exactly 0x3f is taken for a trackstick packet and dropped
  (the source's comment says that value was never seen there), and a Rushmore position with a
  pressure of 0x40 or more is taken for a bitmap (`AlpsWire.TouchIsReported`,
  `AlpsWire.PositionRoundTrip`).
- A single run of exactly two bits comes out of the bitmap geometry with its edges reversed
  (`AlpsBitmap.EdgesOnAxis`).
- A device link that init adds after the client has already gone again is never removed by
  the driver, and the client's platform data stays behind exactly if the mouse is cleaned up
  between the going of its PS/2 side and that of the client (`CompanionRuns.LinkFollowsRun`,
  `CompanionRuns.LeftToCleanup`; runs that end so: `CompanionRuns.ALinkStays`,
  `CompanionRuns.PlatformDataStays`).

## Model

| member | source | states |
|---|---|---|
| `AsfHardware.InterruptStepIsRelied` | research/module/i2c-piix4.c:1514-1544 | The hard handler, an arriving message and a reception error touch nothing but what the driver allows for between two register accesses, and no acknowledged message goes unaccounted |
| `AsfHardware.BurstIsRelied` | research/module/i2c-piix4.c:1514-1544 | The same over any number of interrupts, and a listening driver never misses one: an unread message always has a signal pending |
| `AsfHardware.UnheardInterruptsAreMasked` | research/module/i2c-piix4.c:1531-1540 | While the driver is not listening an interrupt status that goes away takes the interrupt enable with it for the rest of the burst, and neither marks anything pending nor wakes the IRQ thread |
| `AsfHardware.HandlerClaimsItsOwn` | research/module/i2c-piix4.c:1514-1544 | The hard handler changes something exactly if the status is up, acknowledges it, and either wakes the thread with the enable left on or masks the enable and wakes nobody |
| `AsfEffects.DrainIsFair` | research/module/i2c-piix4.c:1351-1379 | Over the states a drain passes through: whatever flags are stuck and whatever arrives, without a reception error a bank flagged at iteration i <= 6 is read by iteration i + 1, message and all; so what is in a bank at the start has been read at the end |
| `AsfEffects.CaughtGrows` | research/module/i2c-piix4.c:1375-1376 | Drains in a row: everything read in any of them is in the list, in front of it what was there before |
| `AsfEffects.DeafMeansRead` | research/module/i2c-piix4.c:1412-1427 | When the slave accepts nothing and no message waits, every message acknowledged up to some earlier point was read, but for those forfeited by then |
| `AsfEffects.TransferIsCaught` | research/module/i2c-piix4.c:1423-1495 | Drain, attempts with their yields and re-arming together note every Host Notify, and lose none without a reception error |
| `AsfEffects.MaskedIsHandled` | research/module/i2c-piix4.c:1559-1568 | Masking the interrupt and draining while LISTN stays on leaves no message of before unread, wedged or not |
| `AsfEffects.AttemptsEnd` | research/module/i2c-piix4.c:1444-1475 | A final result, or a NAK whose yield caught nobody, is where the attempts end, and they were at most four |
| `AsfStranding.AHostNotifyIsLost` | research/module/i2c-piix4.c:1588-1597 | A concrete run: a stuck bank, a Host Notify arriving during the drain, the PM region busy, and the next transfer resets the slave with the message unread |
| `AsfEngine.Piix4Asf.Env` | research/module/i2c-piix4.c:1514-1544 | Any burst of interrupts keeps the ledger of messages and never loses a wakeup of a listening driver |
| `AsfEngine.Piix4Asf.RouteWindow` | research/module/i2c-piix4.c:1157-1164 | Routing port 0x07 touches no full flag, so a message arriving in between is kept |
| `AsfEngine.Piix4Asf.MasterMode` | research/module/i2c-piix4.c:1204-1217 | Slave offline and reset, master enabled, port 0x07 on the host FIFO, whatever interrupts come in between; a deaf slave forfeits exactly what waited |
| `AsfEngine.Piix4Asf.SlaveArm` | research/module/i2c-piix4.c:1224-1252 | LISTN with address 0x08, interrupt on, reset off, master off, clock on, port 0x07 on the banks, each in an access of its own with interrupts between, and no message waits without a signal |
| `AsfEngine.Piix4Asf.ReadBank` | research/module/i2c-piix4.c:1308-1330 | Read with the window on the ASF banks only; reports the notifying device exactly for a well-formed Host Notify |
| `AsfEngine.Piix4Asf.ProcessBank` | research/module/i2c-piix4.c:1266-1330 | Reads the preferred flagged bank and acknowledges it alone; both banks are flushed exactly on a counted reception error; nothing else is lost |
| `AsfEngine.Piix4Asf.Drain` | research/module/i2c-piix4.c:1351-1379 | At most 8 reads through states that follow one another by the choice rule; every Host Notify read is in the list and nothing but devices that send one; wedged or not, whatever was in a bank at the start has been read; wedged only with a flag still up |
| `AsfEngine.Piix4Asf.PiixAccess` | research/module/i2c-piix4.c:1423-1427 | A transfer is only ever issued to a controller set up as a master (while the wrapper is in effect), and every one issued is on record with its result and the notify list at that time |
| `AsfEngine.Piix4Asf.Wait` | research/module/i2c-piix4.c:1460 | Waits only with the slave armed, and records the state in which the wait ended |
| `AsfEngine.Piix4Asf.Yield` | research/module/i2c-piix4.c:1457-1464 | One wait with the slave fully armed; the slave is deaf afterwards, every message acknowledged by the end of the wait has been read and noted, but for a counted reception error |
| `AsfEngine.Piix4Asf.MasterLoop` | research/module/i2c-piix4.c:1423-1475 | The accesses issued are at most 4; each but the last was followed by a yield that justified a retry: EAGAIN always, ENXIO only if the list grew by the addressed device; any other result, or a yield in vain, ends the transfer with that result. There is one wait with the armed slave after exactly those accesses with a retryable result that were not the last allowed, and what arrived by its end is read before the next access |
| `AsfEngine.Piix4Asf.DrainBeforeReset` | research/module/i2c-piix4.c:1407-1421 | A listening slave is deaf, with every flagged message read and noted, before the reset |
| `AsfEngine.Piix4Asf.Relisten` | research/module/i2c-piix4.c:1482-1488 | After a transfer the slave is armed exactly if Host Notify is wanted |
| `AsfEngine.Piix4Asf.Transfer` | research/module/i2c-piix4.c:1397-1491 | EBUSY without a trace if the PM region is busy; otherwise the accesses of the retry rule; everything read is in the list unless that is full; from a listening driver nothing is lost, from a deaf one exactly what waited, without a reception error |
| `AsfEngine.Piix4Asf.Deliver` | research/module/i2c-piix4.c:1381-1394 | Hands over the whole list in order, or nothing once delivery is stopped |
| `AsfEngine.Piix4Asf.AccessAsf` | research/module/i2c-piix4.c:1397-1495 | At-least-once reception: with clearing flags and no reception error, every Host Notify waiting when the transfer began has been delivered when it returns, but for those a deaf slave was left with, which are exactly what is forfeited |
| `AsfEngine.Piix4Asf.ResetWedgedSlave` | research/module/i2c-piix4.c:1576-1587 | One more drain with LISTN off, one passage through reset with LISTN off and nothing unread, and re-arming: every message of before is read, what was read is noted, and where the reset clears the full flags none of before survives |
| `AsfEngine.Piix4Asf.Recover` | research/module/i2c-piix4.c:1576-1597 | Reset exactly once and re-armed with every message read and noted if the PM region can be had; else no reset, masked and not listening, with LISTN off and nothing forfeited yet |
| `AsfEngine.Piix4Asf.IrqThread` | research/module/i2c-piix4.c:1546-1603 | Whatever the outcome of a run that found the driver listening: every message acknowledged before has been read, everything read is in the list, which never overflows, and nothing is lost without a reception error; the slave passed through reset exactly if the outcome says so |
| `AsfEngine.Piix4Asf.IrqRun` | research/module/i2c-piix4.c:1546-1603 | If delivery is allowed, every Host Notify the IRQ thread read has been handed to the adapter; if the driver was listening, everything acknowledged before has been read |
| `AsfEngine.Piix4Asf.Quiesce` | research/module/i2c-piix4.c:1760-1773 | Slave off, in reset, masked, nothing pending; what was read stays read |
| `AsfEngine.Piix4Asf.Start` | research/module/i2c-piix4.c:1732-1752 | Delivery allowed and listening wanted; armed at once if the PM region can be had, else nothing changes until the next transfer |
| `AsfEngine.Piix4Asf.Stop` | research/module/i2c-piix4.c:1775-1805 | No delivery, no IRQ, interrupt masked; a plain master if the PM region can be had; harmless when repeated |
| `AsfEngine.Piix4Asf.Suspend` | research/module/i2c-piix4.c:1837-1850 | Remembers whether to listen and, only then, goes quiet: LISTN and interrupt off, slave in reset, nothing waiting |
| `AsfEngine.Piix4Asf.FirmwareRewrites` | research/module/i2c-piix4.c:1857-1865 | The invariant survives any control bits, status bits and full flags firmware leaves during sleep |
| `AsfEngine.Piix4Asf.Resume` | research/module/i2c-piix4.c:1852-1873 | Listening is restored exactly as before suspend, armed from scratch, through one reset, if the PM region can be had |
| `AsfEngine.Piix4Asf.RestoreBootState` | research/module/i2c-piix4.c:1179-1198 | Every control register holds its recorded firmware value again, and with LISTN off in it no status is left up |
| `AsfEngine.Piix4Asf.Enable` | research/module/i2c-piix4.c:1611-1729 | Active with all resources, a master and the firmware state recorded; or inactive with none held and the registers as they were, save when the PM region was busy on the way out |
| `AsfEngine.Piix4Asf.Disable` | research/module/i2c-piix4.c:1808-1835 | IRQ, GSI and IO region released once each, the registers restored whenever the PM region can be had |
| `AsfEngine.Piix4Asf.Handle` | research/module/i2c-piix4.c:1397-1873 | What each single event leaves behind: a transfer asks for the PM region once, IRQ work reads everything of before, start, stop, suspend and resume set what is wanted and allowed |
| `AsfEngine.Piix4Asf.Run` | research/module/i2c-piix4.c:1397-1873 | Over every run of transfers, interrupts, IRQ work, start, stop, suspend, firmware changes and resume: listening implies wanted, the IRQ requested and the slave fully armed with no lost wakeup; not listening implies LISTN clear unless firmware tampered; and with clearing flags and delivery allowed throughout every Host Notify read was delivered |
| `AsfEngine.Piix4Asf.Lifetime` | research/module/i2c-piix4.c:2134-2147 | Enable, any run, disable: everything is given back and the firmware registers are what they were |
| `AsfFence.StepKeepsInv` | research/module/i2c-piix4.c:1381-1394 | One step of any thread keeps mutex ownership, the delivery permission and the fence consistent |
| `AsfFence.NothingIsHandedOverWhileStopped` | research/module/i2c-piix4.c:1775-1805 | In no interleaving is a notification handed over between the return of stop and the next start |
| `AsfFence.CollectedIsAccounted` | research/module/i2c-piix4.c:1381-1394 | Over every interleaving: whatever a thread collected it has handed over, held back because delivery was off, or still has in hand |
| `AsfFence.NothingIsHeldBack` | research/module/i2c-piix4.c:1381-1394 | As long as delivery is on, a worker that has finished has handed over all it collected |
| `AsfFence.StepKeepsBooks` | research/module/i2c-piix4.c:1381-1394 | A step hands over at most one notification, and holds back all a worker has or none, only with delivery off |
| `AsfFence.DeliveryFollowsControl` | research/module/i2c-piix4.c:1732-1805 | Only the control thread changes whether delivery is on: on in start, off in stop, under the mutex |
| `AsfFence.NoIrqThreadAfterFreeIrq` | research/module/i2c-piix4.c:1790-1794 | After free_irq the IRQ thread does not run until the IRQ is requested again |
| `AsfFence.MutualExclusion` | research/module/i2c-piix4.c:1490-1493 | Each mutex has one holder and no thread ever holds both |
| `AsfFence.NoWaitCycle` | research/module/i2c-piix4.c:1599-1601 | No chain of waits is longer than three threads or closes |
| `AsfFence.SomeoneCanStep` | research/module/i2c-piix4.c:1775-1805 | No deadlock: while any thread is busy, some busy thread can go on |
| `RmiRegisters.WriteAt` | drivers/input/rmi4/rmi_smbus.c:136-171 | What flat writing means: the last byte written to a register, or its old value |
| `RmiRegisters.ReadBack` | drivers/input/rmi4/rmi_smbus.c:136-226 | Reading back what was written returns it exactly when it fits the 16-bit address space |
| `RmiSmbus.Encode` | drivers/input/rmi4/rmi_smbus.c:108-112 | The four bytes of a table entry decode to that entry |
| `RmiSmbus.RmiSmbXport.GetCommandCode` | drivers/input/rmi4/rmi_smbus.c:79-134 | A hit changes nothing; a miss replaces the round-robin entry alone; on success the device's entry has the address, and the exact read count or write enable; the cache stays coherent even if the table write failed |
| `RmiSmbus.RmiSmbXport.ClearState` | drivers/input/rmi4/rmi_smbus.c:228-234 | After a reset the copy is coherent whatever table the device came back with |
| `RmiSmbus.RmiSmbXport.WriteBlock` | drivers/input/rmi4/rmi_smbus.c:136-171 | Success is a flat write of the whole buffer; on an error a prefix was written, of whole 32-byte blocks if failed blocks have no effect |
| `RmiSmbus.RmiSmbXport.ReadBlock` | drivers/input/rmi4/rmi_smbus.c:189-226 | Success is a flat read of as many bytes as the count asks for, each chunk of exactly its length |
| `RmiSmbus.ReadIsFlatUpToInt` | drivers/input/rmi4/rmi_smbus.c:196-224 | A successful read is a flat read for every register content if and only if the length fits an int |
| `RmiSmbus.History` | drivers/input/rmi4/rmi_smbus.c:79-234 | After any history of writes, reads, evictions, failures and resets: as long as no write failed, every successful read returned what the flat file held by then, and the registers are those of the flat file; an operation fails exactly if the bus does |
| `RmiSmbus.Perform` | drivers/input/rmi4/rmi_smbus.c:136-226 | One read, write or reset on any coherent state: the flat effect or the flat content on success, and failure exactly on a bus error |
| `RmiSmbus.WriteThenRead` | drivers/input/rmi4/rmi_smbus.c:136-226 | A write and a read of the same block through the table return the data |
| `AlpsBytes.TableIsSane` | drivers/input/mouse/alps.c:107-166 | For every device of the tables no ALPS first byte looks like bare PS/2 (V8 excepted) or like a device announcement, and interleaved devices have the high bit set in theirs |
| `AlpsBytes.BitsByNumber` | drivers/input/mouse/alps.c:1504-1581 | What the byte marks mean as numbers: high bit, spliced fourth byte, bare first byte, bit 3 cleared |
| `AlpsBytes.GenuineByHighBits` | drivers/input/mouse/alps.c:1640-1670 | A V1 to V4 packet is well formed if and only if it has its size, a valid first byte and no high bit after it |
| `AlpsBytes.GenuineByBits` | drivers/input/mouse/alps.c:939-950 | A V7 or SS4 packet is well formed if and only if the constant bits of its bytes 0, 2, 3 and 5 are right |
| `AlpsBytes.ProcessKeeps` | drivers/input/mouse/alps.c:1610-1688 | One byte: the packet stays within 7 bytes on interleaved devices and the packet size elsewhere, keeps its format, and at most one well-formed packet is reported |
| `AlpsBytes.HeldIsGenuine` | drivers/input/mouse/alps.c:1524-1547 | The six bytes before the next packet's first byte are a well-formed ALPS packet if the last three have no high bit |
| `AlpsBytes.SpliceGoesOn` | drivers/input/mouse/alps.c:1548-1578 | Where PS/2 data was cut out the ALPS packet goes on with four good bytes and is not taken for a splice again |
| `AlpsBytes.ReceiveKeeps` | drivers/input/mouse/psmouse-base.c:359-416 | A received byte, announcements and stale packets included, keeps the buffer, format and counter invariants; which of these it is, `AlpsSync` says |
| `AlpsBytes.FlushKeeps` | drivers/input/mouse/alps.c:1583-1608 | The timer, whenever it fires, keeps the buffer, format and counter invariants |
| `AlpsBytes.FlushReports` | drivers/input/mouse/alps.c:1583-1608 | What waits is reported if and only if it is a well-formed packet, and is gone from the buffer either way; a shorter packet is left alone |
| `AlpsBytes.HandleKeeps` | drivers/input/mouse/psmouse-base.c:268-304 | The counter is the number of bad packets in ACTIVATED since the last full one or state change, stays below resetafter, and a reconnect is issued exactly at the resetafter-th, never for 0 |
| `AlpsBytes.EveryStream` | drivers/input/mouse/psmouse-base.c:244-416 | All of this for every device of the tables and every stream of bytes, timeouts and state changes |
| `AlpsSync.Announcements` | drivers/input/mouse/psmouse-base.c:379-391 | Over every run a new device is announced exactly by 0xaa as the first byte of a packet and 0x00 in time after it; the mouse is then ignored, with nothing counted |
| `AlpsSync.EveryAnnouncement` | drivers/input/mouse/psmouse-base.c:379-391 | The same for every device of the tables from the start of the driver |
| `AlpsSync.OnlyABadByte` | drivers/input/mouse/psmouse-base.c:393-398 | After 0xaa any other byte makes that one a bad packet and begins the next packet itself |
| `AlpsSync.ByteCounts` | drivers/input/mouse/psmouse-base.c:268-304 | A byte against the format costs the packet and is counted exactly in ACTIVATED, with a reconnect exactly at the threshold; a last byte reports the packet and ends the count; any other byte changes nothing but what is collected |
| `AlpsSync.SpoiledAtTheEnd` | drivers/input/mouse/alps.c:1647-1670 | A packet with a high bit in its last byte alone is dropped, and counts as full if and only if the device is a Rushmore, as bad elsewhere |
| `AlpsSync.LateByteResyncs` | drivers/input/mouse/psmouse-base.c:368-376 | A byte sends the mouse to resynchronise if and only if it comes half a second late inside a packet in ACTIVATED; the packet is dropped |
| `AlpsFrames.Collects` | drivers/input/mouse/alps.c:1640-1687 | Byte after byte of a well-formed packet is collected, and the last one reports it or, if it looks spliced, holds it for the timer |
| `AlpsFrames.SplicedArrives` | drivers/input/mouse/alps.c:1504-1581 | A packet with three bytes of PS/2 data after its third byte is reported as the PS/2 motion and the packet, bit 3 of its fourth byte cleared |
| `AlpsFrames.InStep` | drivers/input/mouse/alps.c:1504-1688 | Over every clash-free stream of frames what has been reported is what was sent, at most one held packet behind |
| `AlpsFrames.Demultiplexes` | drivers/input/mouse/alps.c:1504-1688 | For every stream of plain, spliced and bare packets and pauses: reported in order as sent if and only if no bare packet directly follows a held one |
| `AlpsFrames.WithoutSplicing` | drivers/input/mouse/alps.c:1616-1635 | Devices that do not interleave report every stream exactly |
| `AlpsFrames.ClashHappens` | drivers/input/mouse/alps.c:1550-1562 | The clash is a stream the Latitude E6400's touchpad can send |
| `PsmouseCore.Psmouse.HandleInterleavedPs2` | drivers/input/mouse/alps.c:1504-1581 | The handler on the eight-byte buffer rewrites it as the byte machine does |
| `PsmouseCore.Psmouse.ProcessByte` | drivers/input/mouse/alps.c:1610-1688 | So does the protocol handler, with the same verdict |
| `PsmouseCore.Psmouse.HandleByte` | drivers/input/mouse/psmouse-base.c:268-304 | So does the core on the verdict |
| `PsmouseCore.Psmouse.ReceiveByte` | drivers/input/mouse/psmouse-base.c:359-416 | Receiving never stores past packet[8], keeps the invariant of EveryStream, and is the byte machine's step |
| `PsmouseCore.Psmouse.FlushPacket` | drivers/input/mouse/alps.c:1583-1608 | The timer callback is the byte machine's flush |
| `AlpsBitmap.GetBitmapPoints` | drivers/input/mouse/alps.c:357-381 | The first maximal run of set bits, the last one if there are two or more, and the number of runs |
| `AlpsBitmap.EndsAreUnique` | drivers/input/mouse/alps.c:357-381 | First and last run are unique and apart unless they are the same |
| `AlpsBitmap.LastIsLast` | drivers/input/mouse/alps.c:357-381 | The reference definition of the last run is the last maximal run |
| `AlpsBitmap.EdgesOnAxis` | drivers/input/mouse/alps.c:414-461 | Both edges lie on the axis, low not above high, except reversed exactly for a single run of two bits |
| `AlpsBitmap.BoxIsOnPad` | drivers/input/mouse/alps.c:430-473 | All four corners lie on the pad, after axis reversal too |
| `AlpsBitmap.BoxAroundCentres` | drivers/input/mouse/alps.c:414-473 | The four corners, clockwise, from the centres of the first and last run, or of two parts of the only one; x reversed exactly on V5, y exactly on V3 and V4 |
| `AlpsBitmap.AxesRun` | drivers/input/mouse/alps.c:462-473 | Moving the bits of one map up never decreases that coordinate of any corner, on a reversed axis never increases it, and leaves the other coordinate alone |
| `AlpsBitmap.OneFingerBox` | drivers/input/mouse/alps.c:430-473 | A single bit on each axis gives the point in that proportion, from the far end on a reversed axis |
| `AlpsBitmap.EndsOfAxes` | drivers/input/mouse/alps.c:462-473 | The first bit of a map is coordinate 0 and the last the maximum, the other way round on V5 for x and on V3 and V4 for y |
| `AlpsBitmap.NearestIsNearest` | drivers/input/mouse/alps.c:481-492 | The scan finds the first of the nearest corners, or none if all are too far |
| `AlpsBitmap.SecondIsOpposite` | drivers/input/mouse/alps.c:475-498 | With coordinates of fifteen bits the second touch goes to the corner diagonally opposite the one nearest the first |
| `AlpsMultiPacket.MapsFit` | drivers/input/mouse/alps.c:635-724 | No decoder yields a bitmap wider than its axis |
| `AlpsMultiPacket.PacketTells` | drivers/input/mouse/alps.c:726-802 | multi_packet is set exactly while the last touchpad packet announced a bitmap, and multi_data is that packet |
| `AlpsMultiPacket.ReportsPairPackets` | drivers/input/mouse/alps.c:726-802 | Over every run each report is made of one position packet, or of a position packet and the bitmap right after it; a bitmap alone is never reported |
| `AlpsMultiPacket.SecondTouchIsOnPad` | drivers/input/mouse/alps.c:726-802 | Every two-finger report puts the second touch on the pad |
| `AlpsMultiPacket.TrackstickIsTransparent` | drivers/input/mouse/alps.c:804-822 | Trackstick packets in between change nothing for the touchpad |
| `AlpsMultiPacket.PacketV4Assembles` | drivers/input/mouse/alps.c:890-937 | A V4 packet completes the bitmap exactly if it is the third in a row unbroken by a sync mark, and then the bitmap is made of those three |
| `AlpsMultiPacket.V4Assembles` | drivers/input/mouse/alps.c:890-937 | Over every run the counter stays in 0..2 and multi_data holds the bytes of that many packets in a row |
| `AlpsMultiPacket.V4SecondTouchIsOnPad` | drivers/input/mouse/alps.c:920-936 | V4 two-finger reports put the second touch on the pad, also between bitmaps |
| `AlpsContacts.CornerStays` | drivers/input/mouse/alps.c:475-498 | Over every V3 and V5 run the corner chosen for the second touch stays the same as long as only reports of two or more fingers come in, and a report of fewer frees it |
| `AlpsContacts.V4CornerStays` | drivers/input/mouse/alps.c:475-498 | The same for V4 |
| `AlpsContacts.V4ReportsAreTold` | drivers/input/mouse/alps.c:890-937 | Over every V4 run there is one report a packet: its own buttons and pressure, and the touches and finger count of the latest bitmap completed if that has two or more, else its own position |
| `AlpsWire.PositionRoundTrip` | drivers/input/mouse/alps.c:635-687 | Decoding what a V3 or Rushmore touchpad makes of a position gives the position, pressure, buttons and announcement back, if and only if it is not a Rushmore pressure of 0x40 or more |
| `AlpsWire.MapsRoundTrip` | drivers/input/mouse/alps.c:638-648 | Decoding a V3 bitmap packet gives its maps and finger count back, and it passes the byte machine |
| `AlpsWire.RushmoreRoundTrip` | drivers/input/mouse/alps.c:664-676 | Decoding a Rushmore bitmap packet gives its maps back, and the greater of the finger counts of its axes |
| `AlpsWire.DolphinRoundTrip` | drivers/input/mouse/alps.c:695-702 | Decoding a V5 position packet gives position, pressure, buttons and announcement back |
| `AlpsWire.ProfileRoundTrip` | drivers/input/mouse/alps.c:703-721 | Decoding a V5 profile gives both maps back, whatever number of bits each axis has |
| `AlpsWire.V4RoundTrip` | drivers/input/mouse/alps.c:914-920 | Decoding a V4 packet gives position, pressure and buttons back, whatever part of a bitmap it carries |
| `AlpsWire.V4MapsRoundTrip` | drivers/input/mouse/alps.c:902-931 | A bitmap sent in three packets is decoded to the maps, and only its first packet is marked |
| `AlpsWire.TouchIsReported` | drivers/input/mouse/alps.c:726-822 | Two fingers or more on a V3 touchpad, after any run: one report of the position, a corner of the box around the bits, the finger count, buttons and pressure, unless the pressure is 0x3f, which tells nothing |
| `AlpsDriver.AlpsData.FindCorners` | drivers/input/mouse/alps.c:401-473 | The scans, the division of a single run and the two reversal loops yield the corners and the finger count |
| `AlpsDriver.FindNearest` | drivers/input/mouse/alps.c:481-492 | The loop finds the nearest corner |
| `AlpsDriver.AlpsData.ProcessBitmap` | drivers/input/mouse/alps.c:393-501 | Zero and no change if an axis is empty; else the finger count, both touches, and a corner chosen once per touch |
| `AlpsDriver.AlpsData.ReportSemiMtData` | drivers/input/mouse/alps.c:525-556 | Fewer than two fingers fall back to the single touch and free the corner |
| `AlpsDriver.AlpsData.ProcessTouchpadPacket` | drivers/input/mouse/alps.c:726-802 | The handler leaves the state, and tells the reports, of the packet-pair model |
| `AlpsDriver.AlpsData.ProcessPacketV4` | drivers/input/mouse/alps.c:890-937 | The handler leaves the state, and tells the reports, of the three-packet model, with every store inside multi_data |
| `SmbusCompanion.EffectIsSound` | drivers/input/mouse/psmouse-smbus.c:60-86 | One event leaves a record sound or ends it settled: a companion's link removed once, freed with nobody driving it |
| `SmbusCompanion.StepKeepsInv` | drivers/input/mouse/psmouse-smbus.c:60-293 | The list holds exactly the live records, every record ever made is live or freed and never both, whatever event comes |
| `SmbusCompanion.RunFreesOnce` | drivers/input/mouse/psmouse-smbus.c:60-293 | Over every run a freed record is never used, listed or freed again |
| `SmbusCompanion.SecondSideFrees` | drivers/input/mouse/psmouse-smbus.c:60-186 | The side that goes first marks the record and unlinks the devices, the side that goes second frees it, and no other record changes |
| `SmbusCompanion.EitherOrder` | drivers/input/mouse/psmouse-smbus.c:60-186 | PS/2 disconnect and client removal in either order leave the same records |
| `SmbusCompanion.InitLeavesBreadcrumb` | drivers/input/mouse/psmouse-smbus.c:265-293 | At the end of init a record without a companion stays if and only if there was no error and breadcrumbs were asked for; one with a companion always stays; no other record is touched |
| `SmbusCompanion.BreadcrumbsAreLeftToCleanup` | drivers/input/mouse/psmouse-smbus.c:212-224 | A record without a companion is freed by cleanup of its mouse and by nothing else |
| `CompanionRuns.LinkFollowsRun` | drivers/input/mouse/psmouse-smbus.c:267-273 | Over every run: a freed record has left its link behind if and only if some init made the link after the client had gone |
| `CompanionRuns.LeftToCleanup` | drivers/input/mouse/psmouse-smbus.c:60-224 | Over every run: a companion's record is freed by the side that goes second, leaving no platform data, if and only if its mouse is not cleaned up between the two |
| `CompanionRuns.ALinkStays` | drivers/input/mouse/psmouse-smbus.c:267-273 | A run from the empty list that leaves a link behind |
| `CompanionRuns.PlatformDataStays` | drivers/input/mouse/psmouse-smbus.c:212-224 | A run from the empty list that leaves platform data behind |
| `PsmouseSmbus.WaitingAreBreadcrumbs` | drivers/input/mouse/psmouse-smbus.c:31-58 | A new adapter makes exactly the mice without a companion be probed again |
| `PsmouseSmbus.BereavedLoseTheirClient` | drivers/input/mouse/psmouse-smbus.c:70-79 | A mouse is probed again on a client's removal exactly if that client was, or was about to be, its companion |
| `PsmouseSmbus.Driver.DetachI2cClient` | drivers/input/mouse/psmouse-smbus.c:60-86 | The walk over the list, deleting as it goes, is the client-removal event, and asks for the probing again of the mice of BereavedLoseTheirClient |
| `PsmouseSmbus.Driver.Disconnect` | drivers/input/mouse/psmouse-smbus.c:166-186 | The PS/2 side's going is its event, and posts the client's removal exactly if the client is still there |
| `PsmouseSmbus.Driver.Cleanup` | drivers/input/mouse/psmouse-smbus.c:212-224 | Frees the mouse's records and no others |
| `PsmouseSmbus.Driver.InitEnd` | drivers/input/mouse/psmouse-smbus.c:265-296 | 0 exactly with a companion that now drives the mouse; otherwise the error or -EAGAIN, with a breadcrumb left if and only if there was no error and one was asked for |
| `PsmouseSmbus.Driver.CheckAdapter` | drivers/input/mouse/psmouse-smbus.c:31-58 | Rescans the waiting mice in list order |

## Left out

- Interrupts inside the hard handler and inside the fallback bank-0 read: both are single steps, so the handler's unlocked read-modify-write of ASFSLVEN against `piix4_asf_slave_arm` is not modelled below that.
- `piix4_access` and `piix4_transaction`: any result, issued only to a controller set up as a master; SMBHSTCNT and SMBHSTSTS, which they rewrite, are not modelled.
- The receive pointers ASFDATARWPTR and ASFSETDATARDPTR: a bank is read as the message it holds.
- The reception-error flush is an allowed loss, counted in the log. What firmware leaves in a flagged bank during sleep counts as forfeited from the start.
- Timing (`usleep_range`, the 20 ms and half-second timers) is a choice of the environment; `synchronize_hardirq` is implied by the handler being one step.
- `AsfEngine.Piix4Asf.AccessAsf`: promises delivery for controllers whose full flags clear when acknowledged, because with stuck flags four drains of 8 reads may fill the list; that everything is read, and in the list unless that is full, is promised in any case by Transfer.
- In `AsfFence`, suspend, resume and disable hold the ASF mutex like a worker that has collected nothing, and are not threads of their own.
- What the driver core guarantees is taken for granted: `piix4_asf_start` runs before any stop and not after one, probe and removal not between suspend and resume.
- Probing: `piix4_asf_detect`, ACPI, PCI and DMI matching, module parameters, logging.
- `resync_time` of the psmouse core, which ALPS devices set to 0, the resync worker, `psmouse_pre_receive_byte` with its bus errors and out-of-band bytes: the worker's state changes are `NewState` events.
- Late registration of the device that reports bare PS/2 packets: a report is the call of `alps_report_bare_ps2_packet`.
- The decoders of the V1/V2, V6, V7 and SS4 packets, buttons beyond the bits of their byte, and trackstick motion: bit slicing without state.
- Integer width of the bitmap geometry: coordinates are unbounded, which for the at most 23 bits and 15-bit coordinates of these pads changes nothing. An axis of fewer than two bits, which would divide by zero, is a precondition.
- `AlpsBitmap.SecondIsOpposite`: asks for coordinates below 0x8000, as all these pads have; beyond, a distance may reach the initial 0x7fffffff.
- Allocation failures in the companion driver, and the race between adapter removal and scheduled client removal that its comment admits: client ids are unique and each client is removed once.
- `i2c_for_each_dev` and the functionality checks: which adapter accepts a companion, if any, is a choice of the environment.
- `drivers/i2c/busses/i2c-piix4.c` and `research/ref`, which are unpatched copies, and the other PS/2 protocol drivers.
