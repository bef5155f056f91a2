# Verified model of the device's vendor services

A Dafny model of the parts of a phone's vendor tree that carry an algorithm or a protocol of their
own, with proofs of what they guarantee. `dafny verify dfyconfig.toml` checks all of it.

| file | models |
|---|---|
| `Crc.dfy`, `CrcProperties.dfy` | `Generate_CRC` of the audio configuration converter, on 32-bit words as bit sequences |
| `Converter.dfy` | `convertto24bit` and `convertto16bit`, in place on an `array<int32>` |
| `HeaderText.dfy` | the text form of the arrays: the writing and reading loops |
| `Gadget.dfy`, `GadgetSafety.dfy`, `GadgetTheorems.dfy` | the USB gadget service: request thread and monitor thread, and its guarantees |
| `GadgetRuns.dfy`, `GadgetFlag.dfy`, `GadgetLinks.dfy`, `GadgetProgress.dfy` | the same service: what depends on a monitor left over from an earlier request, and when a request comes to its end |
| `GadgetPlans.dfy`, `GadgetAnswers.dfy`, `GadgetMonitor.dfy` | the same service: the links a request needs, what it is answered, and what its monitor has seen when it writes the UDC |
| `TypeC.dfy` | the Type-C port directory scan and the uevent message scan |
| `RoleSwitch.dfy` | the Type-C role switch: switching thread and event thread |
| `Tar.dfy` | the dumpstate archive writer, and a reader of the format |
| `LogStaging.dfy` | newest-N log selection and chunked copying |
| `Recharging.dfy` | the battery level remapping state machine |
| `LearnedCapacity.dfy` | backup and restore of the learned battery capacity |
| `Common.dfy` | option type, bytes, the read size, histories of events |

## How it is modelled

Code that computes is a method proved against a function on values; the properties are lemmas
about the function. The two multi-threaded services are state machines: a step is one access to
what the threads share (a lock, a flag, a file, a condition variable), everything the kernel
decides is a parameter of the step, and a run is any sequence of enabled steps, so it covers every
interleaving and every spurious wake-up. What has happened is kept in a history (`Histories`), and
the guarantees speak of which event precedes which.

What an operation computes is stated a second time without the functions its proof uses: for the
CRC on plain numbers as section 8 of RFC 1952 has it, for a header byte by byte, for the
conversions, the battery states and the texts with the numbers and words of the source, for lists
by what a one-element list and a concatenation give.

Where the steps of the gadget service come from in `usb/gadget/UsbGadget.cpp`: `RequestStep`
669-719, `TearStep` 263-309 with `unlinkFunctions` 212-237, `SetupStep` 508-651 with `linkFunction`
320-331, `WaitStep` 652-666, `MonitorStep` 112-205. Of the role switch in `usb/usb/Usb.cpp`:
`SwitchStep` 250-320 and 347-400, `EventStep` 664-690.

## What turned out differently than one might expect

- The round trip of the two conversions depends on the CRC word: the word before it looks ahead at
  the old CRC on the way out and at the new one on the way back (`RoundTripIff`). A pair that
  already looks converted is lost (`TargetPairLost`), and so can be an opcode as the last payload
  word (`TailOpcodeLost`).
- `mCurrentUsbFunctionsApplied` follows the next request exactly if `mMonitorCreated` is false when
  it begins (`AppliedFollowsIff`). With a monitor left over from an earlier request, wherever it
  is, even a request for no functions can be answered with the flag set (`AppliedOutlivesRequest`,
  `AppliedCanOutliveFunctions`).
- The same guard, `mMonitorCreated` at the beginning of a request, decides two more things. With a
  left-over monitor the UDC can be written again after the teardown has removed the links
  (`LinksFollowIff`, `StalePullUp`). And the teardown does not notice that its write to the event
  file has failed: it then joins a monitor nobody has told to stop, and the request never gets its
  callback (`NeverHangsIff`, `CallbackIff`, `UnsignalledHangs`).
- After a timeout `switchMode` does not look at the flag again, so a partner noted between the
  timeout and the return of the lock is ignored (`TrueIffInTime`, `LatePartnerIgnored`).
- A failed role switch writes "dual" but does not look whether that succeeded; `FalseMeansDual` says
  exactly when the port is left in it.
- Plugging the charger back in while 100% is still shown stores the shown level as the target, so
  100% is kept only if the raw level is 100 as well (`ReplugKeepsHundredIff`,
  `ReplugLosesHundred`); a comment at `health/BatteryRechargingControl.cpp:157-159` says that it is
  kept.
- Copies and archives are opened without O_TRUNC: each is exact if and only if the file written
  over was not longer (`CopyExactIff`, `LongerCopyStays`, `RereadsIff`, `StaleMemberReads`).
- A comment in `PosixTarHeader` puts `version` at 259; after a six-byte magic at 257 it is at 263,
  and the model follows the layout.
- The gauge and the capacity file agree after every non-zero reading, except when the nominal
  capacity meets another, negative number in the file (`AgreeIff`, `NegativeFileDisagrees`).

## Model

| member | source | states |
|---|---|---|
| Crc.GenerateCrc | audio/convert_config_string.py:9-25 | the two nested loops return the CRC of all elements but the last: all-ones register, a word xored in and 32 shift steps per element, complement, sign fix-up |
| Crc.ShiftOut | audio/convert_config_string.py:13-14 | the inner loop makes exactly 32 steps of the register |
| Crc.PolyValue | audio/convert_config_string.py:14 | the bit pattern mixed in is the number 0xEDB88320 |
| Crc.SignedPattern | audio/convert_config_string.py:16-20 | the sign fix-up gives the int32 whose two's complement pattern is the register, and is undone by masking with 0xffffffff |
| Crc.ElementRoundTrip | audio/convert_config_string.py:12-20 | array elements and 32-bit register values determine each other |
| Crc.StepLinear | audio/convert_config_string.py:14 | a shift step is linear over exclusive-or |
| Crc.StepInjective | audio/convert_config_string.py:14 | two registers that agree after a shift step agreed before it |
| CrcProperties.CycleIsFeed | audio/convert_config_string.py:12-14 | xoring in a word and shifting 32 times is feeding its bits one at a time, least significant first |
| CrcProperties.StepsByTable | audio/convert_config_string.py:13-14 | eight steps are one lookup of the low octet and a shift, the byte-wise form of section 8 of RFC 1952 |
| CrcProperties.FillValue | audio/convert_config_string.py:10 | the register starts as 0xFFFFFFFF, and is complemented with the same number |
| CrcProperties.StepValue | audio/convert_config_string.py:14 | a shift step in numbers: halve, and exclusive-or 0xEDB88320 if the number was odd |
| CrcProperties.LittleEndianValue | audio/convert_config_string.py:198 | the four bytes of an element, lowest first, have the value of its bit pattern |
| CrcProperties.CrcIsRfc1952 | audio/convert_config_string.py:9-25 | for every non-empty array the word-at-a-time CRC, modulo 2^32, is the table-driven byte-at-a-time CRC-32 of section 8 of RFC 1952, defined on numbers only, over the little-endian bytes of all words but the last |
| CrcProperties.BurstDetected | audio/convert_config_string.py:10-16 | arrays whose payloads differ, and only within 32 consecutive bits of the bit stream, have different CRCs |
| CrcProperties.ResidueIffCrc | audio/convert_config_string.py:9-25 | an array ends in its own CRC if and only if the register run over all of it ends in one fixed word |
| CrcProperties.CrcOnto | audio/convert_config_string.py:10-25 | whatever the other words are, every int32 is the CRC for some choice of any one payload word |
| CrcProperties.WordUnique | audio/convert_config_string.py:10-25 | and for no more than one choice |
| Converter.ConvertTo24Bit | audio/convert_config_string.py:28-70 | for every array, the return value or index error, and the whole array afterwards, partly marked when the conversion is refused half-way; also word by word in the source's numbers |
| Converter.RewriteOpcodesTo24 | audio/convert_config_string.py:52-66 | the in-place loop with lookahead makes 17 before an original 0..3 a 53, 16 before an original 4 or 5 a 52, and touches nothing else |
| Converter.ConvertTo16Bit | audio/convert_config_string.py:82-124 | the same as ConvertTo24Bit, in the other direction |
| Converter.RewriteOpcodesTo16 | audio/convert_config_string.py:106-120 | 53 before an original 0..3 becomes 17, 52 before an original 4 or 5 becomes 16, nothing else |
| Converter.To24Gives | audio/convert_config_string.py:28-70 | outcome and array of the conversion to 24 bit for every array, number by number: formats 2 to 4 at 14, 16, 18 and 20, opcodes, CRC, and what a refusal leaves |
| Converter.To16Gives | audio/convert_config_string.py:82-124 | the same for the conversion to 16 bit |
| Converter.ConversionEffect | audio/convert_config_string.py:40-70 | a completed conversion changes only the words 14, 16, 18, 20, matching opcodes from 21 on and the last word; the result ends in its own CRC and leaves the residue in the register |
| Converter.OpcodeReturns | audio/convert_config_string.py:106-120 | an opcode comes back from the other width if and only if it was rewritten with an operand on both ways, or met no operand of the way back |
| Converter.RoundTripIff | audio/convert_config_string.py:28-124 | converting to the other width and back restores the whole array if and only if it ended in its CRC, held no target pair, and its last payload word survives the two CRC words it looks ahead at, its own and that of the rewritten words |
| Converter.RoundTrip | audio/convert_config_string.py:28-124 | it does so, with return value 1, whenever the array ends in its CRC, holds no target pair and its last payload word is no opcode |
| Converter.RoundTripShort | audio/convert_config_string.py:28-124 | with 21 words, where the last format word is the CRC word, the way back goes through and restores the array if and only if the new CRC is the new format word and the old word was the CRC |
| Converter.TargetPairLost | audio/convert_config_string.py:107-115 | an array with a valid CRC and a target pair at 21 that does not come back |
| Converter.TailOpcodeLost | audio/convert_config_string.py:52-69 | an array with a valid CRC and no target pair, whose last payload word is an opcode, that does not come back |
| HeaderText.DecimalRoundTrip | audio/convert_config_string.py:228-229 | `int` undoes `str` for every integer |
| HeaderText.DecimalIs | audio/convert_config_string.py:265 | a minus sign for negative numbers, one digit for each power of ten |
| HeaderText.ParsesSign | audio/convert_config_string.py:228 | `int` takes one sign before the digits |
| HeaderText.ParsesUnderscore | audio/convert_config_string.py:228 | it takes single underscores between digits, and none at either end |
| HeaderText.WriteNumbers | audio/convert_config_string.py:264-267 | the loop appends all numbers, separated by a comma and a space |
| HeaderText.WriteSection | audio/convert_config_string.py:261-267 | one `#define` section, or nothing for an empty array |
| HeaderText.WriteHeader | audio/convert_config_string.py:261-275 | the whole text |
| HeaderText.JoinTogether | audio/convert_config_string.py:264-267 | a comma and a blank between any two numbers, nothing else |
| HeaderText.SectionIsText | audio/convert_config_string.py:261-275 | the text of the RX and of the TX section, letter by letter |
| HeaderText.AppendNumbers | audio/convert_config_string.py:227-229 | the append loop: numbers with their last character stripped, the last taken whole, the first failure reported |
| HeaderText.NumbersRead | audio/convert_config_string.py:227-229 | the tokens are read up to the first that is no number or outside 32 bits, which decides the failure; otherwise all their numbers are appended in order |
| HeaderText.LineIs | audio/convert_config_string.py:225-234 | lines with the words CSPL_CONFIG_RX and CSPL_CONFIG_TX go to the one and to the other array, any other line is passed over |
| HeaderText.LineFails | audio/convert_config_string.py:225-234 | which failure ends the reading at a line |
| HeaderText.SplitAt | audio/convert_config_string.py:224 | splitting at a blank of ASCII splits what is before it and what is after it |
| HeaderText.ReadHeader | audio/convert_config_string.py:222-237 | the line loop over any text: both arrays, or the error Python would raise |
| HeaderText.SplitJoin | audio/convert_config_string.py:224 | whitespace splitting of a number list gives its numbers, all but the last with a comma |
| HeaderText.HeaderRoundTrip | audio/convert_config_string.py:222-275 | for all arrays, reading the written text gives back exactly the RX and the TX array |
| GadgetSafety.InvKept | usb/gadget/UsbGadget.cpp:112-719 | every step of either thread keeps the invariant of the service |
| GadgetSafety.Reached | usb/gadget/UsbGadget.cpp:112-719 | the invariant holds after every run |
| GadgetTheorems.CallbackMeansPullUp | usb/gadget/UsbGadget.cpp:652-664 | an FFS request is answered with SUCCESS if and only if the monitor it created itself has recorded a pull-up before, and that monitor has then written the UDC |
| GadgetTheorems.OneCallback | usb/gadget/UsbGadget.cpp:669-719 | at every moment, each finished request has had exactly one callback if it asked for one, and every other request none (`GadgetProgress.CallbackIff` is the other half) |
| GadgetAnswers.CallbackCarries | usb/gadget/UsbGadget.cpp:586-719 | every callback of every request carries the status that the history before it calls for: teardown, verdict, refusals by the kernel, and the pull-up, its own or its monitor's |
| GadgetAnswers.DirectAnswerIff | usb/gadget/UsbGadget.cpp:612-618 | a request for functions without a monitor is answered with SUCCESS if and only if it has written the UDC |
| GadgetAnswers.EmptyAnswerIff | usb/gadget/UsbGadget.cpp:686-695 | a request for no functions is answered with SUCCESS if and only if its teardown succeeded |
| GadgetAnswers.FlagsStableUnderLock | usb/gadget/UsbGadget.cpp:131-136 | while the request thread holds `mLock` no step of the monitor changes the flags |
| GadgetPlans.PlanIsNeeded | usb/gadget/UsbGadget.cpp:521-609 | which link each function bit and each vendor token needs, by name, with its endpoints, and in which order |
| GadgetPlans.VendorLinksInOrder | usb/gadget/UsbGadget.cpp:576-589 | the vendor's links follow its tokens |
| GadgetPlans.NamesAt | usb/gadget/UsbGadget.cpp:320-331 | the links are numbered from 0 in the order of the plan |
| GadgetPlans.EndpointsTogether | usb/gadget/UsbGadget.cpp:537-539 | the endpoints are listed in the order of the links |
| GadgetTheorems.PullUpNotLost | usb/gadget/UsbGadget.cpp:131-136 | while a request waits, the flag says whether its own monitor has pulled up, and a pull-up has notified a sleeping waiter |
| GadgetTheorems.FailureIsLate | usb/gadget/UsbGadget.cpp:652-661 | a request about to be answered without a pull-up has waited for its whole timeout |
| GadgetTheorems.MonitorOwnsItsEndpoints | usb/gadget/UsbGadget.cpp:284-307 | at most one monitor is unjoined, `mMonitorCreated` holds exactly when one is, and it watches the endpoints of the request that created it through that request's descriptors |
| GadgetTheorems.MonitorUndisturbed | usb/gadget/UsbGadget.cpp:263-309 | endpoint list and descriptors stay the same as long as a monitor lives, through failed setups and teardowns |
| GadgetTheorems.LinksMatchRequest | usb/gadget/UsbGadget.cpp:127-651 | as long as a living monitor is the latest request's own, every UDC write, the request's or that monitor's, and every start of a monitor is over exactly the links and endpoints of that request, numbered from 0 |
| GadgetTheorems.NoForeignLinks | usb/gadget/UsbGadget.cpp:212-237 | under a living monitor, whatever requests come and fail meanwhile, every link in place is one of the request that created it |
| GadgetTheorems.PullUpsSeparated | usb/gadget/UsbGadget.cpp:161-191 | between two successful UDC writes of one monitor it found an endpoint missing |
| GadgetTheorems.PullUpDelayed | usb/gadget/UsbGadget.cpp:171-183 | whenever the monitor writes the UDC, 500 ms have passed since the disconnect it recorded |
| GadgetMonitor.PullUpAfterScan | usb/gadget/UsbGadget.cpp:161-183 | a monitor writes the UDC only after it has found all its endpoints, at least one, present one after the other, with none missing since |
| GadgetMonitor.PullUpAgainDelayed | usb/gadget/UsbGadget.cpp:170-183 | and a second time only when it has found one missing since, the first time at least 500 ms ago |
| GadgetMonitor.ScanDecides | usb/gadget/UsbGadget.cpp:127-183 | when a complete scan leads to the write, to 500 ms of sleep, or to nothing |
| GadgetFlag.AppliedFollowsIff | usb/gadget/UsbGadget.cpp:284-302 | in every reachable idle state, the applied flag will say throughout the next request, whatever it asks for, whether that request has pulled the gadget up itself, if and only if `mMonitorCreated` is false |
| GadgetFlag.NoFunctionsNoFlag | usb/gadget/UsbGadget.cpp:674-695 | if it is false, a request for no functions leaves the flag clear throughout |
| GadgetFlag.AppliedOutlivesRequest | usb/gadget/UsbGadget.cpp:127-136 | if it is true, wherever the monitor is, any request for no functions can be answered with the flag set and no monitor left |
| GadgetFlag.AppliedCanOutliveFunctions | usb/gadget/UsbGadget.cpp:674-695 | there is a run from the start that ends after a request for no functions, no monitor left, with the flag set |
| GadgetLinks.LinksFollowIff | usb/gadget/UsbGadget.cpp:281-302 | in every reachable idle state, every UDC write during the next request, whatever it asks for, will be over exactly its links, if and only if `mMonitorCreated` is false |
| GadgetLinks.PullUpWithoutLinks | usb/gadget/UsbGadget.cpp:263-284 | if it is true, wherever the monitor is, any next request can find the gadget about to be pulled up over no links at all |
| GadgetLinks.StalePullUp | usb/gadget/UsbGadget.cpp:183-281 | a run from the start in which the monitor of a first adb request is about to write the UDC after the second has removed the links |
| GadgetLinks.FailedTeardownKeeps | usb/gadget/UsbGadget.cpp:212-237 | a teardown that fails leaves exactly the links it has not removed, one that succeeds none |
| GadgetProgress.FinishesIff | usb/gadget/UsbGadget.cpp:263-719 | from every reachable state within a request that request can come to its end, without a further failure, if and only if the request thread is not joining a monitor it has failed to signal |
| GadgetProgress.CallbackIff | usb/gadget/UsbGadget.cpp:284-297 | an unfinished request with a callback can still get exactly one under that condition, and otherwise never gets it |
| GadgetProgress.NeverHangsIff | usb/gadget/UsbGadget.cpp:284-298 | in every reachable idle state, the next request cannot come to hang, whatever it asks for and whatever fails, if and only if `mMonitorCreated` is false |
| GadgetProgress.UnsignalledHangs | usb/gadget/UsbGadget.cpp:287-297 | a run from the start to a request, any one, that never finishes and never gets a callback however the run goes on |
| TypeC.GetPortNames | usb/usb/Usb.cpp:479-505 | the map holds, beside what it held, every listed link's port, connected if and only if some partner entry has it as its first token |
| TypeC.OrderIrrelevant | usb/usb/Usb.cpp:486-498 | two scans of the same entries in any order give the same map |
| TypeC.EntryIs | usb/usb/Usb.cpp:486-494 | a link speaks of a partner if and only if its name holds "-partner" |
| TypeC.FirstTokenIs | usb/usb/Usb.cpp:494 | the token is what lies between the leading dashes and the next dash |
| TypeC.PartnerMarksPort | usb/usb/Usb.cpp:488-495 | an entry "<port>-partner..." marks that port if and only if the port's name is not empty and has no dash |
| TypeC.NextRecord | usb/usb/Usb.cpp:692-693 | the pointer moves to after the next NUL and stays within the message |
| TypeC.ScanRecords | usb/usb/Usb.cpp:661-694 | the pointer scan gives the actions of the message's records in order, up to the first Type-C record |
| TypeC.HandleUevent | usb/usb/Usb.cpp:648-695 | failed and overlong receptions are discarded; any other message leads to the actions of its records, and only two terminators are written |
| TypeC.RecordsIff | usb/usb/Usb.cpp:659-694 | a message is split into exactly the non-empty, NUL-free records it spells, up to an empty one |
| TypeC.RecordIs | usb/usb/Usb.cpp:664-670 | the records that matter, letter by letter: "add", anything but line ends, "-partner"; and what begins with "DEVTYPE=typec_" |
| TypeC.ActionsTogether | usb/usb/Usb.cpp:663-690 | each record adds its action, in order, up to a Type-C record |
| TypeC.PartnerNotedIff | usb/usb/Usb.cpp:664-670 | a message notes a partner if and only if a matching record comes with no Type-C record before it |
| TypeC.PortsQueriedIff | usb/usb/Usb.cpp:670-689 | it has the ports queried if and only if it holds a Type-C record, and does nothing after that |
| RoleSwitch.InvKept | usb/usb/Usb.cpp:250-690 | every step of either thread keeps the invariant |
| RoleSwitch.TrueMeansPartner | usb/usb/Usb.cpp:281-310 | `switchMode` returns true only after a partner-added event handled since it wrote this port's mode; that write is then the last one attempted to any port, and the port holds the mode |
| RoleSwitch.TrueIffInTime | usb/usb/Usb.cpp:292-310 | it returns true if and only if there was such an event and the wait did not time out |
| RoleSwitch.FalseMeansDual | usb/usb/Usb.cpp:250-319 | when it returns false the mode had not been written or the wait had timed out, and the last write attempted to any port is that of "dual" to this one; the port holds "dual" if and only if that write succeeded, or nothing was written for the switch and it held "dual" before |
| RoleSwitch.PartnerNotMissed | usb/usb/Usb.cpp:282-305 | an event handled after the mode write has signalled the waiter, and the flag tells it so |
| RoleSwitch.WakeUpDecides | usb/usb/Usb.cpp:292-310 | what a wake-up leads to: success with a partner, a new wait of eight seconds without one, the fallback after a timeout |
| RoleSwitch.ReturnsAsStarted | usb/usb/Usb.cpp:269-320 | what a switch reports is for the port and kind of role it was started with, and a node that cannot be opened means failure |
| RoleSwitch.WritesAsStarted | usb/usb/Usb.cpp:278-287 | a mode is written only for the port a mode was asked for, and not when its node could not be opened |
| RoleSwitch.OtherRoleReported | usb/usb/Usb.cpp:369-389 | a power or data role switch reports what writing and reading back came to |
| RoleSwitch.TimeOutIsLate | usb/usb/Usb.cpp:294-301 | the wait gives up only eight seconds after it was last entered, which is not before the mode write |
| RoleSwitch.NoDualDuringSwitch | usb/usb/Usb.cpp:674-688 | the event thread writes "dual" only while no role switch is in progress |
| RoleSwitch.DualOnlyWithoutPartner | usb/usb/Usb.cpp:675-684 | it tries to write "dual" to a port only when it has just found no partner there |
| RoleSwitch.NoPartnerMeansDual | usb/usb/Usb.cpp:675-684 | and does so whenever it has |
| RoleSwitch.PartnerLeavesNode | usb/usb/Usb.cpp:682-684 | a port found with a partner is left as it is |
| RoleSwitch.EveryPortLookedAt | usb/usb/Usb.cpp:675-686 | it looks at every port of its query, in order |
| RoleSwitch.RestoresIff | usb/usb/Usb.cpp:674-675 | and at them at all if and only if no role switch is in progress |
| RoleSwitch.LatePartnerIgnored | usb/usb/Usb.cpp:299-311 | there is a run in which the partner is noted in time for the return and the switch is still reported as failed |
| Tar.OctalRoundTrip | dumpstate/DumpstateDevice.cpp:132-138 | octal fields that hold their number parse back to it |
| Tar.TarCheckSum | dumpstate/DumpstateDevice.cpp:116-127 | the field is blanked and the sum of all 512 bytes returned |
| Tar.TarHeader | dumpstate/DumpstateDevice.cpp:129-140 | the 512 bytes of the header, field by field |
| Tar.HeaderShows | dumpstate/DumpstateDevice.cpp:129-140 | each field is found where the format has it, and no later field overwrote it |
| Tar.HeaderAt | dumpstate/DumpstateDevice.cpp:129-140 | the header byte by byte: name, "0000600", size, zero time, checksum, type '0', "ustar" and version, zeros everywhere else |
| Tar.BlankedAt | dumpstate/DumpstateDevice.cpp:120-122 | the checksum is taken with eight spaces in its field |
| Tar.SumTogether | dumpstate/DumpstateDevice.cpp:123-125 | and counts every byte once |
| Tar.ChecksumVerifies | dumpstate/DumpstateDevice.cpp:116-138 | the sum is at most 130560, fits six octal digits, and equals what a verifier gets that parses the field and sums the header with the field blank |
| Tar.HeaderReads | dumpstate/DumpstateDevice.cpp:129-140 | a ustar reader accepts the header and reads back name and size |
| Tar.AppendContent | dumpstate/DumpstateDevice.cpp:185-188 | chunked copying writes the contents exactly at the end of what was written so far |
| Tar.AppendPadding | dumpstate/DumpstateDevice.cpp:190-193 | the padding loop ends and writes the zeros up to the next multiple of 512 |
| Tar.AppendMember | dumpstate/DumpstateDevice.cpp:175-194 | header, contents and padding, or nothing if the header write fails; `tarLen` is the length written and a multiple of 512 |
| Tar.CreateTarFile | dumpstate/DumpstateDevice.cpp:142-198 | the archive of the non-dot, openable files whose header write succeeds, in directory order, written over what the output file held before |
| Tar.SelectedTogether | dumpstate/DumpstateDevice.cpp:164-182 | which directory entries are archived: no name that begins with a dot, none that cannot be opened, none whose header write fails |
| Tar.ReadsOn | dumpstate/DumpstateDevice.cpp:164-195 | reading an archive and whatever follows it gives the archived files, then what follows |
| Tar.RereadsIff | dumpstate/DumpstateDevice.cpp:156-198 | reading the output file gives exactly those files if and only if it held no more than the archive before |
| Tar.ArchiveRoundTrip | dumpstate/DumpstateDevice.cpp:142-198 | from a new output file, reading gives exactly those files, names and contents, in order |
| Tar.StaleMemberReads | dumpstate/DumpstateDevice.cpp:156-198 | an archive of one file, written over with that of an empty directory, still reads as the one file |
| LogStaging.CopyFile | dumpstate/DumpstateDevice.cpp:70-94 | the chunk loop writes the source over the destination from offset 0; an unreadable source leaves all as it was |
| LogStaging.CopyExactIff | dumpstate/DumpstateDevice.cpp:80-90 | the copy equals its source if and only if the destination was not longer before |
| LogStaging.LongerCopyStays | dumpstate/DumpstateDevice.cpp:80-90 | a log copied over a longer one that starts with it leaves the longer one in place |
| LogStaging.DumpLogs | dumpstate/DumpstateDevice.cpp:200-241 | the selected logs are copied, and nothing else changes |
| LogStaging.NewestAreGreatest | dumpstate/DumpstateDevice.cpp:215-229 | exactly the quota is selected, all with the prefix, none twice, and every matching name left out comes before every selected one |
| LogStaging.SelectedIff | dumpstate/DumpstateDevice.cpp:215-229 | a log is copied if and only if it carries the prefix and fewer than `maxFileNum` that carry it come after it, or the limit is -1 |
| LogStaging.LessIs | dumpstate/DumpstateDevice.cpp:206-209 | the order of names: the first difference decides, and a name comes before its extensions |
| LogStaging.AllCopiedAt | dumpstate/DumpstateDevice.cpp:217-234 | name by name: the selected readable files were copied, the others are as before |
| LogStaging.StagedExactly | dumpstate/DumpstateDevice.cpp:200-241 | in an empty destination every selected readable log arrives unchanged, and nothing else |
| Recharging.BatteryRechargingControl.MapSysfsString | health/BatteryRechargingControl.cpp:35-41 | the first entry whose name the text starts with, or nothing |
| Recharging.BatteryRechargingControl.GetBatteryStatus | health/BatteryRechargingControl.cpp:43-61 | the status the text starts with, unknown otherwise |
| Recharging.BatteryRechargingControl.RemapSoc | health/BatteryRechargingControl.cpp:67-73 | the interpolated level, rounded |
| Recharging.BatteryRechargingControl.UpdateBatteryProperties | health/BatteryRechargingControl.cpp:75-170 | the new state and the level and status shown; an unreadable status changes nothing; the start time is set before it is used |
| Recharging.RemapBounds | health/BatteryRechargingControl.cpp:67-73 | the interpolated level lies between the raw one and 100, 100 at the start and the raw level at the end |
| Recharging.RemapRounds | health/BatteryRechargingControl.cpp:67-73 | the interpolated level is the nearest integer, halves upwards |
| Recharging.RemapGlides | health/BatteryRechargingControl.cpp:67-73 | a lower raw level and more time never raise the interpolated level, and lower it by at most the raw drop, the slide and one |
| Recharging.PollKeeps | health/BatteryRechargingControl.cpp:75-170 | in every reachable state: WAIT_EOC has target 0, OVER_LOADING a target in 1..100, the shown level lies between raw and 100, an episode is over after 900 s, and RECHARGING_CYCLE goes on showing 100 while Full, or Charging at or above the target |
| Recharging.NextState | health/BatteryRechargingControl.cpp:75-170 | each of the five states by itself: exactly when a poll leads to it, in the source's numbers and words |
| Recharging.NextFields | health/BatteryRechargingControl.cpp:75-170 | what a poll shows, and when it sets the start of a slide and the target |
| Recharging.RechargeCycle | health/BatteryRechargingControl.cpp:114-130 | the first charging poll after Full sets the target; 100 is shown through every charging run at or above it; the first poll below it starts a slide at that time, and from 900 s on the raw level is shown |
| Recharging.SlideRun | health/BatteryRechargingControl.cpp:135-163 | along any run below 100 without a charger that brings the cycle back, the shown level slides from the start of the episode until it has met the raw one |
| Recharging.RunKeeps | health/BatteryRechargingControl.cpp:75-170 | the same over all runs: every shown level lies between the raw one and 100 |
| Recharging.DischargeGlides | health/BatteryRechargingControl.cpp:75-170 | over any run that is neither Full nor Charging with the raw level not rising, the shown level never rises and each fall is at most the raw drop + (100 - raw) * gap / 900 + 1, through all states and out of the remapping |
| Recharging.ReplugKeepsHundredIff | health/BatteryRechargingControl.cpp:155-163 | after a replug at a shown 100, every charging poll at or above the raw level shows 100 if and only if the raw level is 100 |
| Recharging.ReplugLosesHundred | health/BatteryRechargingControl.cpp:155-163 | a run from the start, replugged at raw level 99, in which 99 is shown 900 s later though the charger stays on |
| LearnedCapacity.LearnedCapacityBackupRestore.UpdateAndSave | health/LearnedCapacityBackupRestore.cpp:111-128 | fields, gauge and file after reconciling |
| LearnedCapacity.LearnedCapacityBackupRestore.Restore | health/LearnedCapacityBackupRestore.cpp:31-36 | fields, gauge and file after a start, whichever reads fail |
| LearnedCapacity.LearnedCapacityBackupRestore.Backup | health/LearnedCapacityBackupRestore.cpp:38-41 | fields, gauge and file after a backup |
| LearnedCapacity.PersistedIsLearned | health/LearnedCapacityBackupRestore.cpp:31-128 | over any mix of learning, gauge resets, failed reads and reboots the file holds the most recent non-zero, non-nominal reading; before any, what it held at first; and if that was nothing, the first non-zero reading |
| LearnedCapacity.AgreeIff | health/LearnedCapacityBackupRestore.cpp:111-128 | after a backup or restart with a non-zero reading, gauge and file agree, if and only if it is not the nominal capacity meeting another, negative number in the file |
| LearnedCapacity.ReadingDecides | health/LearnedCapacityBackupRestore.cpp:111-128 | what each reading leads to: zero changes nothing, another than the nominal capacity is learned, the nominal one is replaced, learned or left |
| LearnedCapacity.UnreadableKeepsFile | health/LearnedCapacityBackupRestore.cpp:92-104 | a gauge that cannot be read leaves the file as it is |
| LearnedCapacity.NegativeFileDisagrees | health/LearnedCapacityBackupRestore.cpp:114-123 | a run on which they disagree: -1 in the file, the gauge at the nominal capacity |

## Left out

- The gadget service and the role switch are state machines on values rather than classes: their content is the interleaving of two threads, which a sequential method cannot express.
- GadgetProgress.CallbackIff: says that the callback can come, or cannot; that the scheduler gives both threads their turn, so that it does come, is not modelled.
- `setCallback` and thread creation in `Usb.cpp` (it joins its worker while holding `mLock`), port status details, and the notifications to user space.
- Power and data role switches write their node and compare what they read back; in the model that is one step with a free outcome.
- `validateAndSetVidPid` is a finite table; its verdict is a parameter of the request. The vendor functions property is read once per request.
- A monitor asked to stop may still handle events of the same `epoll_wait`; the model lets it do any number of them, and leaves out errors of `epoll_wait` itself.
- Tar.CreateTarFile: contents and padding are written completely, sizes are stable between `fstat` and `read`, and files are regular, because the code checks none of these; names under 100 bytes and sizes below 8^11 are what the fields hold.
- The archive has no end-of-archive blocks and a blank version, so nothing is claimed about other readers than one that stops at the end of the data.
- LogStaging.CopyFile: destination files can be opened and written; `scandir` order is byte order, as with `alphasort` in the C locale.
- HeaderText.ReadHeader: text after newline translation, and only ASCII digits, with the underscores between them that Python takes from 3.6 on; digits of other scripts, and the limit newer versions set on the number of digits, are not modelled.
- HeaderText.WriteHeader: the output of `header2binary`; `binary2header` writes the same for non-empty arrays and fails with an index error on empty ones.
- `main` and `usage` of the converter (their mode numbers disagree with the usage text), and the raw array files.
- Recharging.BatteryRechargingControl.RemapSoc: exact arithmetic instead of doubles, and one clock reading per poll.
- LearnedCapacity.LearnedCapacityBackupRestore.UpdateAndSave: writes succeed; a number outside 32 bits in a file is undefined in `sscanf` and not modelled.
- `Health.cpp`, the modem and `Dump*` helpers, `powerstats`, `keymaster`, kernel headers and audio tables: calls into libraries, command lists and constants.
