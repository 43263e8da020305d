# Verified model of the virtual USB host controller library

libusb_vhci lets a program play a USB host controller.  A background thread fetches reports from
the kernel (port status changes, USB request blocks, cancellations) and turns them into *works*
in an inbox; the program takes works out, processes them and finishes them, which hands URBs back
to the kernel.  This project models that engine in Dafny and proves what it keeps over all runs
and all thread interleavings.

`dafny verify dfyconfig.toml` checks the whole project.

## Modules

| module | models |
|---|---|
| `Types` | machine integers, port status words, URB headers |
| `ErrnoCodes`, `PortTriggers`, `Decode` | status/errno conversion, edge triggers, decoding of kernel reports |
| `WorkQueue`, `QueueLaws` | the queue of `hcd` as a value with its history, and what each operation keeps |
| `PortTable` | the per-port address and status table and its history |
| `Controller`, `RunLaws` | queue and table together, and theorems about every run |
| `Retries` | the retry loops of bg_work as values: shortages of memory and other threads in between |
| `LocalHcds` | the classes with mutable fields, each method proved against `Controller` |
| `Mishaps` | runs of those classes in which the code does not guard against something |
| `Consumer` | the polling loop of the C++ example on those classes |
| `Wakeup` | the two threads of the C++ example, instruction by instruction |
| `Lifecycle` | creation, join and destruction |
| `UrbObjects`, `IsoResults` | `usb::urb` with its owned arrays; isochronous results and giveback |
| `SinglePort` | the C example's own one-port address tracking |

A run is a sequence of locked sections (`Controller.Action`), in any order the locks allow.  Each
work has a serial number standing for its address.  The history records what was enqueued,
delivered, cancelled while queued, freed and given back; `delete` and usb_vhci_giveback are
entries in it.  Memory exhaustion enters the retry loops as an arbitrary list of outcomes, and the
kernel's reports are arbitrary inputs.  Each `LocalHcd` object carries the run that led to its state
(`Lawful`), so that what is proved about runs holds of objects.

## Assumptions

- A run contains no report that bg_work does not survive (see below).
- `RunLaws.FairKernel` is assumed only where it is named: an URB is cancelled at most once, and the
  kernel does not report a handle that a held work still carries.
- The consumer finishes only works it was given and has not finished yet, and nobody uses the
  controller once its destructor has started.  Callbacks do not call back into the controller.

## Where code and expectation part

- cancel_process_urb_work does not look at the cancel flag when it scans the inbox, so a second
  cancel of a queued URB gives it back again.  `RunLaws.ConservedIffCancelsFresh` is the exact
  condition for conservation and `RunLaws.CancelledTwiceGivenBackTwice` a run that violates it.
- bg_work is declared `throw()`, but an exception can leave it, which ends the program: on decoded
  isochronous packets without a buffer, on an address above 0x7f, and when there is no memory for a
  cancel work.  `Decode.DecodedTerminatesIff` and `LocalHcds.LocalHcd.BgWork` say exactly when;
  `Decode.PacketsWithoutBufferTerminate` and `Mishaps.DieOnCancel` are cases of it.
- After memory exhaustion the URB arm of bg_work allocates new buffers but does not fetch the data
  again.  `Retries.DataArrivesIffFirstPass` says when the kernel's data arrives: exactly if there
  is some and the first pass succeeds.  `Mishaps.LoseData` loses it.
- get_endpoint_number masks with 0x07 and the C example with 0x7f.  `SinglePort` proves exactly on
  which reports the two therefore part; `SinglePort.EndpointEightDiverges` is a history on which
  they do.

## Model

| member | source | states |
|---|---|---|
| `ErrnoCodes.ToErrno` | src/libusb_vhci.c:350-372 | a status comes back from its errno unchanged exactly if it is named and, outside isochronous URBs, is neither ERROR nor ALL_ISO_PACKETS_FAILED; only success becomes 0 |
| `ErrnoCodes.ErrnoComesBackIff` | src/libusb_vhci.c:374-397 | an errno comes back unchanged exactly if the library can send it; of the others ENOENT reads as a cancellation and the rest as an error |
| `ErrnoCodes.EncodingIsStable` | src/libusb_vhci.c:350-397 | encoding, decoding and encoding again gives the first encoding |
| `ErrnoCodes.FallsBackToProtocolError` | src/libusb_vhci.c:350-372 | -EPROTO stands for bit stuffing and for exactly the statuses that do not survive |
| `ErrnoCodes.ErrnoNamesStatus` | src/libusb_vhci.c:350-372 | every other errno is sent for exactly one status, with its name, and EXDEV and EINVAL only for isochronous URBs |
| `PortTriggers.Triggers` | src/work.cpp:94-107 | each flag is set exactly on its own edge between two statuses, and no other bit is |
| `PortTriggers.PortStatTriggers` | src/libusb_vhci.c:331-348 | the C helper raises the same flags on every pair of statuses |
| `Decode.DecodeUrb` | src/libusb_vhci.c:107-142 | decoded URBs carry the kernel's members for their transfer type, a bulk URB the flags under the mask, and nothing else; the actual length is the buffer length for outgoing and isochronous URBs and 0 otherwise |
| `Decode.DecodedAsksForData` | src/libusb_vhci.c:141-142 | a data fetch is asked for exactly for outgoing or isochronous data and for packets |
| `Decode.DecodedIsTakenUnchanged` | src/local_hcd.cpp:180-209 | the owning constructor takes a decoded URB unchanged, and refuses it exactly for isochronous packets without a buffer |
| `Decode.DecodedTerminatesIff` | src/local_hcd.cpp:90-228 | an exception leaves bg_work exactly for isochronous packets without a buffer, and for an address above 0x7f unless a failing data fetch drops the URB first |
| `Decode.PacketsWithoutBufferTerminate` | src/urb.cpp:55-61 | a decoded report that bg_work does not survive |
| `Types.Urb.Own` | src/urb.cpp:197-214 | the owning constructor refuses exactly unknown types, isochronous packets without a buffer length, and arrays without a length; otherwise only the packet count of other types is cleared |
| `WorkQueue.FindUrb` | src/hcd.cpp:161-172 | the scan stops at the first work with the handle, cancelled or not |
| `QueueLaws.NextTakesFirstLive` | src/hcd.cpp:123-143 | next_work frees the cancelled works at the front, hands out the first other one, and hands out nothing only if all were cancelled |
| `QueueLaws.MoreMeansNonEmpty` | src/hcd.cpp:123-143 | the result says "more" exactly if the inbox is left non-empty |
| `QueueLaws.NextKeeps` | src/hcd.cpp:123-143 | next_work keeps order, single ownership, the balance of handles and causality |
| `QueueLaws.CancelKeeps` | src/hcd.cpp:156-200 | so does cancelling, queued or in progress |
| `QueueLaws.CancelOfQueued` | src/hcd.cpp:161-198 | cancelling a queued URB sets the flag of the first work that carries it, gives back that URB as it is, and changes nothing else |
| `QueueLaws.CancelOfInProgress` | src/hcd.cpp:173-188 | cancelling an URB in progress enqueues exactly one cancel work for its port and handle, behind everything else, and gives nothing back |
| `QueueLaws.CancelOfUnknown` | src/hcd.cpp:156-200 | cancelling an URB that nobody holds does nothing |
| `QueueLaws.FinishKeeps` | src/hcd.cpp:145-154 | so does the locked part of finish_work |
| `QueueLaws.FinishOf` | src/hcd.cpp:145-154 | finishing takes exactly that work off the list and gives back its URB as it is, if it has one |
| `QueueLaws.CancelConservesIffFresh` | src/hcd.cpp:156-200 | one cancel keeps handles accepted and handles held or given back in balance exactly if the first work found was not already cancelled |
| `QueueLaws.FifoWithTombstones` | src/hcd.cpp:79-143 | delivered works followed by live inbox works are the enqueue order without exactly the works cancelled while queued |
| `QueueLaws.ListsAreDisjoint` | src/hcd.cpp:123-154 | no work is listed twice, none is on both lists, no freed work is on either |
| `QueueLaws.ConservedIffNeverDoubled` | src/hcd.cpp:123-200 | accepted handles are held or given back, equally often, exactly if no cancel hit a cancelled work |
| `QueueLaws.DestroyFreesOnce` | src/hcd.cpp:56-65 | the destructor completes the freeing of every work, once each |
| `PortTable.PortFromAddress` | src/local_hcd.cpp:81-88 | the lowest port with the address, 0 exactly if there is none |
| `PortTable.LookupInvertsIffFirst` | src/local_hcd.cpp:73-88 | a port is found by its own address exactly if no lower port shares it |
| `PortTable.AddressFromLatestDecision` | src/local_hcd.cpp:147-265 | after any history a port's address is the one given by the latest reset, connection change or routed SET_ADDRESS, 0xff before any; a reset wins over a connection change in one report |
| `PortTable.AddressesInRange` | src/local_hcd.cpp:148-265 | every address is always 0xff or at most 0x7f |
| `PortTable.AddressedIffReset` | src/local_hcd.cpp:148-157 | a port has an address exactly if it was reset successfully at or after its latest connection change |
| `PortTable.UrbOnlyAfterReset` | src/local_hcd.cpp:228-265 | an URB is routed only to such a port |
| `PortTable.DroppedIff` | src/local_hcd.cpp:216-235 | an URB is dropped exactly if its data cannot be fetched or no port has its address |
| `PortTable.AcceptedIsAnswered` | src/local_hcd.cpp:250-266 | the enqueued URB is what the kernel sent, except that SET_ADDRESS on endpoint 0, as the library masks it, succeeds for addresses up to 0x7f and stalls for others |
| `PortTable.AcknowledgedIffDecides` | src/local_hcd.cpp:250-266 | SET_ADDRESS is acknowledged exactly if it decides the address of its port |
| `PortTable.DistinctIffPolite` | src/local_hcd.cpp:147-265 | one report keeps live addresses distinct exactly if it assigns an address no other port has |
| `PortTable.LookupsInvertIffPolite` | src/local_hcd.cpp:73-88 | lookups by address and by port are inverse all along a history exactly if every report in it was polite in that sense |
| `PortTable.FailedPassCostsData` | src/local_hcd.cpp:165-277 | a pass that runs out of memory costs the fetched data and nothing else: the next one has the same route, table and header |
| `RunLaws.RunKeepsInv` | src/hcd.cpp:123-200 | the queue's invariant holds after every run of both threads |
| `RunLaws.RunTable` | src/local_hcd.cpp:147-265 | the table after a run is the one the reports alone build |
| `RunLaws.UrbWorkOnlyAfterReset` | src/local_hcd.cpp:228-278 | in every run an URB work is enqueued only for a port reset at or after its latest connection change |
| `RunLaws.EnqueuesOrDrops` | src/local_hcd.cpp:105-278 | a status report or URB enqueues a work exactly if it concerns a port, and otherwise does nothing at all |
| `RunLaws.UrbWorksAreRoutedUrbs` | src/local_hcd.cpp:228-278 | over every run the URB works are, in order, the URBs that the reports route to a port, each answered as it must be; none is missing or made up |
| `RunLaws.CancelWorksAreCancelsInProgress` | src/local_hcd.cpp:288-302 | over every run the cancel works are, in order, exactly the cancellations that met an URB in progress and none in the inbox, with that URB's port |
| `RunLaws.RetryIsOnePass` | src/local_hcd.cpp:114-277 | whatever other threads do between the passes of a retry loop, cancelling included, the pass that succeeds enqueues the same job for the same port and leaves the same table as an immediate one; only the data is lost and the serial may be later |
| `RunLaws.TriggersTelescope` | src/local_hcd.cpp:130-147 | over every run a port's status works carry the edges between consecutive statuses from an all-zero start, and the table holds the last |
| `RunLaws.PowerAlternatesOverRuns` | src/work.cpp:105-106 | POWER_ON and POWER_OFF alternate beginning with POWER_ON, and the stored power bit is set exactly after an odd number |
| `RunLaws.RunDeliversInOrder` | src/hcd.cpp:79-143 | FIFO with tombstones over every run; URBs cancelled while queued are never delivered |
| `RunLaws.CancelFollowsItsUrb` | src/local_hcd.cpp:288-302 | a delivered cancel work is preceded by its URB on the same port |
| `RunLaws.NoneInProcessIsCancelled` | src/hcd.cpp:131-137 | over every run no work in processing has its cancel flag set |
| `RunLaws.RunListsDisjoint` | src/hcd.cpp:123-154 | single listing and no freed work on a list, over every run |
| `RunLaws.GivebackConserved` | src/local_hcd.cpp:305-316 | under a fair kernel accepted handles are live in the inbox, in processing or given back, equally often |
| `RunLaws.GivenBackExactlyOnce` | src/local_hcd.cpp:305-316 | a handle accepted once is given back at most once, and has been exactly if no live work carries it |
| `RunLaws.ConservedIffCancelsFresh` | src/hcd.cpp:156-200 | without assumptions: conservation after a run exactly if none of its cancels found an already cancelled work first |
| `RunLaws.CancelledTwiceGivenBackTwice` | src/hcd.cpp:161-198 | a run in which one accepted URB is given back twice |
| `LocalHcds.LocalHcd.constructor` | src/local_hcd.cpp:44-63 | a new controller has empty lists, ports without addresses, and an empty run |
| `LocalHcds.LocalHcd.OnWorkEnqueued` | src/hcd.cpp:68-76 | all callbacks are called, in order |
| `LocalHcds.LocalHcd.RemoveWorkEnqueuedCallback` | src/hcd.cpp:214-227 | the first equal callback is removed and no other |
| `LocalHcds.LocalHcd.NextWork` | src/hcd.cpp:123-143 | refines the specified next_work, result and object included, and extends the object's run |
| `LocalHcds.LocalHcd.FinishWork` | src/hcd.cpp:145-154 | gives back, unlists and frees exactly this work |
| `LocalHcds.LocalHcd.CancelingWork` | src/local_hcd.cpp:288-302 | cancelling work in progress enqueues a cancel work for its port and handle and calls back; without memory it throws and changes nothing |
| `LocalHcds.LocalHcd.CancelProcessUrbWork` | src/hcd.cpp:156-200 | refines the specified cancellation of both kinds and extends the object's run, or throws exactly if the handle is only in processing and there is no memory |
| `LocalHcds.LocalHcd.FindOwnAddress` | src/local_hcd.cpp:73-88 | looking up a port's address and then the port of that address leads back exactly if the address is live and no lower port has it |
| `LocalHcds.LocalHcd.FindPort` | src/local_hcd.cpp:81-88 | the eight-bit loop finds the lowest port for up to 255 ports without overflow and refuses addresses above 0x7f |
| `LocalHcds.LocalHcd.TryPortStat` | src/local_hcd.cpp:130-160 | a pass that runs out of memory changes nothing, another has the specified effect |
| `Retries.GivesUpIffStopped` | src/local_hcd.cpp:114-128 | a retry loop gives up exactly if shutdown ends one of its passes and none before it succeeds |
| `Retries.PausesFollowFailures` | src/local_hcd.cpp:114-145 | other threads get their turns after exactly the passes that fail |
| `Retries.OthersAct` | src/local_hcd.cpp:114-145 | what other threads do meanwhile is a sequence of polls, finishes, answers and cancellations of the controller |
| `LocalHcds.LocalHcd.LetOthers` | src/local_hcd.cpp:114-145 | while the lock is free the object undergoes exactly the polls, finishes, answers and cancellations that other threads ask for |
| `LocalHcds.LocalHcd.BgPortStat` | src/local_hcd.cpp:105-161 | however often memory runs out and whatever other threads do meanwhile, the effect is that of one pass on the state they leave, or none after shutdown |
| `LocalHcds.LocalHcd.TryUrb` | src/local_hcd.cpp:235-278 | SET_ADDRESS is answered and takes effect with the enqueued work, and is rolled back with it |
| `Retries.UrbCourseIs` | src/local_hcd.cpp:162-280 | however many passes it takes, the URB arm quits before the first one, dies, drops the URB or gives up exactly as the first pass and the shortages say |
| `Retries.DataArrivesIffFirstPass` | src/local_hcd.cpp:218-228 | the enqueued URB carries the kernel's data exactly if there is some and the first pass succeeds |
| `LocalHcds.LocalHcd.BgProcessUrb` | src/local_hcd.cpp:162-280 | however often memory runs out and whatever other threads do meanwhile, the effect is that of one pass on the state they leave, or none after shutdown, with the fetched data exactly if the first pass succeeds |
| `LocalHcds.LocalHcd.BgWork` | src/local_hcd.cpp:90-285 | a report has the effect specified for the whole controller on the state other threads leave, and is told to the callbacks if it enqueued a work; the program dies exactly on the reports that `Terminates` names and on cancelling work in progress without memory; the object's run grows accordingly |
| `Mishaps.LoseData` | src/local_hcd.cpp:162-277 | any decoded bulk URB with outgoing data can be enqueued without the data although it was fetched |
| `Mishaps.DieOnCancel` | src/local_hcd.cpp:288-302 | cancelling an URB that the consumer has ends the program if there is no memory for the cancel work |
| `LocalHcds.LocalHcd.Destruct` | src/hcd.cpp:56-65 | both lists are deleted front to back, and with that every work ever enqueued has been freed exactly once |
| `Consumer.RoundShape` | examples/virtual_device.cpp:230-295 | one round frees the cancelled works at the front, answers and frees the first live one, and leaves other works in processing alone |
| `Consumer.RoundDrains` | examples/virtual_device.cpp:215-295 | wherever draining is interrupted after a round, the rest of it comes to the same end |
| `Consumer.DrainedSettles` | examples/virtual_device.cpp:215-295 | from an empty processing list, draining leaves everything accepted given back and everything enqueued freed once |
| `Consumer.Drain` | examples/virtual_device.cpp:215-295 | polling until "no more" terminates with an empty inbox; exactly the live works were delivered and their URBs given back as answered, in order, and all works freed in order |
| `Consumer.LawfulMeansInv` | src/hcd.cpp:123-200 | an object that was only used through its methods keeps order, single ownership, balance and causality |
| `Consumer.LawfulConserves` | src/local_hcd.cpp:305-316 | and if the kernel was fair to it, handles accepted are held or given back, exactly as often |
| `Consumer.Burst` | src/hcd.cpp:115-121 | the background thread handles the reports it gets, all of them in order, unless it dies on one, and then those before it |
| `Consumer.PlainReportsAreSeen` | src/local_hcd.cpp:90-285 | reports that meet no shortage of memory are handled just as they come |
| `Consumer.Session` | examples/virtual_device.cpp:203-297 | from construction, for any bursts of reports with any memory shortages, each followed by a turn of the consumer: the reports of the object's run are those of the session in order; unless the program died, which harmless reports rule out, everything accepted was given back, exactly as often as accepted under a fair kernel, and every work freed once |
| `Wakeup.NoLostWakeup` | examples/virtual_device.cpp:113-230 | under every interleaving a consumer blocked and not signalled, with no callback pending, faces an empty inbox |
| `Wakeup.StuckMeansQuiet` | examples/virtual_device.cpp:113-295 | the two locks never deadlock: when no thread can go on, no work is queued, in processing or unfreed |
| `Wakeup.InstructionsAreBounded` | examples/virtual_device.cpp:215-295 | under any schedule the instructions of both threads are bounded by what there is to do plus a fixed amount for each report, memory shortage and spurious wakeup that comes in |
| `Wakeup.DrainCompletes` | examples/virtual_device.cpp:215-295 | without new reports that bound holds however wakeups and answers come, and where the threads come to rest, everything accepted was given back and everything enqueued was freed once |
| `Wakeup.RestGivesBackExactly` | examples/virtual_device.cpp:215-295 | at rest under a fair kernel every handle was given back exactly as often as it was accepted |
| `Wakeup.InterleavingIsRun` | src/local_hcd.cpp:130-280 | every interleaving performs a run of the controller, so the theorems about runs apply |
| `Wakeup.ReportsAreHandled` | src/local_hcd.cpp:90-280 | under every interleaving the reports of that run are, in order, those that arrived and were not given up, up to one still under way; a memory shortage can cost their data |
| `Wakeup.AnswerReachesWork` | examples/virtual_device.cpp:279-283 | what the consumer answers is what its work then carries |
| `Lifecycle.AtMostOneThread` | src/hcd.cpp:84-121 | at most one background thread exists, the one bg_thread names, and none after destruction |
| `Lifecycle.DestructionFreesEveryWorkOnce` | src/hcd.cpp:56-65 | from construction to destruction each enqueued work is freed exactly once |
| `Lifecycle.LifeIsRun` | src/hcd.cpp:115-121 | while it lives the controller is where exactly the reports its threads came back with and the consumer's actions lead |
| `Lifecycle.InitCreatesIffNone` | src/hcd.cpp:84-103 | a thread is created exactly if there is none, and the field then names it |
| `Lifecycle.JoinBeginRaisesFlag` | src/hcd.cpp:105-113 | joining raises the flag and waits if there is a thread, and returns at once otherwise |
| `Lifecycle.ThreadsStay` | src/hcd.cpp:115-121 | without shutdown every thread stays, alternating between its test and bg_work |
| `Lifecycle.JoinEnds` | src/hcd.cpp:105-121 | while a join waits the thread can always take its next step, at most two of them remain, and then the join can return |
| `Lifecycle.JoinAllowsInit` | src/hcd.cpp:105-113 | a finished join leaves things as if there had been no thread |
| `Lifecycle.DestructionGoesOn` | src/hcd.cpp:56-65 | destruction never gets stuck before the works are freed |
| `SinglePort.StepAgreesIffNotDiverging` | examples/virtual_device2.c:232-322 | on one report the example and the one-port library stay together exactly if it does not diverge |
| `SinglePort.AgreeIffNeverDiverging` | examples/virtual_device2.c:232-322 | they agree all along a history exactly if no report in it diverges, and then take on the same URBs |
| `SinglePort.LowEndpointsNeverDiverge` | src/libusb_vhci.h:265 | with endpoint numbers below 8 nothing diverges |
| `SinglePort.EndpointEightDiverges` | examples/virtual_device2.c:313 | after a reset, a decoded control URB on endpoint 8 leaves the library with a new address and the example with 0 |
| `SinglePort.Serve` | examples/virtual_device2.c:203-342 | the example's loop computes that address, status and list of URBs |
| `UrbObjects.UrbObject.Cpy` | src/urb.cpp:41-53 | new arrays with equal contents |
| `UrbObjects.UrbObject.Copy` | src/urb.cpp:73-78 | a copy shows the same value and shares no array |
| `UrbObjects.UrbObject.Own` | src/urb.cpp:197-214 | takes over any arrays as they are or refuses; the URB is well-formed exactly if they have the lengths in its header |
| `UrbObjects.UrbObject.FreeArrays` | src/urb.cpp:216-222 | the destructor frees the owned arrays, each of them alive |
| `UrbObjects.UrbObject.Assign` | src/urb.cpp:224-235 | assignment frees exactly the old arrays and shows the other URB's value on new ones |
| `UrbObjects.ApplyReads` | src/urb.cpp:41-235 | what a program of copies, assignments and writes can read after each step, value by value |
| `UrbObjects.RunProgram` | src/urb.cpp:41-235 | any program of copies, assignments, buffer writes and status changes shows what it would on plain values, with no array shared, and every array ever allocated owned or freed once |
| `UrbObjects.DestroyAll` | src/urb.cpp:216-222 | after destroying all URBs every array ever allocated has been freed exactly once |
| `IsoResults.SetIsoResults` | src/urb.cpp:237-260 | refuses other transfer types and sets error count, status and actual length otherwise |
| `IsoResults.Pack` | src/libusb_vhci.c:185-209 | the packing loop reports the URB's encoded value |
| `IsoResults.KernelReads` | src/libusb_vhci.c:185-209 | the kernel reads the URB's own handle and status, its data exactly for URBs with the IN bit and a positive actual length, and one report per packet of isochronous URBs with that packet's actual length and status |
| `IsoResults.OnlyResultsChange` | src/urb.cpp:237-260 | set_iso_results writes error count and status, for IN URBs the actual length, and nothing else |
| `IsoResults.IsoResultsSurviveEncoding` | src/urb.cpp:237-260 | the kernel reads as many errors as failed packets, -EINVAL exactly if none succeeded (also for no packets) and 0 otherwise, and for IN the full length |

## Left out

- ioctl transport, usb_vhci_open and usb_vhci_close, and errno plumbing: fetched reports are inputs and giveback is a history entry.
- usb_vhci_port_* and local_hcd::port_*: validation around the kernel driver, with no state of their own.
- linux/usb-vhci.h is not part of this model: URB types are named constructors and its flag bits named constants.
- `LocalHcds.LocalHcd.BgProcessUrb`: buffer contents are reduced to whether the kernel's data is in them; of waiting for buffer memory only the exit on shutdown is modelled, and sleeping and memory leaked on early exits are not.
- `LocalHcds.LocalHcd.constructor`: refusing zero ports is a precondition, and opening the device is an input that succeeded.
- `Consumer.Drain`: descriptor handling, console output and the reactions to port triggers are replaced by an arbitrary function from URB to answered URB that keeps the handle.
- `Consumer.Session`: within a burst no other thread acts between the passes of a retry loop, so that the consumer's turn starts with empty hands.
- `UrbObjects.UrbObject.Assign`: self-assignment, which frees its own source, is excluded.
- `SinglePort.Serve`: a failed data fetch, the refusal of other port numbers and process_urb are left out.
- The twenty-argument constructor of usb::urb: its ownership flags choose, array by array, between the adopting of `UrbObjects.UrbObject.Own` and the copying of `UrbObjects.UrbObject.Cpy`.
- usb_vhci_fetch_data's packet loop: it writes packet offsets and lengths, which no modelled decision reads.
- port_stat's setters, URB getters and callback registration other than what the above needs.
