# A verified model of the NFC native layer

The native layer under `nci/jni` and `nxp/jni` connects the Java NFC service to a stack that answers by
callbacks. This project models its parts with the most state and proves, for all inputs, all runs or all
interleavings, what they keep and promise. Where the code does not keep a promise in general, a lemma
gives the state or input that breaks it, beside the exact condition under which it is kept.

## What is modelled

The **LLCP connection manager** (`PeerToPeer`, `P2pServer`, `P2pClient`, `NfaConn`) is modelled in layers.

- `P2pTables`, `P2pCalls`: the two fixed tables (10 clients; 10 servers with 5 connections each) as values, and
  each mutex section, stack event and whole call as a function on them.
- `P2pManager`: the same in place, as classes with arrays. Every scan is a loop, every operation a method
  proved to change the tables as the functions say.
- `P2pMap`: while no two objects share a JNI handle, the first-match scans are the operations of a map.
- `P2pRuns`: all interleavings of mutex sections and callbacks. A callback finds a block under the lock
  and writes to it later, after anything may have happened to the block. Back to back the halves are the events
  of `P2pCalls`.
- `P2pRefines`: every step of these interleavings as a step on two maps, of connections by JNI handle and of server
  handles by name.
- `P2pBalance`: whole calls made one at a time, with their roll-backs and with stack events between them.
- `P2pRegistration`: anonymous client registration, with clients created between the events.
- `LockOrder`: which locks each call and callback takes, as code skeletons with loops and free choices, run by any
  number of threads: no circle of waiting threads, and always a step to take.
- `LockUse`: which events each of them waits on and notifies, and which locks it takes inside which.
- `ConnectionProtocol`: one connection between a sender, a closer, the callback thread, shutdown and the
  stack, one access at a time: no lost wake-up, and under which condition.
- `CallHistory`: what send and disconnect have done by the time they leave.
- `WakeUps`: for a waiting sender and a waiting closer, exactly which states nobody can wake them from.
- `AcceptWait`, `ReceiveWait`: the same for a waiting accept and a waiting receive, against the events that come before
  the wait.

The other cores are one module each.

- `DataQueue`: the byte queue with partial reads (`nci/jni/DataQueue.cpp`).
- `TechnologyTree`: the parallel arrays built from the discovered targets (`nxp/jni/com_android_nfc.cpp`).
- `TransactionHold`: deferred discovery requests during a payment (`nci/jni/NativeNfcManager.cpp`).
- `TransactionReplays`: exactly which of them are replayed, how often, and when a hold ends.
- `ReSelect`: deactivate and select against asynchronous callbacks, in the build without
  `NFC_NXP_NOT_OPEN_INCLUDED` (`nci/jni/NativeNfcTag.cpp`).
- `ReSelectStatus`: exactly when a connect status is lost to it.
- `PowerSwitch`: power level, controller state and modes (`nci/jni/PowerSwitch.cpp`).
- `AidBuffer`: colon-separated hexadecimal text to bytes (`nci/jni/RouteDataSet.cpp`).
- `EmptySelect`: the rewriting of an empty SELECT command (`nci/jni/SecureElement.cpp`).
- `TimeArithmetic`: elapsed times and deadlines (`NfcTag.cpp`, `SecureElement.cpp`, `NativeNfcManager.cpp`,
  `CondVar.cpp`).

## What is assumed of the stack

- A handle given out for a live object is valid and no other live object has it; a client or link handle
  may come back after its object is gone.
- One callback runs at a time. A new link is set up only after the events of the old one were delivered.
- A call on the invalid handle fails and is never answered with "congested"; "congested" is answered only for a
  live congested link.
- An accepted disconnect is followed by a DISC event, unless one is already under way.
- The invalid handle is 0xFFFF. Its definition, like those of the other stack constants named in the
  modules, is not part of the repository.

## Where promises fail

- A waiting `send` loses its wake-up exactly when its connection is out of the table and no notification is on its
  way (`SenderAsleepExactly`). It gets there if the stack refuses the closer's disconnect, because the connection
  is removed all the same, or if its server is removed.
- Switching NFC off does not notify `mDisconnectingEvent`, so a closer may wait until a new link happens to
  reach the same block; if the server is removed under it, it waits for good (`CloserAsleepExactly`).
- `accept` keeps its block when the stack refuses the acceptance, and a CONN_REQ event may go to a lower block that
  lost its link (`AcceptIs` gives the exact cases).
- `accept` waits without looking at its block: a CONN_REQ event handled between the allocation and the guard is missed
  (`MissedLinkCameEarly`), and when nobody can wake it any more is exact (`AcceptAsleepExactly`).
- `receive` tests and reads before it takes its event's guard, so it can miss data or the end of its link
  (`MissedReasonCameEarly`). A client's receive that misses the end sleeps until somebody disconnects
  (`ReceiverAsleepExactly`, `EndOfLinkMissed`).
- JNI handles repeat after 2^32 allocations, and only then (`CounterRepeats`).
- A failing `start_timer` is meant to end the transaction, but the statement is a comparison
  (`nci/jni/NativeNfcManager.cpp:3405`). So the timer keeps an old time, and that time decides whether the next
  field-on event sets the hold (`FourEventsHold`, `StaleTimerHolds`).
- A request stored between the replay thread's read and its wipe is dropped (`ReplaysLastExactly`). One stored after
  the wipe stays in the record, and the next payment's thread replays it (`LateRequestReplayedNextTime`).
- A request deferred before a payment that ends without a thread is forgotten (`EndedIsForgotten`).
- Two replay threads that read with no store in between replay one request twice (`TwiceExactly`).
- An activation under the hold leaves it on until another whole payment if no replay thread is left, and only then
  (`StepKeepsHoldEnds`, `HoldsEndExactly`, `StrandedStays`).
- A connect status written before `sConnectOk` is reset is lost, and the call fails whatever comes. At the reset it can
  still succeed exactly if it waits with no failure on the way, or a success is still to be written
  (`StatusPassesExactly`, `EarlyStatusLost`).
- A failed mode change leaves a low power that requests for full and low power never leave; a POWER_OFF request can
  still put the controller to sleep (`StuckLow`, `StuckLowUntil`).
- A shutdown during setLevel's unlocked wait, or a mode event that comes late, makes level and controller state
  disagree (`ShutdownInWindow`, `ModeEventKeepsUnless`).
- Text of colons alone needs more bytes than `AidBuffer` allocates (`FitsExactly`).
- The deadline of a timed wait may have 10^9 nanoseconds, which is not normalised (`DeadlineIsNormalUnless`).

## Model

| member | source | states |
|---|---|---|
| `LockOrder.ManagerNeverDeadlocks` | nci/jni/PeerToPeer.cpp:210-1696 | any number of threads, each making any sequence of the manager's calls and callbacks: in every reachable state nobody waits in a circle of locks, and if somebody is neither finished nor asleep then somebody can take a step |
| `LockOrder.SkeletonOrdered` | nci/jni/PeerToPeer.cpp:210-1696 | every operation and callback takes locks only upwards in the order mDisconnectMutex, PeerToPeer::mMutex, P2pServer::mMutex, events; waits holding only the event's own mutex; notifies holding it |
| `LockOrder.NoWaitCycle` | nci/jni/PeerToPeer.h:382-387 | no sequence of threads in a reachable state, each waiting for the next one's lock, returns to its start, for any code that keeps the order |
| `LockOrder.NoDeadlock` | nci/jni/PeerToPeer.h:382-387 | in a reachable state a thread that is not finished and not asleep implies a thread that can move |
| `LockOrder.HoldersRun` | nci/jni/SyncEvent.h:66-86 | a thread that holds a lock is never asleep in a condition wait |
| `LockOrder.MoverSteps` | nci/jni/PeerToPeer.h:382-387 | a thread said to be able to move does have a step of the system |
| `LockOrder.DeinitializeOrdered` | nci/jni/NativeNfcManager.cpp:1787-1796 | switching off under the event of stack shutdown still takes locks upwards |
| `LockOrder.DisconnectOrdered` | nci/jni/PeerToPeer.cpp:976-1026 | disconnectConnOriented keeps the lock order on each of its paths |
| `LockOrder.TurnOffOrdered` | nci/jni/PeerToPeer.cpp:1154-1195 | handleNfcOnOff(false), with both loops and the nested unblockAll, keeps the lock order |
| `LockUse.WaitsExactly` | nci/jni/PeerToPeer.cpp:210-1676 | each call waits on its own event and on no other, callbacks on none |
| `LockUse.EveryWaitIsNotified` | nci/jni/PeerToPeer.cpp:1213-1510 | for every event some call can wait on there is a stack callback that notifies it |
| `LockUse.RescuesExactly` | nci/jni/PeerToPeer.cpp:976-1183 | calls and shutdown notify events too: exactly those of congestion, data, connecting and connection requests, so a waiter on any other event depends on its callback |
| `LockUse.TurnOffNotifies` | nci/jni/PeerToPeer.cpp:1154-1195 | switching off notifies exactly the connecting, congestion and data events of every client and the congestion and data events of every server's connections |
| `LockUse.NestsExactly` | nci/jni/PeerToPeer.h:382-387 | over all operations, one lock is taken directly inside another exactly in the cases listed in Nests |
| `LockUse.TakesExactly` | nci/jni/PeerToPeer.cpp:210-1510 | which mutexes each operation may take: the manager's for all that touch the tables, mDisconnectMutex for closing and DISC events alone |
| `ConnectionProtocol.NoLostWakeUpInTable` | nci/jni/PeerToPeer.cpp:887-901 | in every run whatever of one sender, one closer, callback, shutdown and stack, a sender blocked on mCongEvent has a live congested link or a notification still to come, or its connection is out of the table |
| `ConnectionProtocol.NoLostWakeUpInSend` | nci/jni/PeerToPeer.cpp:887-901 | in every run in which no live connection is taken out of the table, the first two cases are all there are |
| `CallHistory.SendLeaves` | nci/jni/PeerToPeer.cpp:887-910 | in every run, a send that leaves has asked the stack; it reports success exactly if the last answer was acceptance, and the data was then accepted once, else never; after a CONGESTED answer it leaves only if it waited and then saw the handle invalid |
| `CallHistory.SendCallsWhen` | nci/jni/PeerToPeer.cpp:887-894 | in every run, the stack is called only while the data was not accepted: first, or after a CONGESTED answer, a wait, and a test that found the handle valid |
| `CallHistory.WokenCallsAgain` | nci/jni/PeerToPeer.cpp:887-901 | a woken sender whose handle stays valid calls the stack again with a valid handle, after exactly four steps of its own, and cannot leave before |
| `CallHistory.CongestEventWakes` | nci/jni/PeerToPeer.cpp:1334-1348 | a CONGEST event wakes a waiting sender exactly if it finds the connection and tells that congestion is over, or, for a client, in either case |
| `WakeUps.SenderAsleepExactly` | nci/jni/PeerToPeer.cpp:887-901 | in every reachable state with a waiting sender: no continuation of any kind has anybody wake it exactly if the connection is out of the table and nobody is on the way to notify |
| `WakeUps.SenderCanBeWoken` | nci/jni/PeerToPeer.cpp:1154-1183 | from every other such state some continuation has somebody wake it |
| `WakeUps.RemovalAbandons` | nci/jni/PeerToPeer.cpp:576-607 | a step that takes a live connection out of the table, with nobody about to notify, leaves its waiting sender asleep for good |
| `WakeUps.AbandonedForGood` | nci/jni/PeerToPeer.cpp:1285-1350 | a sender so left waits at the end of every continuation |
| `ConnectionProtocol.NoLostWakeUpInDisconnect` | nci/jni/PeerToPeer.cpp:1008-1017 | in every run in which no shutdown takes the handle between the closer's reading it and its wake-up, and the connection is not removed under the closer: a closer blocked on mDisconnectingEvent has its DISC event queued or in a handler that has not notified it, and the event finds the connection |
| `CallHistory.DisconnectLeaves` | nci/jni/PeerToPeer.cpp:999-1026 | in every run, a closer comes to the removal having asked the stack exactly if it saw a valid handle, and having waited if the stack accepted; once its call is over it has taken the connection out |
| `WakeUps.CloserAsleepExactly` | nci/jni/PeerToPeer.cpp:1008-1017 | in every reachable state with a waiting closer: no continuation has anybody wake it exactly if no DISC handler has found the connection and it is out of the table; without a new link to the block, exactly if no handler has found it and no DISC event would |
| `WakeUps.CloserCanBeWoken` | nci/jni/PeerToPeer.cpp:1285-1307 | where a DISC event would find the connection, some continuation without a new link has its handler wake the closer |
| `WakeUps.NewLinkCanWake` | nci/jni/PeerToPeer.cpp:1250-1278 | where the block is in the table, some continuation wakes it, by the DISC event of a new link if need be |
| `WakeUps.LossForsakes` | nci/jni/PeerToPeer.cpp:1175-1183 | each excluded step, met by a waiting closer with no handler at work, leaves it asleep: shutdown until a new link comes to the block, removal for good |
| `ConnectionProtocol.RemovalWaitsForHandler` | nci/jni/PeerToPeer.cpp:1020-1022 | in every run the closer never removes the connection while a DISC handler is between invalidating the handle and its last notification |
| `ConnectionProtocol.StepKeepsSafe` | nci/jni/PeerToPeer.cpp:1295-1307 | every step that does not take a live connection out keeps the send invariant: one holder per mutex, a DISC event for every dead link, a reason for every waiting sender |
| `ConnectionProtocol.StepKeepsSafeInTable` | nci/jni/PeerToPeer.cpp:1295-1307 | every step whatever keeps it while the connection is in the table |
| `ConnectionProtocol.StepKeepsClosing` | nci/jni/PeerToPeer.cpp:1008-1022 | every step but those that take the DISC event from the closer keeps the closer's invariant |
| `ConnectionProtocol.StepKeepsExclusive` | nci/jni/SyncEvent.h:45-120 | no step gives a mutex a second holder |
| `ConnectionProtocol.StepKeepsLinked` | nci/jni/PeerToPeer.cpp:1446-1469 | a valid handle whose link is gone always has its DISC event queued or in a handler about to invalidate it |
| `WakeUps.RefusedDisconnectLosesSender` | nci/jni/PeerToPeer.cpp:1012-1022 | a disconnect the stack refuses still removes the connection: a reachable state, without shutdown or server removal, in which the sender waits on an uncongested link and no continuation wakes it |
| `WakeUps.ServerRemovalLosesSender` | nci/jni/PeerToPeer.cpp:267-285 | removing the server while its connection's sender waits leads to such a state too |
| `WakeUps.ShutdownLosesCloser` | nci/jni/PeerToPeer.cpp:1175-1183 | a reachable state in which the closer waits for a DISC event already delivered, and only a new link to the block could wake it |
| `WakeUps.ServerRemovalLosesCloser` | nci/jni/PeerToPeer.cpp:267-285 | a reachable state in which the server was removed under the waiting closer, and no continuation wakes it |
| `P2pTables.FindConnSound` | nci/jni/PeerToPeer.cpp:792-857 | a scan finds a slot exactly when some occupied slot satisfies the test, and what it finds is one |
| `P2pTables.ServerByJni` | nci/jni/PeerToPeer.cpp:159-177 | the first server with that JNI handle, and none exactly if no server has it |
| `P2pTables.ServerByNfa` | nci/jni/PeerToPeer.cpp:132-150 | the same by stack handle |
| `P2pTables.ServerByName` | nci/jni/PeerToPeer.cpp:186-199 | the same by name |
| `P2pTables.ClientByJni` | nci/jni/PeerToPeer.cpp:748-763 | the first client whose connection has that JNI handle, and none exactly if no client's has |
| `P2pTables.ClientByNfa` | nci/jni/PeerToPeer.cpp:726-741 | the same by stack handle |
| `P2pMap.LookupIsMapLookup` | nci/jni/PeerToPeer.cpp:831-857 | with distinct JNI handles findConnection is lookup in the abstract map from handle to connection |
| `P2pMap.RemoveConnAt` | nci/jni/PeerToPeer.cpp:576-607 | removeConn empties exactly the slot that holds the handle |
| `P2pMap.RemoveConnIsDelete` | nci/jni/PeerToPeer.cpp:576-607 | removeConn deletes exactly that key of the map |
| `P2pMap.PlaceClientIsInsert` | nci/jni/PeerToPeer.cpp:525-536 | createClient's section inserts exactly one key, or nothing if the table is full |
| `P2pMap.AllocateConnIsInsert` | nci/jni/PeerToPeer.cpp:1698-1715 | allocateConnection inserts exactly one key, or nothing if the server is full |
| `P2pMap.RemoveServerIsDelete` | nci/jni/PeerToPeer.cpp:267-285 | removeServer deletes that server and the keys of its connections and nothing else |
| `P2pMap.PlaceServerIsUpsert` | nci/jni/PeerToPeer.cpp:216-247 | registerServer's section updates the map from service names to handles at that name; it refuses only a new name in a full table |
| `P2pMap.PlaceServerKeeps` | nci/jni/PeerToPeer.cpp:216-247 | registering a server changes no connection and keeps names distinct |
| `P2pRuns.ReachableInv` | nci/jni/PeerToPeer.cpp:132-285 | below 2^32 allocations, in every interleaving of sections and callback halves: all JNI handles held are pairwise distinct and below the counter, names are distinct, valid link handles are distinct, client handles are distinct and registered |
| `P2pRuns.StepKeepsInv` | nci/jni/PeerToPeer.cpp:1213-1470 | every section, every find and every delayed write of a callback keeps that invariant |
| `P2pRuns.ReachableLookup` | nci/jni/PeerToPeer.cpp:831-857 | in every reachable state the scan by JNI handle is the lookup in the abstract map |
| `P2pRefines.StepRefines` | nci/jni/PeerToPeer.cpp:132-1510 | every step of every interleaving is, on the map from JNI handles to connections, what ConnsAfter says: an insertion under a new handle, a deletion, an update of the one block found, or nothing |
| `P2pRefines.StepRefinesNames` | nci/jni/PeerToPeer.cpp:186-285 | and on the map from service names to server handles: renewal or insertion, deletion, or nothing |
| `P2pRuns.NewHandleIsUnused` | nci/jni/PeerToPeer.cpp:1544-1552 | a new JNI handle is held by nobody and was not waiting to be used |
| `P2pRuns.RegServerLands` | nci/jni/PeerToPeer.cpp:1223-1240 | a REG_SERVER event gives the handle to the one server of that name and changes nothing else |
| `P2pRuns.BindLandsExactly` | nci/jni/PeerToPeer.cpp:1250-1278 | the write of a CONN_REQ or CONNECTED event, however late, puts the handle into at most the one block found and changes no other; the block a CONN_REQ event found holds no valid handle |
| `P2pRuns.LookKeepsInv` | nci/jni/PeerToPeer.cpp:1264-1265 | between finding the server and looking for its block anything may happen, the server's removal included, and the invariant holds |
| `P2pRuns.DiscInOneGo` | nci/jni/PeerToPeer.cpp:1285-1316 | the find and the write of a DISC event, back to back, are the event of the class; it invalidates exactly the blocks with that handle |
| `P2pRuns.ConnReqInOneGo` | nci/jni/PeerToPeer.cpp:1250-1278 | so are the three steps of a CONN_REQ event |
| `P2pRuns.ConnectedInOneGo` | nci/jni/PeerToPeer.cpp:1412-1429 | so are the steps of a CONNECTED event |
| `P2pRuns.RegClientInOneGo` | nci/jni/PeerToPeer.cpp:1380-1394 | so are the steps of a REG_CLIENT event, registrations included |
| `P2pRuns.EventsInOneGo` | nci/jni/PeerToPeer.cpp:1250-1429 | as steps of the system: an event and its later steps with nothing in between leave the tables of the whole event, its link or registration recorded and the callback free |
| `P2pRuns.DiscLandsExactly` | nci/jni/PeerToPeer.cpp:1285-1316 | the write of a DISC event invalidates exactly the block that owned the handle, and afterwards nobody has it |
| `P2pRuns.DiscFindsOwner` | nci/jni/PeerToPeer.cpp:1285-1292 | a DISC event finds a block exactly when some block holds its handle, and that block is the only one |
| `P2pRuns.WriteLandsAt` | nci/jni/PeerToPeer.cpp:792-818 | a write through a found block reaches the slot that still holds it, or none if it was removed |
| `P2pRuns.CounterRepeats` | nci/jni/PeerToPeer.cpp:1544-1552 | two allocations get the same JNI handle exactly when a multiple of 2^32 allocations lies between them |
| `P2pRuns.CounterValue` | nci/jni/PeerToPeer.cpp:1544-1552 | the counter after n allocations, with its 32-bit wrap |
| `P2pRuns.NfcOffKeepsInv` | nci/jni/PeerToPeer.cpp:1154-1195 | shutdown in the middle of anything keeps the invariant |
| `P2pCalls.TurnedOffInvalidatesAll` | nci/jni/PeerToPeer.cpp:1154-1195 | shutdown leaves every connection of every client and server without a handle, and changes no occupancy, JNI handle or name |
| `P2pCalls.ServerOffOnly` | nci/jni/PeerToPeer.cpp:1678-1696 | unblockAll up to a slot invalidates just the blocks below it |
| `P2pBalance.RunsBalance` | nci/jni/PeerToPeer.cpp:516-713 | after any sequence of whole calls, with CONN_REQ, CONNECTED and DISC events anywhere between them, the client handles registered with the stack are exactly the valid ones in the table, one client each, no client is left connecting, and every server has a stack handle of its own |
| `P2pBalance.TurnOnBalances` | nci/jni/PeerToPeer.cpp:1154-1160 | the empty tables, from which every such sequence starts when NFC is switched on, are in balance |
| `P2pBalance.EventBalances` | nci/jni/PeerToPeer.cpp:1250-1316 | each of these events between calls keeps the balance |
| `P2pBalance.ServerFoundByHandle` | nci/jni/PeerToPeer.cpp:132-150 | in balance a server is found by its own stack handle |
| `P2pBalance.CreateClientBalances` | nci/jni/PeerToPeer.cpp:516-563 | a failed createClient leaves tables and registrations exactly as they were; a successful one puts into the first free slot a client with the registered handle, not connecting, without a link, with the parameters given |
| `P2pBalance.RegisterServerBalances` | nci/jni/PeerToPeer.cpp:210-254 | a failed registerServer leaves the table as it was; otherwise a known name gets the new JNI handle and keeps everything else, or a new server stands in the first free slot under its valid handle |
| `P2pBalance.ConnectBalances` | nci/jni/PeerToPeer.cpp:664-713 | connect succeeds exactly on a known client whose connection has a handle after an accepted call; a failed one on a known client frees its slot and its registration; a successful one leaves that client bound to the reported link, its other fields as they were and not connecting; on an unknown client nothing changes |
| `P2pBalance.RemoveConnBalances` | nci/jni/PeerToPeer.cpp:576-607 | removal takes a client's registration with it, and keeps the balance |
| `P2pBalance.DisconnectBalances` | nci/jni/PeerToPeer.cpp:976-1026 | between calls disconnectConnOriented takes a known connection out with its registration, whatever the stack answers, and succeeds exactly if the handle was valid and the stack accepted |
| `P2pBalance.DisconnectWhileConnecting` | nci/jni/PeerToPeer.cpp:991-997 | on a client that is connecting it changes nothing and succeeds |
| `P2pBalance.CallsTakeEffect` | nci/jni/PeerToPeer.cpp:468-500 | deregistering takes exactly the servers with that handle; switching off leaves no link; switching on leaves nothing |
| `P2pBalance.AcceptIs` | nci/jni/PeerToPeer.cpp:1628-1676 | with the event handled during the wait: accept keeps its block exactly when the CONN_REQ event reached that block; without an event the tables are unchanged; with an unlinked lower block the event binds that one and the call fails; a refused acceptance keeps the block |
| `P2pBalance.AcceptBalances` | nci/jni/PeerToPeer.cpp:1628-1676 | accept keeps the balance on each of these paths |
| `AcceptWait.AcceptAsleepExactly` | nci/jni/PeerToPeer.cpp:1634-1648 | in every reachable state with a waiting accept: nobody can wake it, short of deregistering the server or a link going down, exactly if nobody is about to notify and the server is gone or no CONN_REQ event finds a block of it, the accept's own having a link already |
| `AcceptWait.CanBeWoken` | nci/jni/PeerToPeer.cpp:1250-1278 | from every other such state some continuation wakes it |
| `AcceptWait.DeafForGood` | nci/jni/PeerToPeer.cpp:1634-1645 | a wait so left is so left after every continuation without these rescues |
| `AcceptWait.WokenLeaves` | nci/jni/PeerToPeer.cpp:1645-1655 | a woken accept does not wait again |
| `AcceptWait.MissedLinkCameEarly` | nci/jni/PeerToPeer.cpp:1634-1645 | in every run, a waiting accept whose block has a link began to wait with the link there: its event came between the allocation and the guard |
| `AcceptWait.EarlyEventMissed` | nci/jni/PeerToPeer.cpp:1634-1645 | that case happens: a run in which accept sleeps on a bound block |
| `ReceiveWait.ReceiverAsleepExactly` | nci/jni/PeerToPeer.cpp:941-959 | in every reachable state with a waiting receiver: if nobody disconnects, nobody can wake it exactly if it is a client's, its handle is gone and nobody is on the way to notify; and if nothing comes from outside either, exactly if nobody is on the way and no DATA event is due that finds the connection |
| `ReceiveWait.MissedReasonCameEarly` | nci/jni/PeerToPeer.cpp:941-959 | in every run, a receiver that waits although there is data or no handle, with nobody coming to notify it, began its wait so: the event came between its test or read and its guard |
| `ReceiveWait.CanBeWoken` | nci/jni/PeerToPeer.cpp:1318-1332 | from every other such state some continuation wakes it |
| `ReceiveWait.WokenReceives` | nci/jni/PeerToPeer.cpp:941-959 | a woken receiver with data and a handle that stays valid does not wait again, and after four own steps at most leaves with the data |
| `ReceiveWait.InvalidEnds` | nci/jni/PeerToPeer.cpp:941-963 | once woken or testing without a handle it neither reads nor waits again |
| `ReceiveWait.LeavesEmptyOnlyInvalid` | nci/jni/PeerToPeer.cpp:941-963 | in every run it leaves without data only once the handle is gone |
| `ReceiveWait.EndOfLinkMissed` | nci/jni/PeerToPeer.cpp:941-959 | that case happens: a run in which a client's receive misses the end of its link and sleeps |
| `P2pBalance.TurnOffBalances` | nci/jni/PeerToPeer.cpp:1154-1195 | shutdown keeps the balance |
| `P2pRegistration.GiveAllInOrder` | nci/jni/PeerToPeer.cpp:1380-1394 | n REG_CLIENT events over p waiting clients register exactly the first min(n, p) in slot order, each with its own event's handle; the others are unchanged and still wait |
| `P2pRegistration.RegistrationRun` | nci/jni/PeerToPeer.cpp:516-536 | for any sequence of inserts and events with fresh handles: no handle goes to two clients, each event that finds somebody waiting registers one client, each insert that finds a slot leaves one more to wait |
| `P2pRegistration.StepCounts` | nci/jni/PeerToPeer.cpp:1380-1394 | an event changes the lowest waiting slot only; the two counts after one step |
| `P2pRegistration.GiveFirst` | nci/jni/PeerToPeer.cpp:1380-1394 | one event goes to the lowest waiting slot and makes the rest wait as before |
| `P2pManager.PeerToPeer.GetNewJniHandle` | nci/jni/PeerToPeer.cpp:1544-1552 | returns the counter and advances it modulo 2^32 |
| `P2pManager.PeerToPeer.FindServerByNfa` | nci/jni/PeerToPeer.cpp:132-150 | the loop returns the first server with that stack handle |
| `P2pManager.PeerToPeer.FindServerByJni` | nci/jni/PeerToPeer.cpp:159-177 | the loop returns the first server with that JNI handle |
| `P2pManager.PeerToPeer.FindServerByName` | nci/jni/PeerToPeer.cpp:186-199 | the loop returns the first server with that name |
| `P2pManager.PeerToPeer.FindClientByNfa` | nci/jni/PeerToPeer.cpp:726-741 | the loop returns the first client with that stack handle |
| `P2pManager.PeerToPeer.FindClientByJni` | nci/jni/PeerToPeer.cpp:748-763 | the loop returns the first client whose connection has that JNI handle |
| `P2pManager.PeerToPeer.FindConnectionByJni` | nci/jni/PeerToPeer.cpp:831-857 | the nested loops return the very object the table scan finds |
| `P2pManager.PeerToPeer.FindConnectionByNfa` | nci/jni/PeerToPeer.cpp:792-818 | the same by link handle |
| `P2pManager.PeerToPeer.FindServerConnectionByJni` | nci/jni/PeerToPeer.cpp:1751-1767 | the first block of a server with that JNI handle |
| `P2pManager.PeerToPeer.FindServerConnectionByNfa` | nci/jni/PeerToPeer.cpp:1726-1742 | the first block of a server with that link handle, used with the invalid handle too |
| `P2pManager.PeerToPeer.PlaceServerSection` | nci/jni/PeerToPeer.cpp:216-247 | renews a known name or fills the first empty slot with a new server, and nothing else |
| `P2pManager.PeerToPeer.RemoveServerSection` | nci/jni/PeerToPeer.cpp:267-285 | empties the slot of the first server with that handle, and nothing else |
| `P2pManager.PeerToPeer.PlaceClientSection` | nci/jni/PeerToPeer.cpp:525-536 | fills the first empty slot with a new client of those parameters, and nothing else |
| `P2pManager.PeerToPeer.RemoveServerConnection` | nci/jni/PeerToPeer.cpp:1776-1791 | empties the first block with that handle; says whether there was one |
| `P2pManager.PeerToPeer.RemoveConnection` | nci/jni/PeerToPeer.cpp:576-607 | removes a client with its registration, or else the first server connection with that handle |
| `P2pManager.PeerToPeer.AllocateConnection` | nci/jni/PeerToPeer.cpp:1698-1715 | a new block in the first empty place of the server, or none |
| `P2pManager.PeerToPeer.DropClient` | nci/jni/PeerToPeer.cpp:582-593 | a dropped client gives its stack registration back |
| `P2pManager.PeerToPeer.RegServerEvent` | nci/jni/PeerToPeer.cpp:1223-1240 | gives the server with that name its stack handle |
| `P2pManager.PeerToPeer.RegClientEvent` | nci/jni/PeerToPeer.cpp:1380-1394 | gives the first waiting client the handle |
| `P2pManager.PeerToPeer.ConnectedEvent` | nci/jni/PeerToPeer.cpp:1412-1429 | binds the link to that client's connection |
| `P2pManager.PeerToPeer.ConnReqEvent` | nci/jni/PeerToPeer.cpp:1250-1278 | binds the link to the first block of that server without a handle |
| `P2pManager.PeerToPeer.DiscEvent` | nci/jni/PeerToPeer.cpp:1285-1316 | invalidates the block with that handle, if there is one |
| `P2pManager.PeerToPeer.RegisterServer` | nci/jni/PeerToPeer.cpp:210-254 | the whole call, with its roll-back |
| `P2pManager.PeerToPeer.CreateClient` | nci/jni/PeerToPeer.cpp:516-563 | the whole call, with its roll-back |
| `P2pManager.PeerToPeer.CreateDataLinkConn` | nci/jni/PeerToPeer.cpp:664-713 | the whole call, with its roll-back |
| `P2pManager.PeerToPeer.DisconnectConnOriented` | nci/jni/PeerToPeer.cpp:976-1026 | the whole call, with its early return for a client that is connecting |
| `P2pManager.PeerToPeer.EndAccept` | nci/jni/PeerToPeer.cpp:1650-1676 | a woken accept gives its block back exactly if it has no link |
| `P2pManager.PeerToPeer.Accept` | nci/jni/PeerToPeer.cpp:1628-1676 | the whole call |
| `P2pManager.PeerToPeer.TurnOn` | nci/jni/PeerToPeer.cpp:1154-1160 | empties both tables |
| `P2pManager.PeerToPeer.UnblockAll` | nci/jni/PeerToPeer.cpp:1678-1696 | invalidates each block of a server |
| `P2pManager.PeerToPeer.TurnOff` | nci/jni/PeerToPeer.cpp:1154-1195 | invalidates each connection, clients first |
| `DataQueue.DataQueue.Enqueue` | nci/jni/DataQueue.cpp:82-108 | refuses NULL or zero length; otherwise appends a copy of the bytes given |
| `DataQueue.DataQueue.Dequeue` | nci/jni/DataQueue.cpp:123-156 | on a non-empty queue delivers the front entry's next bytes, at most the buffer size, into the buffer and nowhere else; drops or advances that entry; offset plus length stays the entry's length |
| `DataQueue.DataQueue.IsEmpty` | nci/jni/DataQueue.cpp:62-68 | true exactly for the empty queue |
| `DataQueue.Read` | nci/jni/DataQueue.cpp:132-152 | a read delivers the front of the first entry, as much as there is and fits the buffer |
| `DataQueue.StreamConserved` | nci/jni/DataQueue.cpp:82-156 | over any run, bytes delivered followed by bytes queued are the bytes queued at first followed by all bytes accepted, in order |
| `DataQueue.NoReadCrosses` | nci/jni/DataQueue.cpp:132-152 | in any run no read has an entry boundary strictly inside it |
| `DataQueue.DrainsAfter` | nci/jni/DataQueue.cpp:132-152 | reads of size m can be made exactly as long as fewer than the sum of the entries' lengths over m, rounded up, were made; the queue is empty exactly after that many |
| `DataQueue.OneReadFewer` | nci/jni/DataQueue.cpp:132-152 | each read leaves exactly one read fewer to do |
| `DataQueue.ReadsKeepEntries` | nci/jni/DataQueue.h:96-100 | queued entries are never empty and always fit a 16-bit length |
| `TechnologyTree.AddTechIfNeeded` | nxp/jni/com_android_nfc.cpp:382-400 | appends the row to all three arrays exactly if its technology is not listed and there is room |
| `TechnologyTree.AddTarget` | nxp/jni/com_android_nfc.cpp:425-497 | one turn of the loop offers the target's technologies in order |
| `TechnologyTree.GetTechnologyTree` | nxp/jni/com_android_nfc.cpp:403-516 | for any number of targets the three arrays are aligned, duplicate-free, complete and ordered from the top target down; each number is listed exactly if some target's type and SAK call for it, with the handle and type of the last such target: 1, 2, 3, 4, 5, 8, 9 and -1 as ListedAs writes them out |
| `TechnologyTree.TreeIsOnly` | nxp/jni/com_android_nfc.cpp:408-498 | there is only one such tree of given targets |
| `TechnologyTree.TreeListsNumbers` | nxp/jni/com_android_nfc.cpp:422-498 | every tree of the targets lists exactly the numbers their types and SAK call for, from the last target each |
| `TechnologyTree.KeptIsTree` | nxp/jni/com_android_nfc.cpp:408-498 | the rows the loop keeps are that tree |
| `TechnologyTree.FewRows` | nxp/jni/com_android_nfc.cpp:403-415 | rows of different technologies are at most eight, by the pigeonhole principle |
| `TechnologyTree.NeverFull` | nxp/jni/com_android_nfc.cpp:391-399 | the limit of 32 makes no difference: the list-full branch is never taken |
| `TechnologyTree.KeptIsFirstOffers` | nxp/jni/com_android_nfc.cpp:382-400 | what is kept is, for every technology offered, its first row, in order of first offers |
| `TransactionHold.TransactionCheck.CheckForTransaction` | nci/jni/NativeNfcManager.cpp:3367-3457 | each event's branch, the final wipe, and whether a thread is started |
| `TransactionHold.TransactionCheck.StopTimerNow` | nci/jni/NativeNfcManager.cpp:3277-3297 | the elapsed milliseconds by floating point, and all ones if the clock fails |
| `TransactionHold.TransactionCheck.DeferOrGoOn` | nci/jni/NativeNfcManager.cpp:1276-1281 | under the hold a request only overwrites last_request, and the native data if given; otherwise nothing changes |
| `TransactionHold.TransactionCheck.EnableThread` | nci/jni/NativeNfcManager.cpp:3468-3494 | uninterrupted, the thread replays the stored request once with the hold off and leaves zeros |
| `TransactionHold.HoldIsQualified` | nci/jni/NativeNfcManager.cpp:3378-3420 | in any run the hold is set only by a field-on event after a field-off after an EE action after the latest qualifying activation, less than 51 ms after the time the timer held since that field-off: the time then read, or the old one if the clock could not be read |
| `TransactionHold.FourEventsHold` | nci/jni/NativeNfcManager.cpp:3378-3425 | conversely, from any state, those four events in a row leave the hold on exactly if the clock was read at the last and at most 50 whole milliseconds passed since the time the timer held, old or new |
| `TransactionHold.OthersIgnored` | nci/jni/NativeNfcManager.cpp:3378-3453 | an activation by another interface and a field event with an error leave everything as it is, unless a thread has marked the end: then the record is zeroed |
| `TransactionHold.RunsTraced` | nci/jni/NativeNfcManager.cpp:3378-3420 | in any run the phase tells which of these events lie in the past, in order, and in the field-off phase the timer holds the time read then or, if none was, the time it held before |
| `TransactionHold.ReadsTheLatest` | nci/jni/NativeNfcManager.cpp:3468-3473 | in any run the thread reads nothing or the latest of all requests deferred so far |
| `TransactionHold.ReplayIsOfWhatWasRead` | nci/jni/NativeNfcManager.cpp:3474-3487 | a replay happens only with the hold off and is of the request read |
| `TransactionHold.ReplayedAtMostOnce` | nci/jni/NativeNfcManager.cpp:3468-3494 | as long as no replay thread reads between another's read and its wipe no deferred request is replayed twice, and replays are in order |
| `TransactionHold.UninterruptedReplaysLatest` | nci/jni/NativeNfcManager.cpp:3468-3494 | a thread nobody interrupts replays the latest deferred request and ends the hold |
| `TransactionReplays.ReplaysLastExactly` | nci/jni/NativeNfcManager.cpp:3468-3494 | in every run, a thread about to wipe the record has replayed the last request deferred so far exactly if it found one stored when it read and no store took effect between its read and its wipe |
| `TransactionReplays.SinceRead` | nci/jni/NativeNfcManager.cpp:3468-3494 | from its read on a thread replays what it read or nothing, and nothing only if it read nothing or stored the request again |
| `TransactionReplays.TwiceExactly` | nci/jni/NativeNfcManager.cpp:3428-3434 | in every run, some request is replayed twice exactly if two threads that replayed read with no store in between |
| `TransactionReplays.WaitsForNextThread` | nci/jni/NativeNfcManager.cpp:3472-3487 | while no thread is at work and none is started, nothing is replayed, whatever is stored |
| `TransactionReplays.PaymentEnds` | nci/jni/NativeNfcManager.cpp:3407-3453 | exactly the late field-on, the payment's field-off without a thread, and any event but an activation after a thread has marked the end, bring the phase back to its default; they leave zeros and start no thread |
| `TransactionReplays.EndedIsForgotten` | nci/jni/NativeNfcManager.cpp:3434-3453 | in every run, a request stored before a payment was so ended is replayed by no thread that reads later |
| `TransactionReplays.AsksUnderHold` | nci/jni/NativeNfcManager.cpp:1276-1281 | in every run, whoever is about to store a request tested under the hold |
| `TransactionReplays.NatIsLatest` | nci/jni/NativeNfcManager.cpp:3320-3327 | after any steps of any run, the record holds native data exactly if it is the latest a caller brought since the record was last zero |
| `TransactionReplays.LateRequestDropped` | nci/jni/NativeNfcManager.cpp:3472-3473 | a reachable state in which the older request was replayed and the newer one, stored between read and wipe, is forgotten |
| `TransactionReplays.LateRequestLeft` | nci/jni/NativeNfcManager.cpp:1276-1281 | a reachable state in which a caller that tested under the hold has stored after the wipe: the request stays, with the hold off and nobody to replay it |
| `TransactionReplays.LateRequestReplayedNextTime` | nci/jni/NativeNfcManager.cpp:1276-1281 | from there the thread of the next payment, in which nothing was deferred, replays it |
| `TransactionReplays.OverlapReplaysTwice` | nci/jni/NativeNfcManager.cpp:3428-3434 | with overlapping threads one request is replayed twice in a reachable state |
| `TransactionReplays.HoldsEnd` | nci/jni/NativeNfcManager.cpp:3427-3443 | in every run without a qualifying activation under a hold that has no replay thread left, a hold that is on has the field-off to come that starts the thread, or a thread that has not wiped the record |
| `TransactionReplays.StepKeepsHoldEnds` | nci/jni/NativeNfcManager.cpp:3378-3443 | of all steps exactly such an activation takes the end from a hold |
| `TransactionReplays.HoldsEndExactly` | nci/jni/NativeNfcManager.cpp:3378-3443 | in every run whatever, a hold is on its way to its end exactly unless it is on in a phase before TRANS_START with no replay thread left |
| `TransactionReplays.ActivationStrands` | nci/jni/NativeNfcManager.cpp:3378-3388 | an activation under the hold with no replay thread left makes it such a hold |
| `TransactionReplays.StrandedStays` | nci/jni/NativeNfcManager.cpp:3389-3443 | such a hold stays on, with no thread and nothing replayed, in every continuation up to the field-on event of another whole payment |
| `TransactionReplays.HoldOutlivesPayment` | nci/jni/NativeNfcManager.cpp:3384-3387 | that case happens: a reachable state in which neither field event of the payment ends the hold |
| `TransactionReplays.StaleTimerHolds` | nci/jni/NativeNfcManager.cpp:3402-3406 | a run in which the hold is set right after a field-off whose time could not be read |
| `ReSelect.ReSelectResult` | nci/jni/NativeNfcTag.cpp:727-893 | whatever the callback does in between: result 0 means the requested interface, and that it was so already or sGotDeactivate was reset in this call, then a deactivation written, then the tag seen asleep, then sConnectOk reset, then the tag seen active, with a positive status after the reset from an activation after the sleep; 146 comes back exactly if detection had timed out, or the deactivation was accepted and the tag not seen asleep, or the selection completed and the tag not seen active; 1 in all other cases; other results than 0 leave the interface; every exit frees the mutex and lowers the flags |
| `ReSelect.RunsAreQuiet` | nci/jni/NativeNfcTag.cpp:727-893 | between calls of any run the three flags are down and the mutex is free |
| `ReSelect.EnvKeeps` | nci/jni/NativeNfcTag.cpp:593-637 | no interleaved work of the callback breaks what reSelect relies on |
| `ReSelect.UnaskedIsUnwritten` | nci/jni/NativeNfcTag.cpp:623-637 | the callback writes sGotDeactivate only for a reSelect that deactivates |
| `ReSelect.UnselectedIsUnwritten` | nci/jni/NativeNfcTag.cpp:593-610 | and the connect status only for one that selects |
| `ReSelect.HeldStopsCallback` | nci/jni/NativeNfcTag.cpp:593-637 | while reSelect holds the event a callback that is to notify it goes nowhere |
| `ReSelectStatus.StatusPassesExactly` | nci/jni/NativeNfcTag.cpp:841-881 | for every call that comes to the reset of sConnectOk: some behaviour of the callback from there on makes the call succeed exactly if, at the reset, the call still waits and the callback is not on its way to write a failure, or the callback has taken the wait for a success still to be written |
| `ReSelectStatus.LostFails` | nci/jni/NativeNfcTag.cpp:853-881 | otherwise the call fails, whatever the callback does and however long it waits |
| `ReSelectStatus.LostStays` | nci/jni/NativeNfcTag.cpp:593-605 | no work of the callback brings a lost status back |
| `ReSelectStatus.FailedSelectionLoses` | nci/jni/NativeNfcTag.cpp:593-610 | a selection that fails while the call waits ends the wait with a negative status, and the status is lost |
| `ReSelectStatus.PassesIfItWill` | nci/jni/NativeNfcTag.cpp:593-605 | from every other state the callback can go on, or take one more activation, to write a positive status with the tag active |
| `ReSelectStatus.EarlyStatusLost` | nci/jni/NativeNfcTag.cpp:841-857 | a witness of both cases: the same deactivation and activation make the call succeed if the activation is handled during the wait, and return 1, with the tag active, if it is handled between NFA_Select and the reset |
| `ReSelect.NativeNfcTag.ReSelect` | nci/jni/NativeNfcTag.cpp:727-893 | the whole function in place, against the same interleavings |
| `ReSelect.NativeNfcTag.Deactivate` | nci/jni/NativeNfcTag.cpp:746-819 | the deactivation half |
| `ReSelect.NativeNfcTag.Select` | nci/jni/NativeNfcTag.cpp:820-858 | the selection half up to the reset |
| `ReSelect.NativeNfcTag.AwaitSelection` | nci/jni/NativeNfcTag.cpp:851-884 | the selection half from the reset on |
| `ReSelect.NativeNfcTag.Finish` | nci/jni/NativeNfcTag.cpp:887-893 | the common exit |
| `ReSelect.NativeNfcTag.CallbackAccess` | nci/jni/NativeNfcTag.cpp:593-637 | one access of doConnectStatus, doDeactivateStatus or the event code before them |
| `ReSelect.NativeNfcTag.SwitchRfInterface` | nci/jni/NativeNfcTag.cpp:905-932 | true exactly for another protocol or a successful reSelect, and the interface is the requested one then |
| `PowerSwitch.PowerSwitch.Initialize` | nci/jni/PowerSwitch.cpp:98-127 | the level and state for each argument, and the configured screen-off state |
| `PowerSwitch.PowerSwitch.SetLevel` | nci/jni/PowerSwitch.cpp:159-218 | each branch, with every answer of the stack |
| `PowerSwitch.PowerSwitch.SetPowerOffSleepState` | nci/jni/PowerSwitch.cpp:274-348 | each branch, with every answer of the stack |
| `PowerSwitch.PowerSwitch.DeviceManagementCallback` | nci/jni/PowerSwitch.cpp:432-455 | a successful event makes the expected state the current one |
| `PowerSwitch.PowerSwitch.SetModeOn` | nci/jni/PowerSwitch.cpp:251-261 | adds the mode; true if any is on |
| `PowerSwitch.PowerSwitch.SetModeOff` | nci/jni/PowerSwitch.cpp:229-240 | takes the mode away; true if any is on |
| `PowerSwitch.SetLevelKeeps` | nci/jni/PowerSwitch.cpp:159-218 | full power implies the controller state is full, low power implies power-off-sleep is configured, POWER_OFF is never current: kept by setLevel for every answer |
| `PowerSwitch.RunsConsistent` | nci/jni/PowerSwitch.cpp:174-190 | kept in every run of overlapping setLevel calls, if the stack is not shut down during the unlocked wait while full power at screen-off is configured |
| `PowerSwitch.TailKeepsUnless` | nci/jni/PowerSwitch.cpp:192-212 | the locked part breaks it in exactly one case |
| `PowerSwitch.ShutdownInWindow` | nci/jni/PowerSwitch.cpp:181-190 | that case happens: a run in which the level is full power and the controller state unknown |
| `PowerSwitch.FullPowerExactly` | nci/jni/PowerSwitch.cpp:192-197 | setLevel(FULL_POWER) is true exactly if the level was full or the controller slept and its event succeeded; both views are full then |
| `PowerSwitch.LowPowerExactly` | nci/jni/PowerSwitch.cpp:199-208 | setLevel(LOW_POWER) is true exactly if the level was low, or it was full and the stack accepted the change or full power at screen-off is configured; when the level goes low and when the controller sleeps |
| `PowerSwitch.PowerOffExactly` | nci/jni/PowerSwitch.cpp:199-208 | a POWER_OFF request is one for low power, except that in low power it tries again to put the controller to sleep, and is true exactly if the controller was awake and the stack accepted |
| `PowerSwitch.StuckLow` | nci/jni/PowerSwitch.cpp:192-197 | low power with the controller not asleep is final under requests for full and low power: nothing changes and full power is always refused |
| `PowerSwitch.FailedChangeSticks` | nci/jni/PowerSwitch.cpp:289-325 | exactly the changes that do not end with a successful event lead there: a wake-up refused, failed or aborted, which leaves the controller's state unknown, and a change to low power that was accepted and then failed, which is reported as done; a refused one only sets what is expected |
| `PowerSwitch.StuckLowUntil` | nci/jni/PowerSwitch.cpp:281-300 | the one request that helps is POWER_OFF with a successful mode event; the level stays low and the controller sleeps |
| `PowerSwitch.ModeEventKeepsUnless` | nci/jni/PowerSwitch.cpp:439-451 | a mode event outside a wait keeps the views consistent exactly unless it succeeds while the level is full power and another state is expected |
| `PowerSwitch.LateEventBreaks` | nci/jni/PowerSwitch.cpp:439-451 | that case happens: a mode event after an aborted wait and a restart |
| `PowerSwitch.AnyModeActive` | nci/jni/PowerSwitch.cpp:229-261 | over any run some mode is reported active exactly when the last operation on some mode turned it on |
| `AidBuffer.AidBuffer.constructor` | nci/jni/RouteDataSet.cpp:40-70 | for text with something besides colons: every store is inside the buffer, the length is the number of colons plus one, and the bytes are the numbers of the fields |
| `AidBuffer.AidBuffer.Fill` | nci/jni/RouteDataSet.cpp:50-69 | the loop ends, since pos1 only goes up, and fills the bytes in order |
| `AidBuffer.FitsExactly` | nci/jni/RouteDataSet.cpp:50-50 | the bytes fit a buffer as long as the text exactly if the text has something besides colons |
| `AidBuffer.RoundTrip` | nci/jni/RouteDataSet.cpp:40-70 | parsing the two-digit colon-separated text of any bytes, in either case, gives them back |
| `AidBuffer.ScanForms` | nci/jni/RouteDataSet.cpp:54-63 | white space, a sign and 0x in front of two digits are read over, and a minus negates the byte |
| `AidBuffer.SplitOfJoin` | nci/jni/RouteDataSet.cpp:44-67 | cutting at colons undoes joining with colons |
| `AidBuffer.JoinOfSplit` | nci/jni/RouteDataSet.cpp:44-67 | and joining undoes cutting, on every text |
| `AidBuffer.OneMoreThanColons` | nci/jni/RouteDataSet.cpp:50-69 | there is one field more than there are colons |
| `AidBuffer.ScanColon` | nci/jni/RouteDataSet.cpp:63-63 | the colon left in a field's text does not change its number |
| `EmptySelect.CommandToSend` | nci/jni/SecureElement.cpp:1386-1412 | a 4- or 5-byte SELECT by name with a valid AID configured is sent as the command that decodes to the same header, the AID as data, and the fifth byte, if any, as Le; every other command goes out as it came in |
| `EmptySelect.ReplacedExactly` | nci/jni/SecureElement.cpp:1386-1392 | a command is replaced exactly if it reads as a SELECT by name (0xA4, 0x04) without data and an AID of 1 to 16 bytes is configured |
| `EmptySelect.ReadsWithName` | nci/jni/SecureElement.cpp:1393-1408 | header, length, name and fifth byte in this order read as the original command with the name as its data |
| `EmptySelect.OneReading` | nci/jni/SecureElement.cpp:1393-1408 | only one text reads so, and it has at most NCI_MAX_AID_LEN + 6 bytes |
| `EmptySelect.DecodeOfEncode` | nci/jni/SecureElement.cpp:1393-1408 | reading a short command back from its bytes |
| `EmptySelect.EncodeOfDecode` | nci/jni/SecureElement.cpp:1393-1408 | every text that reads as a short command is that command's bytes |
| `TimeArithmetic.TimeDiff` | nci/jni/NfcTag.cpp:231-246 | the whole milliseconds between normalised times modulo 2^32, in either order |
| `TimeArithmetic.RealTimeDiff` | nci/jni/SecureElement.cpp:471-482 | the same by floating point, below 2^32 ms |
| `TimeArithmetic.RealMillisIs` | nci/jni/NativeNfcManager.cpp:3286-3296 | seconds times 1000 plus nanoseconds over 10e5, cut off, is the floor of the nanoseconds over 10^6 |
| `TimeArithmetic.AbsoluteTime.AddMillis` | nci/jni/CondVar.cpp:107-115 | the deadline is exactly now plus millisec, for either sign; the bounds of its nanoseconds; the sum fits 32 bits |
| `TimeArithmetic.RemBounds` | nci/jni/CondVar.cpp:107-115 | the milliseconds left over have the sign of the timeout |
| `TimeArithmetic.DeadlineIsNormalUnless` | nci/jni/CondVar.cpp:107-115 | for timeouts that are not negative the nanoseconds lie between 0 and 10^9, and reach 10^9 exactly when the sum is 10^9 |
| `TimeArithmetic.DeadlineNotNormal` | nci/jni/CondVar.cpp:107-115 | that case happens |
| `TimeArithmetic.DeadlineElapses` | nci/jni/CondVar.cpp:107-115 | the elapsed time at the deadline is the timeout |

## Left out

- Java objects, field access, exceptions and listener notification: foreign calls without state of interest.
- The stack itself: it is a nondeterministic environment under the assumptions above.
- Reference counts, failing allocations and pthread errors: they are taken to succeed.
- Scheduling and fairness: what is proved is that a step can be taken or a notification is coming, not when.
- SNEP and plain-data registrations, listen-technology masks, remote parameters: straight-line calls around the same sections.
- P2pRuns.ReachableInv: a server registration event finds and writes in one step, as its handle is no part of the invariant;
  the claim stops at 2^32 allocations, where CounterRepeats shows that handles come again.
- P2pManager.PeerToPeer.DiscEvent: the class runs a callback's find and write back to back; P2pRuns lets anything happen in between.
- P2pBalance.AcceptIs: the CONN_REQ event is taken to come during the wait; AcceptWait decides what comes before it.
- P2pManager.PeerToPeer.Accept: the same; the class runs the call and its event back to back.
- AcceptWait.AcceptAsleepExactly: one accept at a time on a server, and which of several idle blocks an event finds is free.
- ReceiveWait.ReceiverAsleepExactly: one receiver on a connection with one link, and one other thread at a time that closes it
  or switches off; what is read is not modelled.
- P2pBalance.DisconnectBalances: an accepted disconnect is taken to be followed by its DISC event, as assumed of the stack.
- P2pManager.PeerToPeer.UnblockAll: the methods of P2pServer are methods of the manager with a slot number, as the
  proof of distinct objects is kept there; notifications are in LockOrder and ConnectionProtocol.
- ConnectionProtocol.NoLostWakeUpInSend: one sender and one closer per connection, as more than one waiter on an event that
  wakes one is not promised anything.
- LockOrder.SkeletonOrdered: data is left out of the skeletons; each scan may touch any objects and stop anywhere, and
  which branch is taken is free.
- DataQueue.DataQueue.Dequeue: the queue must not be empty, as the front of an empty list is undefined.
- TransactionHold.TransactionCheck.StopTimerNow: the same limit on the clock as for CheckForTransaction.
- TransactionHold.TransactionCheck.CheckForTransaction: an elapsed time of 2^32 ms or more, or a clock that goes back, is
  excluded where it is read, as the conversion to 32 bits is then undefined.
- TransactionHold.HoldIsQualified: each event is handled in one step; the threads and callers interleave between events.
- ReSelect.ReSelectResult: the NXP build of reSelect, and reads of the activation state torn by its two assignments.
- PowerSwitch.RunsConsistent: mode events arrive only inside the wait they end; ModeEventKeepsUnless is exact for others.
- AidBuffer.AidBuffer.constructor: text of colons alone is excluded, as the stores would be outside the buffer (FitsExactly).
- AidBuffer.RoundTrip: a field of more than eight digits is undefined for sscanf; the model takes its value modulo 256.
- TimeArithmetic.RealTimeDiff: times out of order or 2^32 ms apart, whose conversion to 32 bits is undefined; and rounding of
  doubles, whose error in this range is below the gap of 10^-6 to the next integer.
- Routing and secure-element commands, RF parameters, self tests, XML import, the `_1_3` copies under `nxp/jni`: thin wrappers
  or duplicates.
