# Tusa chat server: verified model

A Dafny model of the stateful core of the Tusa chat server (version 8.395) with proofs about whole runs. The
files follow the server's components:

- `NoteBox`, `NoteOrder`, `NoteReplay`, `NoteMailbox`, `NoteRouting`, `NoteRuns`, `NoteLog`, `NoteDelivery`,
  `NoteWorld`: a user's notes (folders, filters, message heads). Page handlers change the cached mailbox at once and
  log a command; the update thread applies the command again later. `NoteReplay` proves, for every interleaving, that
  this comes out as if only the log had been applied. `NoteMailbox` is the code itself, as a class, with every handler
  proved to be such a sequence of logged edits, but for the deletion that logs nothing. `NoteLog` says what the log
  makes of one handler, and `NoteDelivery` where a note is found afterwards.
- `Sender`, `SenderThread`: the outbound sender. Writers, the accept loop, disconnects, the kernel's reuse of
  descriptors and the sender thread interleave at lock granularity.
- `Memberships`, `GlobalState`, `ChatIndex`, `ChatTime`, `ChatThread`: who is in which channel, the structures
  derived from it, and the accounting of time.
- `Roster`, `RosterBoard`: what each client is shown of a channel and the messages that keep it so.
- `Chunks`, `Frames`, `FrameWrap`, `Lines`, `Search`, `Inbound`, `Multipart`: input from the network. `Chunks` is a theory of
  stream parsers, of which the FLAP2 frame parsers and the line splitter are instances.
- `Bans`: the ban registry. `RefCount`: the reference-counted handles.
- `Options`, `Ordered`, `Sequences`: small shared notions.

Each concurrent part is a state machine over the actions that hold a lock; each object the program updates in
place is also a class whose methods are proved against the functions of the machine. Where a promise does not
hold for all inputs, there is a lemma saying exactly when it does (mostly named `SomethingExact`) and usually a
concrete run that breaks it. Those cases are:

- A JOIN that comes back from the event queue after its client record is gone leaves the local index without the
  client, and flushing a user out of a channel leaves both indexes stale (`StepExact`, `EchoAfterKickIsLost`).
- A user who changes nick and goes out of an observer's view in one batch stays on the observer's screen
  (`ScreenExact`), and an IRC client is told the wrong nick (`ListenExact`).
- A kicked user goes on being charged for time (`PhantomsExact`, `KickedTimeRuns`).
- Deleting a message that is filed only in folder 0 changes the cache and not the log (`DeletionExact`,
  `UnloggedDeletionsOnlyHide`).
- Renaming a folder that is not there makes one in the replay (`LostRename`).
- The default folder is taken to be missing when it is folder 0 (`CheckKeepsOneDefault`, `HandlersExact`),
  choosing a default repairs at most one duplicate (`ChooseLeavesOne`), and replay can put a key beside another
  folder's (`DrainExact`, `ReplayCanSplitDefault`), which waiting for the log prevents (`PatientHandlersKeepOne`).
- An outbound connection is not announced to the sender, so a reused descriptor can strand its output
  (`ConnectExact`, `UnannouncedOutputCanStrand`).
- A start byte that follows garbage is taken for a frame or not depending on how the bytes arrived
  (`ClientChunkingExact`). A length of 2^32 - 6 makes the loops endless (`ClientStuckExact`, `ServerStuckExact`);
  the five lengths above it make them drop one to five bytes.
- The first question about a ban can be answered wrongly (`CheckExact`, `FirstAnswerCanBeWrong`).
- With more than 32767 handles the counter reads negative and an assignment throws half-way; and an assignment
  stores what it reads a second time (`DecrementExact`, `RunCountsExact`).

The FLAP2 constants and the `>>` operator on maps are those of `tusa-8.395/core/oscar_buffer.h`. That operator
inserts missing keys only, which is why the memo of the global state survives `set_data` and `unpack`.

## Model

| member | source | states |
|---|---|---|
| `NoteReplay.EagerPlusReplayIsReplay` | tusa-8.395/chatserver/update_cmd.cpp:443-725 | for every interleaving of handlers' eager edits, re-sorting, passing commands to the queue, draining it and the later note_resort, once nothing is pending and if every deletion was logged, the cached mailbox equals the fold of the update commands over the whole log from the initial mailbox |
| `NoteReplay.UnloggedDeletionsOnlyHide` | tusa-8.395/chatserver/notes.cpp:1379-1407 | in every run, deletions that log nothing included, cache and log then differ at most in what folders hold of the messages so deleted |
| `NoteReplay.EagerOverwrittenLate` | tusa-8.395/chatserver/notes.cpp:1530-1548 | the same as EagerOverwritten between a command and its note_resort, where heads may be missing and a folder may list a message twice |
| `NoteReplay.OverwrittenLater` | tusa-8.395/chatserver/update_cmd.cpp:443-725 | two mailboxes that differ only in what a pending command overwrites agree after any queue that contains that command |
| `NoteReplay.SameButKept` | tusa-8.395/chatserver/update_cmd.cpp:443-725 | applying any other command keeps the difference confined to what the pending command overwrites |
| `NoteReplay.EagerOverwritten` | tusa-8.395/chatserver/notes.cpp:432-513 | whatever a handler writes eagerly, its own logged command overwrites it |
| `NoteReplay.DrainKeepsInv` | tusa-8.395/chatserver/update_cmd.cpp:861-890 | carrying out one command under the lock, its note_resort still due, keeps the replay invariant |
| `NoteReplay.SortKeepsInv` | tusa-8.395/chatserver/notes.cpp:1530-1548 | so does the note_resort that follows under its own lock, and a re-sorting by a handler at any time |
| `NoteReplay.SendKeepsInv` | tusa-8.395/chatserver/update_cmd.h:59-74 | a command leaving a handler's list for the queue keeps the replay invariant, in whatever order handlers end |
| `NoteBox.ApplyAllClosed` | tusa-8.395/chatserver/update_cmd.cpp:443-725 | after any commands every filed message has a head |
| `NoteOrder.ArrangeSorts` | tusa-8.395/chatserver/notes_containers.cpp:265-320 | a re-sorted folder has the same message ids, each once, in the chosen order and direction, and re-sorting it again changes nothing |
| `NoteOrder.ArrangeOrdersBy` | tusa-8.395/chatserver/notes_containers.cpp:265-320 | for every sort key and direction the folder is sorted on the field that key names: date, size, sender, recipient or subject; without one the ids ascend |
| `NoteOrder.StringLessIs` | tusa-8.395/chatserver/notes_containers.cpp:265-320 | names and subjects are compared as strings: the first place where they differ decides, and a proper prefix comes first |
| `NoteOrder.PrecedesIsWeakOrder` | tusa-8.395/chatserver/notes_containers.cpp:265-320 | the comparators are strict weak orders, which std::sort needs |
| `NoteMailbox.Mailbox.Resort` | tusa-8.395/chatserver/notes_containers.cpp:265-320 | the loop arranges every folder in the chosen order and creates a default head for each filed message without one; all else is unchanged |
| `NoteMailbox.HandlerKeepsInv` | tusa-8.395/chatserver/update_cmd.h:59-74 | a handler whose whole effect is a sequence of logged edits keeps the replay invariant |
| `NoteMailbox.Mailbox.MoveMessage` | tusa-8.395/chatserver/notes.cpp:1411-1471 | takes the message out of its folder and moves the correspondents' filters; the log is exactly the move, one deletion for each filter entry removed, and the insertions |
| `NoteMailbox.Mailbox.DeleteMessage` | tusa-8.395/chatserver/notes.cpp:1359-1410 | takes the message out of every folder and keeps its head; the removal is logged if and only if the message id is not 0 and some folder other than 0 listed it, and then it is one logged edit |
| `NoteMailbox.Mailbox.ChooseDefault` | tusa-8.395/chatserver/notes.cpp:446-513 | moves the default key from the first other folder that has it to the chosen one, with matching commands |
| `NoteMailbox.Mailbox.CheckConfig` | tusa-8.395/chatserver/notes.cpp:1219-1285 | creates missing defaults and drops heads of unfiled messages, every change matched by the command logged for it |
| `NoteMailbox.Mailbox.MarkMessage` | tusa-8.395/chatserver/notes.cpp:99-212 | changes only the mark of one head, for the recipient only, and logs exactly that |
| `NoteMailbox.Mailbox.DeliverNote` | tusa-8.395/chatserver/notes.cpp:1036-1148 | one mailbox's part: the note goes to the folder routing picks, under the next id, if there is a default folder, and is logged so; NoteDelivery.ReceiveExact says which folder and id that is |
| `NoteMailbox.SendNote` | tusa-8.395/chatserver/notes.cpp:1035-1148 | sending writes both mailboxes, or neither when the sender's or the recipient's default folder is missing; a note to oneself gets two ids; NoteDelivery.SendAndFile says where the notes then are |
| `NoteMailbox.Mailbox.ApplyCommand` | tusa-8.395/chatserver/update_cmd.cpp:443-725 | carries out every note command as the command's meaning says, on the cached object; where it re-sorts, every folder is in the chosen order |
| `NoteMailbox.DoubledExact` | tusa-8.395/chatserver/update_cmd.cpp:606-721 | before its note_resort a command has doubled a message in a folder's vector if and only if the folder it is pushed to listed it already |
| `NoteMailbox.EraseFirst` | tusa-8.395/chatserver/notes.cpp:1411-1435 | erasing a message from a duplicate-free vector removes exactly that id |
| `NoteRouting.MoveKeepsOneNames` | tusa-8.395/chatserver/notes.cpp:1433-1468 | a move keeps every correspondent in at most one folder's filter, and saving the filter leaves him in the target alone |
| `NoteRouting.ChooseLeavesOne` | tusa-8.395/chatserver/notes.cpp:446-513 | choosing a default leaves at most one default folder if and only if at most one other folder had it, and none if and only if there was none |
| `NoteRouting.CheckMakesDefaults` | tusa-8.395/chatserver/notes.cpp:1219-1262 | after config repair both defaults are found |
| `NoteRouting.CheckKeepsOneDefault` | tusa-8.395/chatserver/notes.cpp:1219-1262 | repair leaves the default unique if and only if it was unique and not in folder 0 |
| `NoteRouting.RouteIsTheOne` | tusa-8.395/chatserver/notes.cpp:1036-1057 | with one folder naming a correspondent, routing finds it in whatever order folders are searched |
| `NoteRouting.ReplayCanSplitDefault` | tusa-8.395/chatserver/notes.cpp:446-513 | a concrete run in which replay leaves two default folders; the exact step is NoteRuns.DrainExact |
| `NoteRuns.Handle` | tusa-8.395/chatserver/notes.cpp:432-585 | the code of every handler does and logs what the functions of the run theorems say |
| `NoteRuns.ActNaming` | tusa-8.395/chatserver/notes.cpp:432-585 | for every handler, way and key: which folders' filters name the key afterwards |
| `NoteRuns.ActExact` | tusa-8.395/chatserver/notes.cpp:1219-1262 | a handler keeps every key in at most one filter of each way if and only if it is not config repair with a default in folder 0 |
| `NoteRuns.HandlersExact` | tusa-8.395/chatserver/notes.cpp:432-585 | over every run of handlers the keys are in at most one filter in every state if and only if every config repair finds folder 0 without a default |
| `NoteRuns.ZeroFreeExact` | tusa-8.395/chatserver/notes.cpp:1453-1467 | a default gets into folder 0 if and only if a note from nobody is moved there with the filter saved |
| `NoteRuns.ApplyNaming` | tusa-8.395/chatserver/update_cmd.cpp:443-605 | for every replayed command, way and key: which folders' filters name the key afterwards |
| `NoteRuns.DrainExact` | tusa-8.395/chatserver/update_cmd.cpp:550-605 | a replayed command keeps a key in at most one filter if and only if it does not insert it beside another |
| `NoteRuns.PatientHandlersKeepOne` | tusa-8.395/chatserver/update_cmd.cpp:861-890 | with replay at any time, every key is in at most one filter in every state if handlers that change filters start only when nothing logged for the mailbox is waiting |
| `NoteWorld.EveryMailboxIsReplayed` | tusa-8.395/chatserver/update_cmd.cpp:861-890 | with all users sharing one queue, every mailbox ends as the replay of the commands logged for it, but for what folders hold of messages deleted without a log entry |
| `NoteWorld.OneUserSteps` | tusa-8.395/chatserver/update_cmd.cpp:443-725 | an event is one step for its own user and nothing for the others |
| `NoteWorld.CreateFolderExact` | tusa-8.395/chatserver/update_cmd.cpp:443-458 | storing a new folder eagerly agrees with its replay if and only if the id carried nothing yet |
| `NoteWorld.DeletionExact` | tusa-8.395/chatserver/notes.cpp:1359-1410 | with nothing else pending, cache and log agree after a deletion if and only if no folder listed the message, or its id is not 0 and a folder other than 0 listed it |
| `NoteWorld.DeleteAndCompare` | tusa-8.395/chatserver/notes.cpp:1359-1410 | the same of the code itself: the handler is called, and its result compared with the replay of the commands it returned |
| `NoteLog.LogRepeatsHandler` | tusa-8.395/chatserver/update_cmd.cpp:443-725 | replaying what a handler logged gives what the handler did, for every handler but a move, a deletion and the renaming of a folder that is not there |
| `NoteLog.LostRename` | tusa-8.395/chatserver/notes.cpp:555-568 | renaming a folder that is not there changes nothing now and makes a folder in the replay |
| `NoteLog.MovedMessageArrives` | tusa-8.395/chatserver/notes.cpp:1411-1471 | once the commands of a move are replayed the mailbox is what the handler left with the message filed in the target, and nothing else, whatever the filters were |
| `NoteLog.MovedMessageIsThere` | tusa-8.395/chatserver/update_cmd.cpp:443-725 | so the target lists the message, the folder it was taken from does not unless it is the target, and no other message has moved |
| `NoteLog.DeletedMessageIsGone` | tusa-8.395/chatserver/notes.cpp:1359-1410 | a deleted message is in no folder at once; its head goes with the replay if and only if the removal was logged; nothing else changes |
| `NoteDelivery.ReceiveExact` | tusa-8.395/chatserver/notes.cpp:1036-1148 | a note is refused if no folder other than 0 holds the default key; else it is one more message, under an unused id other than 0, in the last folder whose filter names the correspondent, or in the last default if none does; all older heads and the other folders are unchanged |
| `NoteDelivery.NoteGoesToItsFolder` | tusa-8.395/chatserver/notes.cpp:1036-1057 | where one folder names the correspondent, the note is filed in that one |
| `NoteDelivery.NoteGoesToDefault` | tusa-8.395/chatserver/notes.cpp:1036-1057 | where none does, it is filed in the default folder |
| `NoteDelivery.SendAndFile` | tusa-8.395/chatserver/notes.cpp:1035-1148 | sending, on both mailbox objects, by folder and id: the recipient has one more message where the sender's notes go, the sender a copy marked as read where notes to the recipient go, or nothing changes |
| `NoteDelivery.SavedFilterIsUsed` | tusa-8.395/chatserver/notes.cpp:1433-1468 | after a received note is moved with the filter saved, and any handlers that leave that filter and folder alone, the next note of the same user is filed in the folder it was moved to |
| `NoteDelivery.MoveThenReceive` | tusa-8.395/chatserver/notes.cpp:1411-1471 | the same of the code, for two handlers in a row |
| `NoteDelivery.MoveSaves` | tusa-8.395/chatserver/notes.cpp:1433-1468 | for every key and way: the filters a move saves, and that it touches no other |
| `NoteDelivery.ChosenGetsTheRest` | tusa-8.395/chatserver/notes.cpp:446-513 | where there is one default, choosing a folder makes that the only default and touches no other key, and notes of people whom no folder names are filed there |
| `NoteDelivery.MarkExact` | tusa-8.395/chatserver/notes.cpp:99-212 | who is not the recipient marks nothing; otherwise the message is no longer unread, its status changes only from the one it should have, no other message changes, and the replay does the same |
| `NoteDelivery.NewFolderIsNew` | tusa-8.395/chatserver/notes.cpp:536-554 | a new folder takes an unused number and thirty characters of its name, and the replay makes the same folder |
| `NoteDelivery.RenameExact` | tusa-8.395/chatserver/notes.cpp:555-568 | renaming gives a folder that is there thirty characters of the name, now and in the replay, and changes nothing else |
| `NoteDelivery.OnlyEmptyFoldersGo` | tusa-8.395/chatserver/notes.cpp:569-585 | a folder with messages stays and nothing is logged; any other goes, now and in the replay |
| `NoteDelivery.RepairExact` | tusa-8.395/chatserver/notes.cpp:1219-1285 | config repair drops exactly the heads of messages no folder lists, keeps every folder as it is, and adds at most an empty one for each missing default |
| `Sender.NoOutputIsStranded` | tusa-8.395/core-web/tcp_sender.cpp:142-288 | in every run whose outbound connections get cleared descriptors, unsent bytes of a connected socket are registered under its own descriptor or on their way to be |
| `Sender.AcceptedOutputIsNotStranded` | tusa-8.395/core-web/tcp_server.cpp:279-288 | for accepted connections that holds in every run, because the removal is queued before the socket object exists |
| `Sender.StepKeepsInv` | tusa-8.395/core-web/tcp_sender.cpp:142-359 | each locked action, partial sends and descriptor reuse included, keeps the invariant behind that |
| `Sender.AnnounceKeepsInv` | tusa-8.395/core-web/tcp_server.cpp:279-288 | queueing REMOVE_SOCK before the socket object exists clears older registrations of a reused descriptor |
| `Sender.ConnectExact` | tusa-8.395/core-web/oscar_client.cpp:283-335 | after an outbound connection no output is stranded, whatever accepted connections, writers, disconnects and the sender do, if and only if no older registration of its descriptor is left that is not about to be cleared |
| `Sender.UnclearedStrands` | tusa-8.395/core-web/oscar_client.cpp:283-335 | from every state in which one is left, a run that strands output |
| `Sender.UnannouncedOutputCanStrand` | tusa-8.395/core-web/oscar_client.cpp:283-335 | a concrete run in which output of an outbound connection is stranded |
| `Sender.BytesAreConserved` | tusa-8.395/core-web/tcp_sender.cpp:233-288 | in every run, bytes handed to the kernel followed by the buffer are the bytes written; the kernel's are a prefix at all times and only grow |
| `Sender.StepConserves` | tusa-8.395/core-web/tcp_sender.cpp:142-288 | no single action loses, doubles or reorders a byte of any socket |
| `Sender.CleanupClosesNothingLive` | tusa-8.395/core-web/tcp_sender.cpp:178-206 | the periodic clean-up disconnects no open socket and drops exactly the entries of closed ones |
| `Sender.WhoCloses` | tusa-8.395/core-web/tcp_sender.cpp:233-288 | an open connection is closed by a disconnect, or by an error on the descriptor it is registered under, and by no other step; EAGAIN closes nothing |
| `Sender.ConnectionLasts` | tusa-8.395/core-web/tcp_sender.cpp:142-359 | in every cleared run without such a step the connection stays open, on its descriptor |
| `Sender.WhoSends` | tusa-8.395/core-web/tcp_sender.cpp:233-288 | bytes enter a buffer by a write alone and leave it, in order, for the kernel alone; the table entry goes exactly with the last byte |
| `Sender.NotReadyChangesNothing` | tusa-8.395/core-web/tcp_sender.cpp:266-286 | EAGAIN on the descriptor of its own socket changes nothing at all |
| `Sender.OutputCanBeSent` | tusa-8.395/core-web/tcp_sender.cpp:142-359 | from every reachable state, for an open connection: a run of writers and sender alone after which all bytes written to it are handed to the kernel and no other connection has changed |
| `SenderThread.RunThen` | tusa-8.395/core-web/tcp_sender.cpp:207-232 | a run can be prolonged by an enabled step, so loops are runs |
| `SenderThread.Thread.WriteData` | tusa-8.395/core-web/tcp_sender.cpp:142-156 | appending and then queueing is a run of the machine, from any state of the other threads |
| `SenderThread.Thread.HandleEvents` | tusa-8.395/core-web/tcp_sender.cpp:207-232 | draining the events is a run of the machine, from any state of the other threads, and leaves the table the events describe |
| `SenderThread.Thread.SendToSocket` | tusa-8.395/core-web/tcp_sender.cpp:233-288 | one call is one step, for every answer of the kernel and state of the other threads: a descriptor that is another connection by now is only dropped, EAGAIN changes nothing, the bytes taken leave the buffer and the entry goes with the last one, any other error closes |
| `SenderThread.Thread.PollAndSend` | tusa-8.395/core-web/tcp_sender.cpp:289-359 | one pass over a snapshot of the table is a run, though entries disappear on the way; every open connection that was polled has been served as the kernel answered, no other has changed, and the entries left are exactly those that should wait |
| `SenderThread.Thread.CleanupSockets` | tusa-8.395/core-web/tcp_sender.cpp:178-206 | the loop keeps exactly the entries of open sockets and changes no socket |
| `Memberships.MapRefinesRelation` | tusa-8.395/chatserver/user_state.cpp:60-99 | over every run the map of client sets stands for a plain relation edited in the obvious way; no channel has an empty set and the web client is in one channel at most |
| `Memberships.CleanIsCanonical` | tusa-8.395/chatserver/user_state.h:25-79 | the relation determines the map when no set is empty |
| `Memberships.PartReturnsChannelsLeft` | tusa-8.395/chatserver/user_state.cpp:76-99 | part_channels returns exactly the channels in which no client remains |
| `Memberships.LeftExact` | tusa-8.395/chatserver/user_state.cpp:76-99 | a channel goes if and only if it is named, or none is, and the parting client was its only one |
| `Memberships.JoinedHas` | tusa-8.395/chatserver/user_state.cpp:60-74 | a JOIN over IRC adds its channel, a JOIN from the web leaves the user in no other one through the web |
| `Memberships.PartedHas` | tusa-8.395/chatserver/user_state.cpp:76-99 | parting removes the client from the chosen channels, or all when none is chosen, and leaves the other client's memberships alone |
| `Memberships.ReplacedHas` | tusa-8.395/chatserver/user_state.cpp:60-74 | www_channel_replace puts the web client in one channel and leaves the other client's memberships alone |
| `Memberships.BothPartEmpties` | tusa-8.395/chatserver/user_state.cpp:76-99 | when both clients have parted from everywhere nothing remains |
| `Memberships.UserState.WwwChannelReplace` | tusa-8.395/chatserver/user_state.cpp:60-74 | the loops compute that replacement |
| `Memberships.UserState.PartChannels` | tusa-8.395/chatserver/user_state.cpp:76-99 | the loops compute the parting and the set returned |
| `Memberships.UserState.GetChannel` | tusa-8.395/chatserver/user_state.h:67-79 | the loop collects the channels of one client type |
| `GlobalState.MemoIsInvisible` | tusa-8.395/chatserver/global_state.cpp:21-188 | over every run, set_data and unpack included, all answers are those of the operations without the memo |
| `GlobalState.StepIsPlain` | tusa-8.395/chatserver/global_state.cpp:45-50 | every operation keeps each memo entry equal to the channels recomputed from the record |
| `GlobalState.OverwritingLoadExact` | tusa-8.395/core/oscar_buffer.h:326-337 | were loading to overwrite records, the memo would stay right if and only if every loaded user who is remembered has the remembered channels; inserting only missing records needs no condition |
| `GlobalState.ReadBack` | tusa-8.395/chatserver/global_state.cpp:21-123 | what is read of any user after any operation: what was stored for that user, other fields and users as before, the undefined record after a removal, loaded data only where there was no record |
| `GlobalState.RecordsAfter` | tusa-8.395/chatserver/global_state.cpp:21-123 | for every operation: who has a record afterwards; asking makes one, so that a later load does not replace it |
| `GlobalState.ChannelsReadBack` | tusa-8.395/chatserver/global_state.cpp:125-188 | the channels answered, from the memo or not, are those the record has for that client type, and being in chat is having one |
| `GlobalState.GlobalStore.GetUserChannel` | tusa-8.395/chatserver/global_state.cpp:168-188 | answers from the memo or fills it, as the memo operation says |
| `GlobalState.GlobalStore.Part` | tusa-8.395/chatserver/global_state.cpp:97-104 | forgets the memo, parts, and returns the channels left |
| `GlobalState.GlobalStore.Unpack` | tusa-8.395/chatserver/global_state.cpp:67-71 | inserts exactly the missing records |
| `GlobalState.GlobalStore.SetRecord` | tusa-8.395/chatserver/global_state.cpp:45-50 | stores the record and forgets its memo |
| `GlobalState.GlobalStore.Erase` | tusa-8.395/chatserver/global_state.cpp:106-111 | forgets record and memo |
| `ChatIndex.StepExact` | tusa-8.395/chatserver/user.cpp:2394-2456 | a step keeps both channel indexes equal to the memberships if and only if it is not the echo of a JOIN without a client record, nor the unloading of a user in a channel |
| `ChatIndex.RebuildChangesNothing` | tusa-8.395/chatserver/user.cpp:608-618 | after every safe run the rebuild from scratch finds in every channel what is there |
| `ChatIndex.RunKeepsExact` | tusa-8.395/chatserver/user.cpp:2394-2456 | over every safe run both indexes equal exactly the memberships |
| `ChatIndex.NormalizeFixes` | tusa-8.395/chatserver/user.cpp:2407-2456 | where no channel is blocked, normalising makes one user's entries right in every known channel and touches nothing else |
| `ChatIndex.NormalizeBlocked` | tusa-8.395/chatserver/user.cpp:2443-2450 | where one is blocked, the early return leaves the client out of an index it belongs in |
| `ChatIndex.KickedExact` | tusa-8.395/chatserver/user.cpp:2394-2405 | a kick removes the user from both indexes |
| `ChatIndex.UnloadExact` | tusa-8.395/chatserver/user.cpp:348-361 | unloading keeps the indexes exact if and only if the user is in no channel |
| `ChatIndex.EchoAfterKickIsLost` | tusa-8.395/chatserver/chat_thread.cpp:919-921 | a concrete run: JOIN, kick, and the queued echo of the JOIN |
| `ChatIndex.MembershipAfter` | tusa-8.395/chatserver/user.cpp:751-910 | for every step, user, channel and client type: who is in which channel afterwards |
| `ChatIndex.RecordsAfter` | tusa-8.395/chatserver/user.cpp:348-361 | for every step: whose record is loaded afterwards |
| `ChatIndex.ClientsAfter` | tusa-8.395/chatserver/chat_thread.cpp:867-921 | for every step: which client records there are afterwards |
| `ChatTime.TimeIsAccounted` | tusa-8.395/chatserver/user.cpp:987-1009 | over every run, reported time plus the open interval equals the time in channels plus the time an interval stayed open outside one |
| `ChatTime.QuietTimeIsExact` | tusa-8.395/chatserver/chat_thread.cpp:423-436 | where users leave channels by parting only, reported time plus the open interval is the time in channels |
| `ChatTime.PhantomsExact` | tusa-8.395/chatserver/user.cpp:880-880 | time outside a channel begins to be counted if and only if a user is kicked or flushed out of one |
| `ChatTime.KickedTimeRuns` | tusa-8.395/chatserver/user.cpp:861-880 | a concrete run: ten seconds in a channel, thirty on the account |
| `ChatTime.NobodyInAChannelIsUnloaded` | tusa-8.395/chatserver/chat_thread.cpp:438-447 | in every reachable state, kicks included, the trash sweep leaves users in channels loaded and unchanged |
| `ChatTime.SweepSparesInside` | tusa-8.395/chatserver/chat_thread.cpp:423-447 | and after it nobody's open interval is longer than 100 seconds |
| `ChatTime.SweepExact` | tusa-8.395/chatserver/chat_thread.cpp:423-447 | for every user: the record goes if and only if the user has been outside for more than 10800 seconds, and an open interval is reported and begun anew if and only if it is longer than 100 seconds |
| `ChatTime.UnloadedAfterThreeHours` | tusa-8.395/chatserver/chat_thread.cpp:438-447 | over every run that does not name the user, whatever passes it has: a user found outside every channel keeps the record through the next pass if and only if at most three hours have gone by |
| `ChatTime.HandleSettles` | tusa-8.395/chatserver/user.cpp:987-1009 | the accounting opens, closes or keeps an interval as the user's channels require, loses no time, and is idempotent |
| `ChatTime.EventExact` | tusa-8.395/chatserver/chat_thread.cpp:438-447 | the periodic pass, too, keeps the indexes exact |
| `ChatTime.EventsKeepExact` | tusa-8.395/chatserver/chat_thread.cpp:423-447 | so over every run of safe events both channel indexes stay exact |
| `ChatThread.Thread.NormalizeUserChannels` | tusa-8.395/chatserver/user.cpp:2407-2456 | the loop, with its early return, computes the normalisation |
| `ChatThread.Thread.NormalizeUserChannelsClean` | tusa-8.395/chatserver/user.cpp:2394-2405 | the loop removes one user's entries in the known channels |
| `ChatThread.Thread.OnCommonJoin` | tusa-8.395/chatserver/chat_thread.cpp:867-921 | the handler takes the JOIN step: client first, memberships, indexes, accounting |
| `ChatThread.Thread.StateJoin` | tusa-8.395/chatserver/user.cpp:751-783 | the queued JOIN takes the step without a client record |
| `ChatThread.Thread.StatePart` | tusa-8.395/chatserver/user.cpp:884-910 | PART takes its step and returns the channels left |
| `ChatThread.Thread.StateKick` | tusa-8.395/chatserver/user.cpp:828-881 | KICK takes its step and skips the accounting |
| `ChatThread.Thread.PeriodicPass` | tusa-8.395/chatserver/chat_thread.cpp:423-447 | the two loops compute the periodic pass |
| `ChatThread.Thread.RebuildUsersInChannels` | tusa-8.395/chatserver/user.cpp:608-618 | the nested loops compute the index from the users alone |
| `Roster.ViewIsExact` | tusa-8.395/chatserver/user.cpp:620-726 | after the update a batched user is in a client's view if and only if in the channel and visible to the client, with current nick and status; other entries are unchanged; Roster.WhoIsShown says who is visible |
| `Roster.WhoIsShown` | tusa-8.395/chatserver/chat_thread.cpp:487-519 | by status, invisibility, contacts and gender: who hides from the observer is not shown; of the others a contact is shown under contacts-only, and else whom neither hiding setting excludes; the observer always, if in the channel |
| `Roster.WhoIsRebuilt` | tusa-8.395/chatserver/user.cpp:367-394 | the same of a view rebuilt from scratch |
| `Roster.WhoIsRepaired` | tusa-8.395/chatserver/user.cpp:397-458 | the same of a repaired view; an entry of a user who is not loaded stays, and an entry kept is as it was |
| `RosterBoard.WindowShows` | tusa-8.395/chatserver/user.cpp:620-726 | the same of a client's window after its batch, with the channel as the loaded users' own records have it |
| `Roster.ScreenExact` | tusa-8.395/chatserver/user.cpp:677-689 | replaying the messages sent turns the old view into the new one if and only if nobody still in the channel went out of view under a new nick |
| `Roster.ScreenIs` | tusa-8.395/chatserver/user.cpp:677-689 | for every batch the screen is the new view plus exactly those users |
| `Roster.ListenExact` | tusa-8.395/chatserver/user.cpp:690-719 | for one user, the IRC lines keep the nick list right if and only if a removed user kept the nick, or is still in the channel with another bearer of the new one |
| `Roster.NickListExact` | tusa-8.395/chatserver/user.cpp:690-719 | over a batch the nick list is right after every user if and only if, in the view as it has become by then, no removed user has another nick than shown, or but the nick of another in the channel |
| `Roster.NickListIsRight` | tusa-8.395/chatserver/user.cpp:690-719 | for a batch, if the removed users kept the nick last shown, nobody's lines do harm and the nick list is that of the new view |
| `Roster.RepairExact` | tusa-8.395/chatserver/user.cpp:367-458 | repair and rebuild give the same keys if and only if the old view has only loaded users or the client's own, who is in the channel, or was there and is not loaded |
| `Roster.RepairIsRebuild` | tusa-8.395/chatserver/user.cpp:367-458 | and the same entries if and only if what the repair keeps or takes is what the rebuild shows; the client's own user as its record has it |
| `RosterBoard.RepairedWindowIs` | tusa-8.395/chatserver/user.cpp:397-458 | the loop over all loaded users arrives at the repaired view |
| `RosterBoard.RepairShows` | tusa-8.395/chatserver/user.cpp:428-445 | the messages of a repair always bring the screen to the new view |
| `RosterBoard.RepairHeard` | tusa-8.395/chatserver/user.cpp:446-458 | for one user, the IRC lines of a repair keep the nick list right if and only if a user who is removed has the nick that was shown |
| `RosterBoard.RepairNicksAreRight` | tusa-8.395/chatserver/user.cpp:397-458 | over a whole repair the nick list is that of the repaired view if the users shown have the nicks they are shown under |
| `RosterBoard.WindowKeepsUp` | tusa-8.395/chatserver/user.cpp:676-720 | over a batch a web client's screen stays its view exactly if nobody lingers, an IRC client's nick list if nobody's lines do harm, and neither client is sent what is meant for the other |
| `RosterBoard.Board.RefreshUser` | tusa-8.395/chatserver/user.cpp:630-724 | one observer and one user: the view and the messages, in the order sent; Roster.WhoIsShown says whom the observer sees |
| `RosterBoard.Board.RefreshChannel` | tusa-8.395/chatserver/user.cpp:620-726 | the nested loops refresh every local client of the channel for every batched user, and no other window |
| `RosterBoard.Board.RepairClient` | tusa-8.395/chatserver/user.cpp:397-458 | the incremental repair of one window |
| `RosterBoard.Board.RebuildClient` | tusa-8.395/chatserver/user.cpp:367-394 | the rebuild of one window from scratch |
| `Chunks.ChunkingIndependent` | tusa-8.395/core-web/oscar_client.cpp:226-281 | any stable parser, fed a stream in any pieces, has the messages and the tail of the whole stream |
| `Chunks.FeedLazyConserves` | tusa-8.395/core-web/tcp_oscar_dialog_server.cpp:82-115 | a parser that stops at empty messages loses, doubles and reorders none over any pieces |
| `Chunks.LazyCatchesUp` | tusa-8.395/core-web/tcp_oscar_dialog_server.cpp:82-115 | one pass of it dispatches everything if and only if no message follows an empty one |
| `FrameWrap.ClientChunkingExact` | tusa-8.395/core-web/oscar_client.cpp:226-281 | for every stream: the client has the same packets and tail for every way it is split if and only if no start byte follows a bad byte at a frame boundary, and nothing follows a header whose total wraps |
| `Frames.ClientReceivesWhatIsSent` | tusa-8.395/core/oscar_buffer.cpp:428-451 | whatever packets are encoded and however the bytes arrive, the client has exactly those packets and an empty buffer |
| `Frames.EncodeRoundTrip` | tusa-8.395/core/oscar_buffer.cpp:428-451 | an encoded frame is cut off whole, with its channel, length and payload |
| `Frames.FrameLayout` | tusa-8.395/core/oscar_buffer.h:18-24 | an encoded frame, byte by byte: 22, the channel, the length with its low byte first, the payload |
| `Frames.FrameReads` | tusa-8.395/core-web/oscar_client.cpp:226-281 | what is taken for a frame: exactly what is laid out so, complete, and of a total that fits an int |
| `Frames.ServerConserves` | tusa-8.395/core-web/tcp_oscar_dialog_server.cpp:21-116 | over any pieces, packets dispatched and non-empty ones still in the buffer are the non-empty packets of the stream, with the same tail; bad bytes at a frame boundary included, if no start byte follows |
| `Frames.ServerDispatchesAll` | tusa-8.395/core-web/tcp_oscar_dialog_server.cpp:21-116 | on such streams without empty payloads the server has the packets and the tail that the client has, however the bytes arrive |
| `Frames.ServerPassExact` | tusa-8.395/core-web/tcp_oscar_dialog_server.cpp:82-115 | one pass dispatches all it could if and only if no packet comes after an empty one, bad bytes included |
| `FrameWrap.ClientStuckExact` | tusa-8.395/core-web/oscar_client.cpp:248-258 | for every buffer: the loop does not come back if and only if, after the frames, and after frames that begin within a wrapping header, it comes to a length of 2^32 - 6 |
| `FrameWrap.ServerStuckExact` | tusa-8.395/core-web/tcp_oscar_dialog_server.cpp:26-115 | the server's loop does not come back if and only if it comes to such a length with something after the header, and to no empty payload before |
| `FrameWrap.OneHeaderDecides` | tusa-8.395/core-web/oscar_client.cpp:248-258 | unless a wrapping header has the start byte for its channel, the header after the whole frames decides |
| `FrameWrap.WrappedLengthIsStuck` | tusa-8.395/core-web/oscar_client.cpp:248-258 | the shortest buffer that the client does not come back from |
| `Frames.FlapClient.DoParseBuffer` | tusa-8.395/core-web/oscar_client.cpp:226-281 | the loop computes the client's parse of the buffer |
| `Frames.FlapServer.ProcessBuffer` | tusa-8.395/core-web/tcp_oscar_dialog_server.cpp:21-116 | the loop computes the server's parse of the buffer |
| `Lines.LinesReceived` | tusa-8.395/core-web/tcp_dialog_server.cpp:357-395 | non-empty lines are processed in order however the bytes arrive, and the buffer keeps the incomplete one |
| `Lines.LinesConserved` | tusa-8.395/core-web/tcp_dialog_server.cpp:357-395 | for any stream, commands processed and non-empty ones still in the buffer are those of the stream |
| `Lines.LinePassExact` | tusa-8.395/core-web/tcp_dialog_server.cpp:373-395 | one pass reaches every command if and only if none comes after an empty line |
| `Lines.LineReads` | tusa-8.395/core-web/tcp_dialog_server.cpp:357-370 | a line ends at the first byte 10, which is removed with it |
| `Lines.LineServer.ExtractCommand` | tusa-8.395/core-web/tcp_dialog_server.cpp:357-370 | takes the line up to the first newline, or nothing |
| `Lines.LineServer.ProcessBuffer` | tusa-8.395/core-web/tcp_dialog_server.cpp:373-395 | the loop computes one pass |
| `Search.FindSpec` | tusa-8.395/core-web/c_conn.cpp:268-268 | find() gives the first occurrence, or says that there is none |
| `Inbound.NothingIsLost` | tusa-8.395/core-web/c_conn.cpp:103-223 | over any calls of S_recv and __gets with any answers, what was returned with its delimiters, followed by rd_buf, is what was received, in order |
| `Inbound.GetsCutsAtFirst` | tusa-8.395/core-web/c_conn.cpp:261-354 | a line returned ends at the first delimiter of the byte stream |
| `Inbound.GetsIgnoresChunks` | tusa-8.395/core-web/c_conn.cpp:261-354 | two deliveries of the same bytes give the same line |
| `Inbound.GetsDelivers` | tusa-8.395/core-web/c_conn.cpp:284-352 | without end, error or timeout, a delimiter that comes is found and the line up to it returned |
| `Inbound.EmptyDelimiter` | tusa-8.395/core-web/c_conn.cpp:268-275 | an empty delimiter returns nothing and consumes nothing |
| `Inbound.RecvGives` | tusa-8.395/core-web/c_conn.cpp:103-223 | what is buffered is given first and without asking the kernel, fresh bytes of an open connection at once: as many as asked for or all there are, and the rest is kept |
| `Inbound.ZeroReads` | tusa-8.395/core-web/c_conn.cpp:103-223 | over any number of reads at the end of the stream, the connection is open if and only if the counter has not passed ten |
| `Inbound.ZeroReadsInLine` | tusa-8.395/core-web/c_conn.cpp:284-352 | in one call of __gets the tenth zero-length read does not end the connection and the eleventh does, and nothing is returned |
| `Inbound.ErrorCloses` | tusa-8.395/core-web/c_conn.cpp:103-223 | any other error ends the connection at once, and the buffer stays |
| `Inbound.InSocket.SRecv` | tusa-8.395/core-web/c_conn.cpp:103-223 | returns and keeps what the model of one call says, for every answer |
| `Inbound.InSocket.AwaitLine` | tusa-8.395/core-web/c_conn.cpp:284-352 | the waiting loop, with its counting of zero reads |
| `Multipart.ReceivedFormRoundTrip` | tusa-8.395/core-web/web_connection_ptcp.cpp:195-332 | any list of well-formed parts whose texts avoid the boundary, rendered, received in any pieces and parsed, gives exactly those names, file names, headers and contents |
| `Multipart.FormRoundTrip` | tusa-8.395/core-web/web_connection_ptcp.cpp:217-333 | the same for the body between the boundaries |
| `Multipart.ClosingIsFirst` | tusa-8.395/core-web/web_connection_ptcp.cpp:201-214 | the closing boundary is found first at the end of the parts |
| `Multipart.HeadersRoundTrip` | tusa-8.395/core-web/web_connection_ptcp.cpp:249-278 | the header loop gives back the header lines and the content |
| `Multipart.DispositionRoundTrip` | tusa-8.395/core-web/web_connection_ptcp.cpp:280-321 | name and file name come back from the Content-Disposition line, quotes and all |
| `Multipart.ParametersAreParts` | tusa-8.395/core-web/web_connection_ptcp.cpp:322-330 | where no two assignments have the same key, each part's content, file name and headers are found under its name, and parameters under other names are as before |
| `Multipart.RenderedLayout` | tusa-8.395/core-web/web_connection_ptcp.cpp:249-321 | the text of a part that the round trips are about, literally |
| `Multipart.PiecesGlue` | tusa-8.395/core-web/web_connection_ptcp.cpp:217-248 | for every text: no piece holds the boundary, and the pieces with boundaries between them are the text |
| `Multipart.PutLooks` | tusa-8.395/core-web/web_connection_ptcp.cpp:249-278 | of two header lines with one key the later one counts |
| `Multipart.BadLineSpoils` | tusa-8.395/core-web/web_connection_ptcp.cpp:249-278 | a header line without ": " makes the part a bad one, whatever header lines came before it |
| `Multipart.SpoiltPartEnds` | tusa-8.395/core-web/web_connection_ptcp.cpp:217-333 | a bad part ends the form: the parts before it stay, those after it are not read |
| `Multipart.UnnamedPartIsPassedOver` | tusa-8.395/core-web/web_connection_ptcp.cpp:280-331 | a part without a disposition line is passed over |
| `Multipart.UnquotedValue` | tusa-8.395/core-web/web_connection_ptcp.cpp:304-321 | a value is taken as it stands unless it is longer than two characters and quoted at both ends |
| `Multipart.FormReader.ReadForm` | tusa-8.395/core-web/web_connection_ptcp.cpp:217-333 | the loop assigns what the parts up to the first bad one say, and reports that one |
| `Multipart.ReadSection` | tusa-8.395/core-web/web_connection_ptcp.cpp:249-278 | the header loop consumes input and computes the section |
| `Multipart.SplitFields` | tusa-8.395/core-web/web_connection_ptcp.cpp:283-303 | the loop computes the fields of the disposition |
| `Bans.SecondAnswerIsRight` | tusa-8.395/chatserver/admin_ban.cpp:327-345 | in every reachable state, of two consecutive questions at one time the second says yes if and only if an unexpired ban exists |
| `Bans.CheckExact` | tusa-8.395/chatserver/admin_ban.cpp:327-345 | a yes is always right; a no is wrong exactly when the indexed ban has run out and another is in force; asking removes no ban in force |
| `Bans.RebuiltLooks` | tusa-8.395/chatserver/admin_ban.cpp:189-209 | the rebuilt index names the highest unexpired ban of each channel and user, and nothing else |
| `Bans.RunKeepsInv` | tusa-8.395/chatserver/admin_ban.cpp:133-150 | over every run the index refers to stored bans of the right channel and user, and misses no ban in force |
| `Bans.NextIdIsFresh` | tusa-8.395/chatserver/admin_ban.cpp:674-690 | an id handed out is new and its placeholder changes no answer |
| `Bans.FirstAnswerCanBeWrong` | tusa-8.395/chatserver/admin_ban.cpp:339-343 | a concrete run with a wrong first answer |
| `Bans.BansAfter` | tusa-8.395/chatserver/admin_ban.cpp:133-258 | for every step and ban: which bans are in force afterwards |
| `Bans.RefusedExact` | tusa-8.395/chatserver/admin_ban.cpp:210-246 | which bans are taken, condition by condition; a refused one changes nothing |
| `Bans.RemovedBansNoLonger` | tusa-8.395/chatserver/admin_ban.cpp:133-150 | right after a removal the user is banned if and only if another ban is in force |
| `Bans.AddedBans` | tusa-8.395/chatserver/admin_ban.cpp:247-258 | right after a valid ban its user is banned in its channel, and anybody else if and only if another ban says so |
| `Bans.Registry.RebuildNM` | tusa-8.395/chatserver/admin_ban.cpp:189-209 | the loop computes the index |
| `Bans.Registry.AddKlap` | tusa-8.395/chatserver/admin_ban.cpp:210-258 | stores an acceptable ban and rebuilds, or refuses |
| `Bans.Registry.CheckBanByUid` | tusa-8.395/chatserver/admin_ban.cpp:327-345 | answers and tidies as the model of one question says |
| `RefCount.DeletedExactlyOnce` | tusa-8.395/core/PTR.h:104-163 | over every interleaving with at most 32767 claims on an object, and no handle stored to while it is being assigned from, an object is never deleted twice or while claimed, its counter is the number of claims, and once unclaimed it is deleted or its one delete is pending |
| `RefCount.RunCountsExact` | tusa-8.395/core/PTR.h:104-163 | over every interleaving, without a bound: the counters are the numbers of claims, as signed 16-bit numbers, throughout, if and only if every assignment stores the pointer it counted, and none throws between different objects |
| `RefCount.StepCountsExact` | tusa-8.395/core/PTR.cpp:14-27 | one locked action keeps them so if and only if it is such a one |
| `RefCount.PoliteKeepsSources` | tusa-8.395/core/PTR.h:137-163 | the second read of the other handle gives what the first one gave if nothing else is stored to a handle while it is being assigned from, and only then does it go on to |
| `RefCount.ClaimsChange` | tusa-8.395/core/PTR.h:104-163 | what every action, the throw included, does to the number of handles and assignments that claim an object |
| `RefCount.DecrementExact` | tusa-8.395/core/PTR.h:117-163 | giving one claim up deletes the object if and only if a multiple of 65536 claims is left; it reads as underflow, and makes an assignment throw, if and only if the number left has its sixteenth bit set |
| `RefCount.StepOnce` | tusa-8.395/core/PTR.h:137-163 | each locked action keeps: given up exactly when deleted or about to be, once |
| `RefCount.FittingNeverThrows` | tusa-8.395/core/PTR.h:155-156 | with at most 32767 claims no assignment throws |
| `RefCount.PointedAtIsAlive` | tusa-8.395/core/PTR.h:104-163 | in every such run, what a handle at rest points at is neither deleted nor about to be, and its counter is at least one |
| `RefCount.CopyThenDestroy` | tusa-8.395/core/PTR.h:110-132 | a copy that is destroyed again leaves everything as it was |
| `RefCount.WholeAssignment` | tusa-8.395/core/PTR.h:137-163 | an assignment that nothing comes between: the pointer is the other handle's, the new object is counted once more and the old one once less, the old one is deleted exactly if nobody else claimed it, and between handles of one object nothing changes |
| `RefCount.Getter.Assign` | tusa-8.395/core/PTR.h:137-163 | assignment counts the new object up and the old one down and deletes it on zero; between handles of one object it leaves the count; it throws, and keeps its pointer, if and only if the count comes out negative |
| `RefCount.Getter.Release` | tusa-8.395/core/PTR.h:117-132 | the destructor gives the object back and deletes it on zero |
| `NoteMailbox.Mailbox.FindFolder` | tusa-8.395/chatserver/notes.cpp:1036-1057 | the loop finds the last folder whose filter names the correspondent, or 0 |
| `NoteMailbox.Mailbox.DropFilters` | tusa-8.395/chatserver/notes.cpp:1433-1468 | the loop takes a correspondent out of every folder's filter and logs one command for each removal |
| `NoteMailbox.Mailbox.MakeFolder` | tusa-8.395/chatserver/notes.cpp:536-554 | a new folder takes the next id and its creation is logged |
| `NoteMailbox.Mailbox.RenameShelf` | tusa-8.395/chatserver/notes.cpp:555-568 | renaming changes one name and logs it |
| `NoteMailbox.Mailbox.RemoveShelf` | tusa-8.395/chatserver/notes.cpp:569-585 | a folder with messages is kept and nothing logged; any other is removed and the removal logged, even if it was not there |
| `GlobalState.GlobalStore.InChatAs` | tusa-8.395/chatserver/global_state.cpp:125-167 | says whether the user is in any channel with that client type, and leaves the memo the operation says |
| `ChatThread.Thread.HandleStatTCount` | tusa-8.395/chatserver/user.cpp:987-1009 | opens, closes or keeps the interval, and files or unfiles the user for the trash sweep |
| `ChatThread.Thread.UnloadUser` | tusa-8.395/chatserver/user.cpp:348-361 | forgets the record and touches no index |
| `Bans.Registry.RemoveKlap` | tusa-8.395/chatserver/admin_ban.cpp:133-150 | removes a stored ban and rebuilds, or reports that there is none; afterwards no ban has that id, and all others are as they were |
| `Bans.Registry.GetNextKlapId` | tusa-8.395/chatserver/admin_ban.cpp:674-690 | the loop finds the greatest id; the next one is new and is taken by a placeholder |
| `RefCount.Getter.FromGetter` | tusa-8.395/core/PTR.h:110-116 | a copy points at the same object, counted once more |
| `Inbound.InSocket.GetLine` | tusa-8.395/core-web/c_conn.cpp:261-354 | returns and keeps what the model of one call says, for every sequence of answers |
| `Multipart.ReadNames` | tusa-8.395/core-web/web_connection_ptcp.cpp:304-321 | the loop computes name and file name from the fields |
| `Multipart.FormReader.StorePart` | tusa-8.395/core-web/web_connection_ptcp.cpp:280-331 | makes the assignments of one part, if it has a disposition |
| `RosterBoard.Board.RefreshClient` | tusa-8.395/chatserver/user.cpp:625-725 | the loop over the batch refreshes one window and no other |

## Left out

- SQL, files, attachments, note texts, HTML, templates and messages to users: no state the proofs need.
- Numbers are unbounded except where it matters (frame lengths, the reference counter, user ids in `ck_ban`); the wrap-around of 32-bit ids, of byte counters and of `time_t` is not modelled. Time never runs backwards.
- Locks: a section under one lock is one atomic step, and a handler's eager writes are one step each; the mutex code itself is not modelled.
- `NoteReplay.EagerPlusReplayIsReplay`: compares folders, filters, names, message ids and heads, not the order in which a folder lists its messages; a head made by `operator[]` has one fixed default date.
- `NoteReplay.Announce`: which id `send_system_note` picks for a note is not modelled; the command it queues is.
- `NoteOrder.SortIds`: `std::sort` leaves the order of equal keys open; the model keeps the smaller id first.
- The caching and purging of whole mailboxes by `db_map`: a mailbox, once loaded, stays.
- `SenderThread.Thread.HandleEvents`: and the other loops of the sender thread are runs in which no step of another thread falls between two of the loop's; the machine has those.
- `NoteRuns.Do`: a handler is one step, and between a command and its note_resort a handler sees folders without doubled entries; neither matters to filters.
- `Sender.Next`: the test switch `disable_sender`, the `select` variant of the loop and a failed `accept` (descriptor -1) are not modelled.
- `ChatIndex.Next`: records are named by their ids, so a client record that still points at an unloaded user record is not distinguished from one that points at the current record. A JOIN without a nick returns at once and is no step. `__users_in_channels$` may hold empty sets; the comparison with the rebuilt index is per channel.
- The texts and queues of greetings and farewells, moderators, voices and levels; the nick map `strnick2__u`; the flood counter.
- `ChatTime.NextOf`: the periodic pass may come at any time, not only every 600 seconds; `SET_STATUS` and a refused `SET_NICK` only load the user.
- `Roster.NickListIsRight`: gives a condition that is enough for the end of a batch, where two wrong lines can cancel; `Roster.NickListExact` is exact for the list after every user. A NICK line is taken for the window of one channel, though an IRC client applies it to all.
- The KICK lines that tell IRC clients of a kick, and take the user out of their views at once.
- `Roster.Show`: the browser's script is not part of this model; adding, deleting and changing by user id is assumed.
- `Frames.ServerConserves`: one direction for streams in which a start byte follows a bad byte at a frame boundary, or a header's total wraps: there the pieces decide, as `FrameWrap.ClientChunkingExact` says for the client.
- `Frames.FlapClient.DoParseBuffer`: returns `stuck` where the source goes on for ever.
- `Inbound.Gets`: another thread closing the socket during the wait is not modelled.
- `Multipart.ReceivedFormRoundTrip`: `strupper` is any function; the five-second limits on the loops and the size limit are not modelled.
- `Multipart.ParametersAreParts`: for parts whose parameter names do not coincide; where they do, the later assignment wins.
- Bans: the SQL copy and the replay of ban commands, which does not converge because ids are used again; the administrator's levels.
- `RefCount.Enabled`: a raw pointer is wrapped only while the object is new or held by somebody; two threads do not assign to one handle at once, nor copy a handle that is being assigned to, and a handle outlives the assignments from it.
- `M_DEQUE`, `st_update` and the accept loop have no class of their own: their methods are single steps of the queues in `NoteReplay` and `Sender` (`Send`, `Drain`, `Extract`, `Accept`, `Announce`, `Construct`).
- `PTR_getter_nm` is the same handle without the lock; one class stands for both.
- HTTP headers and URLs, licences, configuration, statistics pages, thread creation.
