# pCern: a verified model of its file server, kernel, network stack and editor

pCern is a small capability-based microkernel in Rust with user-space services. This project models
the parts of it where most can go wrong and proves what they keep, over every input and every run.

**FAT32 file server and the `edit` command.** A disk is a sequence of 512-byte sectors; the FAT,
cluster chains, directory entries and file contents are functions of it (`Fat32Volume`). The server
(`Fat32Server`, `Fat32Root`) reads and writes whole sectors through one buffer, as pCern's
`fs_fat32` service does, and any transfer may fail unless the constant `reliable` is set. Two
invariants are kept: `Sound`, which survives every pattern of failures (chains acyclic, disjoint, in
range; every other file untouched), and `Good`, which holds as long as nothing failed (both FAT copies
equal, sizes covered, directory in step). `Fat32Bytes` says which bytes of the open file survive what.
On top of them the server refines a map from names to byte sequences (`Fat32Names`), and the `edit`
command is proved end to end: what is saved is what the keys typed make of the file's old content
(`EditorSession`, `EditorBuffer`, `PackedName`).

**Kernel.** Scheduler, IPC, capabilities and interrupt forwarding are one state machine
(`KernelState`): a system call, timer tick or device interrupt is one atomic step, and runs are
sequences of steps. `KernelSched` proves the scheduling invariant of every reachable state,
`KernelTurns` round-robin fairness, `KernelMessages` and `KernelAnswers` exactly-once rendezvous in
order, `KernelReturns` what every call and interrupt leaves in the registers and tables of the tasks
it concerns, `KernelAuthority` permanence of revocation and single holders, `KernelIrq` the
mask/acknowledge handshake, `KernelTasks` which tasks a step adds, `KernelGrants` and `KernelMemory`
that memory capabilities name granted frames only and that what a caller is told about memory is what
its page tables show; `KernelBoot` starts from power-on, so that all of this holds of every reachable
state, given that what boot hands out as memory is granted.
`KernelMachine` and `KernelCaps` are the imperative code (tables updated in place, searches, filters
and the revocation work stack as loops), proved to take exactly these steps. `KernelHeap`,
`KernelFrames`, `KernelPaging` and `KernelIoBitmap` cover kernel memory and the I/O permission bitmap.

**Network stack.** `NetTcp` gives one turn of the service's main loop as a function; `NetStack` is the
imperative service proved equal to it. `NetProgress` proves that every client request is answered
at most once, and in bounded time from the round that handles it, `NetStream` that the byte stream
arrives in order and is sent without gaps, `NetSent` the ports, flags and numbers of every segment
sent and the connection's transitions; `NetRuns` has whole client sessions. `NetSegment`,
`NetChecksum` and `NetResponder` cover frames, checksums (RFC 1071, and section 3.1 of RFC 793) and
the ARP/ICMP responder.

Properties that turned out false of the code, each with a failing input and the exact condition under
which it does hold:

- a created name is found again if and only if its first byte is neither 0x00 nor 0xE5
  (`Fat32Directory.CreatedFound`; `NulNameHides` shows a name hiding other files);
- a write keeps its whole splice if and only if `offset + n` stays below 2^32
  (`Fat32Server.WrapExact`; `LastByteLost`);
- opening a name that exists never makes a second file of it: after a failed read it does, and the
  new one hides the old if and only if the old entry does not come before its slot
  (`Fat32Directory.DuplicateExact`; `DeletedSlotHides`);
- creating a file keeps every other file listed: after a failed read of the root's chain it does so if
  and only if their entries come before the cut (`Fat32Directory.CutExact`; `CutLoses`);
- a write keeps the bytes that earlier writes reported, so that a save which reports success has all of
  its buffer in the file. The write's own bytes always read back
  (`Fat32Server.FileServer.WriteFile`). But a failed FAT read in mid-chain links a free cluster there,
  and the file keeps its content if and only if it ends before that place, or within one more cluster
  and the free one happens to hold those bytes (`Fat32Bytes.LinkExact`; `RelinkLoses`: a file of more
  than two clusters on any volume). What a save can lose is one stretch for each such link
  (`EditorSession.Save`);
- an interrupt keeps every line in order if and only if nobody waits on an endpoint that still owes
  another line's acknowledgement (`KernelIrq.ArrivalExact`; `KernelLost.TwoReceiversLoseALine`), an
  exit if and only if it drops no queued interrupt (`KernelIrq.ExitExact`;
  `KernelLost.ExitLosesALine`), and a registration if and only if nothing of the line is outstanding
  (`KernelIrq.RegisterExact`; `KernelLost.RegisteredAgain`);
- the network stack's two-place stash keeps all messages if and only if they fit, and a client that
  sets up and connects without waiting can lose its connect (`NetProgress.StashKeeps`,
  `ThirdMessageDropped`); the source's comment that two is the true maximum is not what the code does;
- a waiting request is handled when its turn in the stash comes, which is in the rounds where the
  card has no frame: a busy card starves it (`NetProgress.StashTurn`, `StashedAnswered`; `BusyStarves`);
- a new connection's stream starts in order if and only if nothing was left in the buffer
  (`NetStream.HandshakeInOrder`; `NetRuns.LeftoverReachable`);
- buffered receive bytes stay in order if and only if the unread part of the shared page is left alone
  (`NetStream.UnreadExact`), which a client is sure of only by not writing into the page while it is
  connected: any write at any offset may hit bytes that have just arrived
  (`NetRuns.StillClientInOrder`, `AnyWriteRisks`; `SendBreaksStream`);
- rounding an address up stays above it, and an allocation leaves the heap intact, if and only if a
  whole alignment unit fits below 4 GiB (`KernelHeap.AlignExact`, `Heap.FindRegion`; `AlignWraps`).

Sector I/O, frames received, client and device behaviour and the loader's answers are parameters.
Integer wrap-around is written out where the source's width matters.

## Model

| member | source | states |
|---|---|---|
| Fat32Volume.ClaimKeeps | userland/services/fs_fat32/src/main.rs:323-337 | marking a free cluster end-of-chain adds a one-cluster chain and keeps all chains linked and disjoint |
| Fat32Volume.LinkKeeps | userland/services/fs_fat32/src/main.rs:298-317 | linking a chain's last cluster to a claimed one joins the two chains and keeps the graph sound, also when the link is written in mid-chain after a failed read |
| Fat32Volume.ClaimTracks | userland/services/fs_fat32/src/main.rs:323-337 | claiming a cluster keeps every cluster in use on a recorded chain |
| Fat32Volume.LinkTracks | userland/services/fs_fat32/src/main.rs:298-317 | so does linking, wherever the link is written: the part cut off stays a chain of its own |
| Fat32Volume.Low28Masks | userland/services/fs_fat32/src/main.rs:283-317 | the link part of a FAT word is what masking with 0x0FFF_FFFF leaves |
| Fat32Volume.ChainIs | userland/services/fs_fat32/src/main.rs:262-277 | following the FAT from a chain's head yields exactly that chain, so walks terminate |
| Fat32Volume.FatAfterSet | userland/services/fs_fat32/src/main.rs:298-317 | the sector-level rewrite of one FAT copy changes one entry's link and no entry's top four bits |
| Fat32Volume.FatBytes | userland/services/fs_fat32/src/main.rs:283-292 | the link of a cluster is the low 28 bits of the four bytes, low end first, at its place in the first FAT copy |
| Fat32Volume.EntryBytes | userland/services/fs_fat32/src/main.rs:344-380 | start and size of an entry are at bytes 26, 20 and 28 of its record, low end first |
| Fat32Volume.ContentSplice | userland/services/fs_fat32/src/main.rs:519-591 | patching one sector of a chain splices the file content it stores |
| Fat32Volume.ContentCut | userland/services/fs_fat32/src/main.rs:550-564 | sectors cut off and replaced by any others, of any length: the content is the same if and only if it ends before the cut or the others hold what was behind it |
| Fat32Bytes.KeptBytes | userland/services/fs_fat32/src/main.rs:550-564 | whatever became of the chain behind its first clusters, the bytes in those read as before |
| Fat32Bytes.StoredPatched | userland/services/fs_fat32/src/main.rs:566-583 | a patched sector reads back, and every other byte reads as before, also in a file whose recorded size exceeds its chain |
| Fat32Bytes.LinkExact | userland/services/fs_fat32/src/main.rs:550-564 | linking a free cluster in mid-chain keeps the file's bytes if and only if they end before it, or within one more cluster and that cluster happens to hold them |
| Fat32Bytes.RelinkLoses | userland/services/fs_fat32/src/main.rs:550-564 | on any volume, a file that reaches into its third cluster loses bytes when a free cluster is linked behind its first, whatever is written afterwards |
| Fat32Steps.FatStep | userland/services/fs_fat32/src/main.rs:298-337 | any FAT update that rewires only the open file's chain keeps the structure and every other file |
| Fat32Steps.DataStep | userland/services/fs_fat32/src/main.rs:519-591 | a data write into the open file's chain keeps the structure and every other file |
| Fat32Steps.DirentStep | userland/services/fs_fat32/src/main.rs:428-438 | rewriting the open file's entry keeps every other file and brings the directory in step |
| Fat32Steps.Finish | userland/services/fs_fat32/src/main.rs:519-591 | the directory update completes a write: the volume is consistent again |
| Fat32Steps.TruncateGood | userland/services/fs_fat32/src/main.rs:601-610 | a persisted smaller size leaves the old content cut short on a consistent volume |
| Fat32Server.FileServer.ReadFatEntry | userland/services/fs_fat32/src/main.rs:283-292 | the entry of the primary FAT, or nothing if the read fails |
| Fat32Server.FileServer.NextCluster | userland/services/fs_fat32/src/main.rs:262-277 | the next cluster of a chain; nothing at its end or on a failed read |
| Fat32Server.FileServer.WriteFatEntry | userland/services/fs_fat32/src/main.rs:298-317 | both copies are updated in order; a failure leaves a prefix of the updates |
| Fat32Server.FileServer.AllocCluster | userland/services/fs_fat32/src/main.rs:323-337 | claims the lowest free cluster; without failures it fails only if none is free |
| Fat32Server.FileServer.WriteDirentUpdate | userland/services/fs_fat32/src/main.rs:428-438 | start and size of the open file persisted, nothing else changed; failure leaves the disk as it was |
| Fat32Server.FileServer.ReadFile | userland/services/fs_fat32/src/main.rs:482-511 | on every sound volume, also after failed transfers: the stored content at the offset, as much as asked for or up to the end of the sector or of the file; 0 only past the end, for an empty request or on a failed transfer |
| Fat32Server.FileServer.WriteFile | userland/services/fs_fat32/src/main.rs:519-591 | under any failures every other file and the chain structure are kept, no cluster in use is lost track of, bytes reported as written read back and the directory is in step then, and the open file's other bytes are kept up to the place where a failed FAT read cut its chain; uncut, the write is a splice; without failures nothing is cut, at most one cluster is claimed, 0 is returned exactly for an offset past the end, an empty request or a full disk, and the volume stays consistent |
| Fat32Server.FileServer.TruncateFile | userland/services/fs_fat32/src/main.rs:601-610 | shrinks to exactly the requested prefix, also of a file whose recorded size exceeds its chain, never grows; every other file kept under any failures, and the directory in step if it reports success |
| Fat32Server.WrapExact | userland/services/fs_fat32/src/main.rs:519-591 | a write stores exactly the splice if and only if its end stays below 2^32 |
| Fat32Server.LastByteLost | userland/services/fs_fat32/src/main.rs:583-590 | an append that reaches 2^32 is counted as written and the content stays as it was; of the largest file this is so for the next byte |
| Fat32Directory.CreatedFound | userland/services/fs_fat32/src/main.rs:445-478 | a created name is found at its slot if and only if its first byte is neither marker |
| Fat32Directory.CreatedOthers | userland/services/fs_fat32/src/main.rs:388-424 | creating in the first free slot changes no other name's lookup and keeps the end-of-directory invariant |
| Fat32Directory.NulNameHides | userland/services/fs_fat32/src/main.rs:445-455 | a concrete name starting with 0x00 whose creation hides another file |
| Fat32Directory.DuplicateExact | userland/services/fs_fat32/src/main.rs:344-478 | a search that failed makes a second entry of the name; the name then leads to the new file if and only if the old entry does not come before the slot |
| Fat32Directory.DeletedSlotHides | userland/services/fs_fat32/src/main.rs:344-478 | a directory with a deleted entry before the file, where the new empty file hides it |
| Fat32Directory.CutOthers | userland/services/fs_fat32/src/main.rs:388-424 | every other name is found where it was, unless the directory was cut before its entry; then it is not found |
| Fat32Directory.CutExact | userland/services/fs_fat32/src/main.rs:388-424 | a listed file is still listed after a cut if and only if its entry comes before it |
| Fat32Directory.CutLoses | userland/services/fs_fat32/src/main.rs:388-424 | a directory where a cut loses a file |
| Fat32Directory.RootGrown | userland/services/fs_fat32/src/main.rs:388-424 | extending the root chain by a zeroed cluster appends blank entries and keeps every file and the volume invariant |
| Fat32Root.FindInRoot | userland/services/fs_fat32/src/main.rs:344-380 | a result is the first live entry of that name; without failures a miss means it is not there |
| Fat32Root.FindFreeRootSlot | userland/services/fs_fat32/src/main.rs:388-424 | the first free slot, the directory extended if full, lookups and files unchanged; under any failures every file keeps its content, the entries before the place where the search gave up are kept, and the slot is none of theirs |
| Fat32Root.WriteNewDirent | userland/services/fs_fat32/src/main.rs:445-455 | the 32-byte record of an empty file at the given place, nothing else changed |
| Fat32Survival.GrowthSurvives | userland/services/fs_fat32/src/main.rs:388-424 | whatever was claimed, linked in mid-chain or half zeroed: every file keeps chain and content, the entries before the cut are kept, and there is a cut only behind a full part of the directory |
| Fat32Survival.EntrySurvives | userland/services/fs_fat32/src/main.rs:445-478 | writing a new entry at a slot that is none of theirs keeps them all |
| Fat32Survival.CutRoot | userland/services/fs_fat32/src/main.rs:388-424 | a zeroed cluster linked in mid-chain leaves the entries before the cut, followed by blank ones |
| Fat32Survival.CutListed | userland/services/fs_fat32/src/main.rs:388-478 | a new entry in such a directory leaves nothing listed behind its end mark |
| Fat32Root.OpenOrCreate | userland/services/fs_fat32/src/main.rs:460-478 | on any sound structure, so also after failed transfers: a file that was opened is open on a sound volume, as found or as a new entry with exactly the effect on lookups stated above, every file keeps its content, and its entry unless the directory was cut before it; on a consistent volume and without failures the name ends up open and found at its slot, every other name finds what it found before with the same content, and it fails only if missing and not to be created, or the disk is full |
| Fat32Names.UpdateOneName | userland/services/fs_fat32/src/main.rs:519-610 | on the map of names, writing or truncating changes the open file's name only |
| Fat32Names.OpenOneName | userland/services/fs_fat32/src/main.rs:460-478 | on the map of names, opening changes nothing but may add an empty file |
| Fat32Names.OtherNamesKept | userland/services/fs_fat32/src/main.rs:519-610 | under any failures every name but the open file's keeps its content |
| Fat32Names.AnyhowNames | userland/services/fs_fat32/src/main.rs:460-610 | an open and any updates after it, under any failures: every other name keeps its content, or is gone if the directory was cut before its entry |
| EditorSession.Load | userland/bin/shell/src/editor.rs:62-78 | under any failures the editor holds a prefix of what is stored; without failures all of it, cut at 64 KiB, and the warning is given exactly then |
| EditorSession.Keys | userland/bin/shell/src/editor.rs:86-92 | the buffer is the text after all keys before the first Ctrl-S or Ctrl-Q |
| EditorSession.Save | userland/bin/shell/src/editor.rs:97-122 | terminates and keeps every other file under any failures; when it reports success the file and its directory entry have the buffer's length and its bytes, whatever the file held before, except in one stretch per cut of its chain, from a cluster boundary to where the save had got; without failures nothing is cut and it fails only for want of a free cluster |
| PackedName.Pack | userland/libpcern/src/lib.rs:155-171 | the two loops give the upper-case base and extension, cut at 8 and 3 bytes and filled with spaces |
| PackedName.PackedBytes | userland/libpcern/src/lib.rs:155-171 | byte by byte: eight from before the first dot, three from behind it, letters in their large form, spaces for the rest |
| PackedName.OrdinaryExact | userland/libpcern/src/lib.rs:155-171 | a typed name is stored with a marker byte first if and only if it starts with one, which no key does |
| PackedName.TypedExact | userland/libpcern/src/lib.rs:155-171 | exactly the stored names without lower-case letters, and without a dot in the base, can be reached by typing |
| EditorSession.Run | userland/bin/shell/src/editor.rs:40-126 | end to end on the map of names: the saved content is what the typed keys make of the old content, a discarded session changes nothing, no other name changes; under any failures, and on a volume that has seen some, the volume stays sound once the file is open, every other name keeps its content unless the directory was cut before its entry, and a saved file is what the keys make of the part that could be read, except in one stretch per cut of its chain |
| EditorBuffer.Editor.AppendLoaded | userland/libpcern/src/editor.rs:111-118 | appends what fits and says whether all did |
| EditorBuffer.Editor.StartOf | userland/libpcern/src/editor.rs:120-127 | the position after the last newline before |
| EditorBuffer.Editor.EndOf | userland/libpcern/src/editor.rs:129-136 | the position of the next newline, or the end |
| EditorBuffer.Editor.InsertByte | userland/libpcern/src/editor.rs:138-155 | shifting in place equals insertion into the sequence at the cursor |
| EditorBuffer.Editor.BackspaceKey | userland/libpcern/src/editor.rs:157-171 | shifting in place equals removal before the cursor |
| EditorBuffer.Editor.DeleteForward | userland/libpcern/src/editor.rs:173-186 | shifting in place equals removal at the cursor |
| EditorBuffer.Editor.ApplyKey | userland/libpcern/src/editor.rs:192-232 | every key does to the buffer what it does to the sequence with a cursor |
| EditorBuffer.EditedKeeps | userland/libpcern/src/editor.rs:192-232 | after any keys: cursor within the text, text within 64 KiB |
| EditorBuffer.TypedKey | userland/libpcern/src/editor.rs:138-155 | a printable byte, tab or newline stands at the cursor afterwards, every other byte is kept in order and the cursor is one further; a full buffer takes none |
| EditorBuffer.ErasingKeys | userland/libpcern/src/editor.rs:157-186 | Delete takes exactly the byte at the cursor, Backspace exactly the one before it; at the ends nothing changes |
| EditorBuffer.MovingKeys | userland/libpcern/src/editor.rs:196-199 | Left and Right move by one within the text, Home and End to the newlines around the cursor; the text stays |
| EditorBuffer.OtherKeys | userland/libpcern/src/editor.rs:192-232 | every other key but Up and Down changes nothing |
| EditorBuffer.TypedText | userland/libpcern/src/editor.rs:192-232 | a whole text typed, as long as it fits, stands where the cursor was |
| EditorBuffer.EditedFrom | userland/libpcern/src/editor.rs:192-232 | after any keys every byte of the text was there before or was typed |
| EditorBuffer.TypeThenBackspace | userland/libpcern/src/editor.rs:138-171 | typing then Backspace is the identity unless the buffer is full |
| EditorBuffer.UpThenDown | userland/libpcern/src/editor.rs:200-220 | Up then Down returns to the start if and only if the line above is at least as long as the column |
| EditorBuffer.UpOneRow | userland/libpcern/src/editor.rs:200-209 | Up moves exactly one line, to the same column or that line's end |
| EditorBuffer.DownOneRow | userland/libpcern/src/editor.rs:210-220 | Down moves exactly one line, to the same column or that line's end |
| KernelSched.StepKeeps | kernel/src/scheduler.rs:51-241 | every step keeps: one Running task, the current one; the ready queue is each Ready task once; each Blocked task owns exactly one pending record; no missed rendezvous; no failed pop |
| KernelSched.RunKeeps | kernel/src/scheduler.rs:51-241 | the same over every run |
| KernelSched.StartEstablishes | kernel/src/scheduler.rs:104-118 | starting the scheduler establishes the invariant |
| KernelSched.FailAllKeeps | kernel/src/ipc.rs:316-355 | failing the waiters of a task that exits keeps queue, states and records in step |
| KernelTurns.StepAdvances | kernel/src/scheduler.rs:123-241 | a step pops at most one task, at the front, and pushes only at the back |
| KernelTurns.Turn | kernel/src/scheduler.rs:51-241 | a task at position p of the queue runs after exactly p + 1 switches, whatever happens in between |
| KernelMessages.StepConserves | kernel/src/ipc.rs:104-355 | per endpoint, pending plus submitted equals decided plus still pending, in order |
| KernelMessages.RunConserves | kernel/src/ipc.rs:104-355 | over any run each message is delivered once, failed once or pending, in submission order |
| KernelAnswers.StepSeen | kernel/src/ipc.rs:104-355 | a delivered message is in its receiver's registers and table and the sender gets 0; a failed one gives its sender the failure value; nobody else's registers change |
| KernelAnswers.ExitAnswers | kernel/src/ipc.rs:316-355 | an exit answers everyone waiting on an endpoint of the task that leaves with a failure |
| KernelAnswers.AnswerStays | kernel/src/ipc.rs:104-137 | a woken task finds its result untouched when it next runs, however late |
| KernelReturns.SendReturns | kernel/src/syscall.rs:86-109 | a send's three words reach the first receiver's registers behind the sender's number, with a derived copy of the capability named, same object and badge, in its next slot, and the sender gets 0; without a receiver the sender waits with the message queued |
| KernelReturns.EventSeen | kernel/src/ipc.rs:189-208 | a receive or poll that finds no message gets the oldest queued interrupt of its endpoint: 0, line, data, 0 in the four registers |
| KernelReturns.EmptyReturns | kernel/src/ipc.rs:217-275 | with nothing there a poll fails at once, and a receive waits while the next task runs |
| KernelReturns.ReceiveArms | kernel/src/ipc.rs:217-232 | receiving unmasks exactly the line last delivered on the endpoint, and the cascade line with one of the second controller |
| KernelReturns.LineSeen | kernel/src/irq.rs:65-71 | a device line is masked, and the first receiver on its endpoint becomes ready with 0, line, data, 0 in the four registers, everything else kept; without one it queues last |
| KernelReturns.KeySeen | kernel/src/keyboard.rs:13-20 | so does the keyboard as line 1, without masking |
| KernelReturns.PlainReturns | kernel/src/syscall.rs:82-194 | yielding returns 0, asking for one's number returns it, an unknown call fails |
| KernelReturns.RegisterReturns | kernel/src/syscall.rs:124-134 | 0 if and only if the slot holds the right to one of the lines, which then goes to the named endpoint and is unmasked |
| KernelReturns.MapReturns | kernel/src/syscall.rs:135-144 | 0 if and only if the slot holds memory and the pager could map it |
| KernelReturns.SpawnReturns | kernel/src/syscall.rs:145-155 | the new task's number, or 0; the task is last in the queue, with empty registers and its capability to the name service |
| KernelReturns.EndpointReturns | kernel/src/syscall.rs:156-160 | the slot of a new capability to a new endpoint of the caller |
| KernelReturns.MintReturns | kernel/src/syscall.rs:161-170 | the slot of a copy with the badge asked for, recorded as derived; a failure without a live capability |
| KernelReturns.AllocReturns | kernel/src/syscall.rs:297-346 | the slot of a capability to the frames obtained and their address, or 0 and 0 |
| KernelReturns.RevokeReturns | kernel/src/syscall.rs:171-181 | 0, and no table changes |
| KernelReturns.RefusedReturns | kernel/src/syscall.rs:86-122 | sending to or receiving from what is not an endpoint fails, a poll with a value of its own |
| KernelCaps.CapTable.MintRoot | kernel/src/cap.rs:84-94 | appends an unrevoked root node |
| KernelCaps.CapTable.MintDerived | kernel/src/cap.rs:102-120 | succeeds exactly for a live parent and appends its child |
| KernelCaps.CapTable.Revoke | kernel/src/cap.rs:148-161 | the work stack terminates and marks exactly the target and its transitive descendants |
| KernelCaps.RevokedBelow | kernel/src/cap.rs:148-161 | everything derived from a revoked node is revoked |
| KernelCaps.DerivedKind | kernel/src/cap.rs:102-120 | a copy of a copy names the same object |
| KernelAuthority.StepSound | kernel/src/syscall.rs:75-193 | every step keeps the derivation table sound, never un-revokes or alters a node, and keeps each node in at most one table slot or one message in flight |
| KernelAuthority.RunSound | kernel/src/syscall.rs:75-193 | the same over every run |
| KernelAuthority.RevokeExact | kernel/src/syscall.rs:171-181 | revoking a slot stops exactly the target and its descendants from resolving |
| KernelAuthority.RevocationLasts | kernel/src/cap.rs:148-161 | in every later state nothing derived from a revoked node, before or after, resolves: in no table and in no message in flight |
| KernelAuthority.UniqueDelivers | kernel/src/ipc.rs:165-187 | a transferred capability moves from its message to one slot of the receiver |
| KernelIrq.TakeAckKeeps | kernel/src/ipc.rs:216-245 | a receive re-arms exactly the acknowledged line |
| KernelIrq.ArrivalExact | kernel/src/ipc.rs:283-305 | an interrupt keeps all lines in order if and only if it overwrites no owed acknowledgement |
| KernelIrq.StepHandshake | kernel/src/irq.rs:23-71 | every disciplined step (one receiver per endpoint, no registration of a line with a notification outstanding, no exit with a queued interrupt of one's own) keeps: a registered line is unmasked with nothing outstanding or masked with exactly one notification outstanding |
| KernelIrq.RunHandshake | kernel/src/irq.rs:23-71 | the same over every disciplined run |
| KernelIrq.ExitExact | kernel/src/ipc.rs:316-355 | an exit keeps all lines in order if and only if no interrupt of a forwarded line is queued on an endpoint of the task that leaves |
| KernelIrq.RegisterExact | kernel/src/irq.rs:23-32 | a registration keeps all lines in order if and only if no notification of that line is outstanding |
| KernelLost.MuteLasts | kernel/src/ipc.rs:216-305 | a masked line with nothing outstanding stays so over every run that does not register it again |
| KernelLost.ExitLosesALine | kernel/src/ipc.rs:316-355 | from power-on, a run in which a driver exits with its interrupt queued and the line is lost for good |
| KernelLost.TwoReceiversLoseALine | kernel/src/ipc.rs:283-305 | from power-on, a run in which two tasks wait on one endpoint, two lines fire and the first is lost for good |
| KernelLost.RegisteredAgain | kernel/src/irq.rs:23-32 | from power-on, a run in which a driver registers its line again with an interrupt queued, and the line fires a second time |
| KernelBoot.BootKeeps | kernel/src/main.rs:131-313 | spawning, endpoints and grants in any order keep every task ready and queued once, the capability table sound and every line silent |
| KernelBoot.StartSound | kernel/src/main.rs:131-313 | starting the scheduler then establishes the scheduling, capability and interrupt invariants |
| KernelBoot.Reachable | kernel/src/main.rs:131-313 | after any boot and any run from it the scheduling and capability invariants hold, and the interrupt handshake if the run is disciplined |
| KernelGrants.RunGranted | kernel/src/syscall.rs:297-346 | over every run each memory capability names a range handed out before or by the allocator's answer to a system call |
| KernelGrants.MappableGranted | kernel/src/syscall.rs:252-275 | from power-on, a memory capability that resolves names granted frames only, if what boot and the allocator handed out was granted; KernelMemory.System.Trap provides the allocator's part |
| KernelTasks.StepTasks | kernel/src/scheduler.rs:51-57 | a step adds one task, under the next number, if it is a spawn that loads, and no other step adds or removes any |
| KernelMemory.BootOwned | kernel/src/main.rs:131-313 | after any boot the invariants hold and every memory capability is within the grants, if what boot handed out is |
| KernelMemory.System.Trap | kernel/src/syscall.rs:252-346 | from boot on, for every call of any task but the idle one: memory capabilities stay within the granted frames and every task that can call has a page directory of its own; mapping returns 0 if and only if the slot holds memory and the request is aligned, not empty and below the kernel half, and then exactly those pages show exactly those frames; allocation returns the slot and address of frames that were free and are now shown, or 0; a new task has an empty space; no other translation changes |
| KernelMemory.System.Interrupt | kernel/src/irq.rs:65-71 | so does every interrupt |
| KernelMemory.System.NamesNoTable | kernel/src/syscall.rs:297-346 | hence no memory capability, in any state those methods lead to, names the frame of a page directory or page table |
| KernelMachine.Machine.SendMessage | kernel/src/ipc.rs:104-137 | is the send of the model |
| KernelMachine.Machine.TryDeliver | kernel/src/ipc.rs:165-210 | delivers the oldest pending send, else the oldest queued interrupt, exactly when there is one |
| KernelMachine.Machine.NotifyInterrupt | kernel/src/ipc.rs:283-305 | is the notification of the model |
| KernelMachine.Machine.RetireTask | kernel/src/ipc.rs:316-355 | the three filters with wake-ups inside equal the model's retirement |
| KernelMachine.Machine.SyscallDispatch | kernel/src/syscall.rs:75-193 | the dispatcher equals the model's system call on all registers |
| KernelMachine.Machine.Perform | kernel/src/syscall.rs:75-193 | every operation of the machine is the model's step, so what runs keep holds of it |
| KernelHeap.Heap.constructor | kernel/src/mm/heap.rs:117-121 | one free block tiles the region |
| KernelHeap.Heap.AddFreeRegion | kernel/src/mm/heap.rs:40-51 | pushes a block; drops it only below the header size |
| KernelHeap.Heap.FindRegion | kernel/src/mm/heap.rs:60-102 | fails, changing nothing, exactly when no free block passes the test; if the first that passes does not wrap, the result is the lowest aligned place in it, was not live, what is left around it stays free, and free and live blocks still tile the region; if it wraps, address 0 is handed out and the headers describe no heap any more, whatever is taken to be free or live |
| KernelHeap.Heap.Alloc | kernel/src/mm/heap.rs:131-138 | the same for the rounded request, less than one unit more than asked, and any power-of-two alignment |
| KernelHeap.Heap.Dealloc | kernel/src/mm/heap.rs:140-147 | gives back exactly what the request reserved; the tiling is kept |
| KernelHeap.LeftoversAreUnits | kernel/src/mm/heap.rs:76-93 | what is left around an allocation is nothing or whole units: no sliver is dropped |
| KernelHeap.Recut | kernel/src/mm/heap.rs:60-102 | moving an allocation from the free to the live side keeps an exact tiling |
| KernelHeap.FitsExact | kernel/src/mm/heap.rs:60-102 | the test passes if and only if some aligned address in the block leaves room for the request |
| KernelHeap.DownMasks | kernel/src/mm/heap.rs:53-55 | masking takes off the remainder by the alignment |
| KernelHeap.AlignExact | kernel/src/mm/heap.rs:53-55 | rounding up stays above the address if and only if it does not wrap; otherwise it gives 0 |
| KernelHeap.AlignWraps | kernel/src/mm/heap.rs:53-55 | a concrete address and alignment that wrap |
| KernelFrames.Bitmap.constructor | kernel/src/mm/frame.rs:43-55 | everything below the kernel's end is used, the rest free |
| KernelFrames.Bitmap.SetUsed | kernel/src/mm/frame.rs:24-30 | the byte update changes exactly one frame's bit |
| KernelFrames.Bitmap.ReserveRange | kernel/src/mm/frame.rs:59-67 | marks exactly the frames the range touches |
| KernelFrames.Bitmap.AllocFrame | kernel/src/mm/frame.rs:70-80 | the lowest free frame; fails only if all are used |
| KernelFrames.Bitmap.AllocContiguous | kernel/src/mm/frame.rs:103-127 | the lowest run of that length; fails, changing nothing, exactly if there is none |
| KernelFrames.Bitmap.FreeContiguous | kernel/src/mm/frame.rs:132-139 | frees exactly the run |
| KernelFrames.AllocThenFree | kernel/src/mm/frame.rs:103-139 | freeing a run just allocated restores the bitmap |
| KernelPaging.MapChangesOne | kernel/src/mm/paging.rs:135-190 | mapping a page gives it exactly the requested translation and changes no other translation in any address space, even when the directory's user bit is raised |
| KernelPaging.TableTranslates | kernel/src/mm/paging.rs:162-183 | making a page table or raising its user bit changes no translation |
| KernelPaging.UserReach | kernel/src/mm/paging.rs:135-190 | user code reaches granted frames only, never the kernel half and never a directory or page-table frame |
| KernelPaging.KernelHalfShared | kernel/src/mm/paging.rs:109-122 | entries 768 to 1023 equal the boot directory in every address space |
| KernelPaging.Pager.NewDirectory | kernel/src/mm/paging.rs:109-122 | a fresh address space, empty below the kernel half; all others unchanged |
| KernelPaging.Pager.MapPage | kernel/src/mm/paging.rs:135-190 | the in-place update has exactly that effect; large entries are never hit |
| KernelPaging.Pager.MapMemory | kernel/src/syscall.rs:252-275 | refuses exactly unaligned, empty and out-of-bounds requests; otherwise maps the whole range and nothing else |
| KernelPaging.Pager.MemAlloc | kernel/src/syscall.rs:297-346 | rejects exactly unaligned and out-of-bounds requests, fails exactly if there is no run of free frames, neither changing anything; otherwise the frames mapped and granted were in use for nothing before |
| KernelIoBitmap.IoBitmap.SetPermissions | kernel/src/gdt.rs:235-257 | the partial reset always equals a full rebuild |
| KernelIoBitmap.RebuiltExact | kernel/src/gdt.rs:235-257 | a port is allowed exactly when it is in the last list |
| NetChecksum.Accumulate | userland/services/netstack/src/proto.rs:60-70 | adds the big-endian words, an odd last byte as a high byte |
| NetChecksum.OddPadded | userland/services/netstack/src/proto.rs:60-70 | an odd number of bytes sums as if a zero byte followed |
| NetChecksum.Finish | userland/services/netstack/src/proto.rs:74-79 | the fold loop terminates with the complement of the one's-complement sum |
| NetChecksum.Completed | userland/services/netstack/src/proto.rs:51-79 | a sum completed by its checksum verifies at the receiver |
| NetSegment.BuildSegment | userland/services/netstack/src/tcp.rs:50-112 | the buffer holds exactly the frame for the segment |
| NetSegment.ChecksumsVerify | userland/services/netstack/src/tcp.rs:92-109 | for every payload, odd lengths included, the IPv4 header and the TCP pseudo-header plus segment leave residual 0 |
| NetSegment.FrameLayout | userland/services/netstack/src/tcp.rs:50-112 | every field of a frame is at its place, big end first, and the padding is zero |
| NetSegment.RoundTrip | userland/services/netstack/src/tcp.rs:120-162 | parsing a built, padded frame returns exactly the segment |
| NetSegment.ParsePrefix | userland/services/netstack/src/tcp.rs:120-162 | bytes past the received length play no part |
| NetSegment.PadToMinFrame | userland/services/netstack/src/proto.rs:112-119 | zero-fills up to the Ethernet minimum only |
| NetResponder.BuildArpRequest | userland/services/netstack/src/proto.rs:233-249 | the buffer holds exactly the ARP request |
| NetResponder.HandleArp | userland/services/netstack/src/proto.rs:126-158 | answers exactly the requests for this host, in place; anything else is left alone |
| NetResponder.ArpResolves | userland/services/netstack/src/proto.rs:126-278 | only the target recognises a request, and the asker reads the target's address out of the answer |
| NetResponder.HandleEcho | userland/services/netstack/src/proto.rs:168-225 | answers exactly echo requests to this host, in place |
| NetResponder.EchoVerifies | userland/services/netstack/src/proto.rs:168-225 | both checksums of an answer verify; identifier, sequence and data come back unchanged; addresses are swapped |
| NetResponder.HandleFrame | userland/services/netstack/src/proto.rs:94-106 | answers if and only if the frame is an ARP request for this host or an echo request to it, in place; other frames are left alone |
| NetResponder.EchoExact | userland/services/netstack/src/proto.rs:168-225 | an ICMP packet is answered if and only if its type and code are an echo request's and it is for this host |
| NetResponder.ArpExact | userland/services/netstack/src/proto.rs:126-158 | an ARP packet is answered if and only if it is a request for this host's address |
| NetResponder.AnswersEnd | userland/services/netstack/src/proto.rs:94-106 | no answer is answered by any host |
| NetProgress.RoundSteps | userland/services/netstack/src/main.rs:216-258 | one round: requests taken are answered or owed, a pending operation keeps a live connection in a matching state and gets closer to its end |
| NetProgress.AnsweredOnce | userland/services/netstack/src/main.rs:216-258 | over any run every request is answered once or is the one still owed |
| NetProgress.AnsweredInTime | userland/services/netstack/src/main.rs:216-258 | a request being worked on gets its one reply within 2 * MAX_ATTEMPTS + 1 rounds |
| NetProgress.StashTurn | userland/services/netstack/src/main.rs:297-304 | a waiting message moves up by one per message handled and by nothing else, and is itself the one handled when its turn comes |
| NetProgress.StashedAnswered | userland/services/netstack/src/main.rs:216-258 | the request at position p of the stash is answered once, within 2 * MAX_ATTEMPTS + 2 rounds from the one that handles the (p + 1)-th message, and not before it |
| NetProgress.BusyStarves | userland/services/netstack/src/main.rs:228-235 | a broadcast that is nobody's, delivered in every round, keeps a waiting request waiting for any number of rounds |
| NetProgress.FreshServes | userland/services/netstack/src/main.rs:208-214 | the service as it starts meets the conditions of these results |
| NetProgress.RoundTruthful | userland/services/netstack/src/main.rs:358-376 | the reply says what happened: established or not, bytes handed over, closed |
| NetProgress.StashKeeps | userland/services/netstack/src/main.rs:274-305 | messages are all kept if and only if they fit; otherwise the newest are dropped |
| NetProgress.ThirdMessageDropped | userland/services/netstack/src/main.rs:260-295 | set-up and connect arriving in one wait lose the connect |
| NetStream.RoundInOrder | userland/services/netstack/src/main.rs:628-662 | one round keeps bytes handed over plus bytes buffered a prefix of the peer's stream, with the receive number to match |
| NetStream.StreamInOrder | userland/services/netstack/src/main.rs:628-662 | the same over any fair run |
| NetStream.HandshakeInOrder | userland/services/netstack/src/main.rs:586-612 | the handshake starts the stream in order if and only if nothing is buffered |
| NetRuns.LeftoversHandedOut | userland/services/netstack/src/main.rs:401-424 | bytes left from an earlier connection are what the first receive on a new one gets |
| NetRuns.LeftoverReachable | userland/services/netstack/src/main.rs:401-474 | a polite client's run, from the start of the service and with frames addressed to this host, that does so |
| NetRuns.SendBreaksStream | userland/services/netstack/src/main.rs:425-474 | a send while bytes wait makes the next receive hand out what the client wrote instead of the stream |
| NetRuns.StillClientInOrder | userland/services/netstack/src/main.rs:460-474 | a client that writes nothing into the page while connected gets the stream in order over every run |
| NetRuns.AnyWriteRisks | userland/services/netstack/src/main.rs:460-474 | no other client is safe: for every write, at every offset of the page at or behind the unread bytes, bytes of the stream may have arrived up to there, and the write breaks the order |
| NetStream.UnreadExact | userland/services/netstack/src/main.rs:460-474 | a client write to the shared page keeps the stream in order if and only if it leaves the unread bytes alone |
| NetStream.SendNumbered | userland/services/netstack/src/main.rs:425-454 | one send is one segment, numbered right after the data before it, and reports its length |
| NetStream.SentGapFree | userland/services/netstack/src/main.rs:425-454 | over any run data segments are contiguous from the initial number plus one |
| NetSent.RoundProper | userland/services/netstack/src/main.rs:541-722 | every segment of any round goes from port 51820 to the peer's port with our window; a SYN acknowledges 0, the handshake's and the final acknowledgement answer the peer's number plus 1, all others acknowledge what has been taken, with the flags of the state |
| NetSent.RoundAcknowledges | userland/services/netstack/src/main.rs:628-662 | on a connection in order each segment acknowledges exactly the peer's initial number, the bytes taken so far and its FIN once taken |
| NetSent.RoundNumbers | userland/services/netstack/src/main.rs:425-509 | each segment, with data or without, is numbered by the SYN, data and FIN sent before it |
| NetSent.RoundMoves | userland/services/netstack/src/main.rs:541-722 | what each segment heard does to the connection, state by state: the handshake's exact condition, resets, data and FIN taken, both closes |
| NetSent.ResolveMoves | userland/services/netstack/src/main.rs:552-576 | an ARP answer of the peer, and nothing else, leads to the SYN |
| NetSent.ConnectAnswers | userland/services/netstack/src/main.rs:401-424 | refused with 0 while connected or without a page; otherwise address, port and numbers of the new connection |
| NetSent.SendAnswers | userland/services/netstack/src/main.rs:425-454 | the reply is the number of bytes sent, the first of the page up to one segment's worth; 0 without an established connection |
| NetSent.RecvAnswers | userland/services/netstack/src/main.rs:460-474 | what is buffered, at once if there is some or nothing more can come, otherwise later |
| NetSent.CloseAnswers | userland/services/netstack/src/main.rs:475-509 | a FIN and a later reply when established, otherwise the connection is dropped with 1 |
| NetSent.SetupAnswers | userland/services/netstack/src/main.rs:391-400 | setting page and reply slot answers nothing, and nothing is answered before the slot is set |
| NetSent.HearsExact | userland/services/netstack/src/tcp.rs:120-162 | of the frames that carry a segment a connection hears exactly those from its peer's address and port to ours |
| NetSent.RoundCarries | userland/services/netstack/src/main.rs:541-722 | each segment goes out in one frame to the peer's addresses, and the peer parses that segment out of it |
| NetSent.OpeningAsks | userland/services/netstack/src/main.rs:401-424 | a round that opens a connection sends the ARP request for its peer |
| NetSent.RoundResponds | userland/services/netstack/src/main.rs:513-538 | a frame the connection does not answer is answered as the responder does |
| NetStack.Stash.Add | userland/services/netstack/src/main.rs:290-295 | appends, or drops when full |
| NetStack.Stash.PopFront | userland/services/netstack/src/main.rs:297-304 | removes the oldest |
| NetStack.Service.HandleClientMessage | userland/services/netstack/src/main.rs:379-510 | is the model's handling of a message |
| NetStack.Service.InData | userland/services/netstack/src/main.rs:613-662 | is the model's handling of a segment while established |
| NetStack.Service.AdvanceConnection | userland/services/netstack/src/main.rs:541-722 | is the model's handling of a frame, and tells whether it was the connection's |
| NetStack.Service.HandleNicFrame | userland/services/netstack/src/main.rs:513-538 | is the model's handling of a frame, the connection dropped when done |
| NetStack.Service.Turn | userland/services/netstack/src/main.rs:216-258 | one turn of the main loop is one round of the model, a reported length of 0 being no frame, with the same replies, bytes handed over, segments and frames on the wire, ARP and echo answers included |

## Left out

- Hardware: port I/O, interrupt controller, disk and network card registers, PCI scan and reboot; interrupt masks are one boolean per line, and the reboot system call is modelled only as refused.
- Assembly, descriptor tables, TLB effects: a context switch is a change of the current task, page-table words are records of their fields instead of bit patterns.
- Boot: BPB and partition discovery and which programs are started in which order; boot is any sequence of spawns, endpoints and grants, a volume's geometry and the boot directory are parameters.
- The loader's work and the grants checked by spawning from memory: whether a program loads is a parameter.
- Node ids, slot numbers and task ids are unbounded; the truncation of a vector length to 32 bits is not modelled.
- KernelState.Enabled: the idle task makes no system call, as the kernel's comments require of it.
- KernelIrq.RunHandshake: is about lines 3 to 15; line 1 is not masked by the keyboard handler and unmasking any line from 8 on also clears the cascade line 2.
- KernelMessages.RunConserves: endpoints used after their owner left behave like any other, because send and receive do not check for retirement.
- KernelHeap.Heap.FindRegion: arithmetic wraps as in a release build; a build with overflow checks stops there instead.
- Fat32Server.WrapExact: the same.
- KernelPaging.Pager.MapPage: running out of frames, where the kernel stops, is a result; frames are never freed after boot and are not freed here.
- NetStream.StreamInOrder: is about one connection, up to our close, because data arriving after it is discarded; NetStream.HandshakeInOrder says when a connection starts in order.
- Fat32Root.OpenOrCreate: when zeroing the new cluster fails the open fails, and the new part of the directory may hold whatever that cluster held, because it is linked first; nothing is promised of that part, nor of later opens. Names that start with 0x00 or 0xE5 are covered by Fat32Directory.CreatedFound only.
- NetStack.Service.Turn: messages that arrive while the card takes a frame are stashed at the end of the turn; the stash is not looked at in between.
- EditorSession.Run: is about typed names, which do not start with 0x00 or 0xE5 because no key gives these bytes, and about key sequences that quit.
- Screen output, the console and its key decoding, the name service, the storage driver's loop and the thin wire wrappers: they would only add easy members.
- TCP retransmission and congestion control: the source has none.
