# A verified model of gameops

gameops keeps self-hosted Minecraft servers: it puts a server to sleep when nobody plays and wakes it on the
next login, answers clients while the server sleeps, limits login attempts at its web gateway, speaks RCON,
and regenerates, backs up, stops and starts worlds. This project models the parts of it whose correctness
depends on whole runs, on every input or on failures part-way, and proves what those parts are for. Each
module follows one source file or one question asked about it:

- `VarInt`, `Packets`, `Status`, `SleepingDialogue`: the Minecraft wire format, from the 32-bit VarInt loops
  (checked against unsigned LEB128, section 7.6 of DWARF 5) up to the conversation with a client while the
  server sleeps. `Words` writes out Go's fixed-width integers, `ByteStreams` buffered readers and connections.
- `IdleInstance`, `WakeMachine`, `WakeOwnership`, `WakeStarts`, `WakeStops`, `WakeLifetimes`,
  `WakeCauses`, `InstanceRuns`, `IdleTimer`: the fields behind the mutex of one instance, the interleaving of any number of connection handlers, wakes and idle watchers over
  them (each lock section is one atomic step; dials, replies and clocks are chosen by the environment), and
  the idle timer as a one-variable summary of its whole history of polls.
- `RateLimiter`, `SlidingWindow`: the limiter with its in-place compaction over slices that share an array, and
  its whole runs against a limiter that never forgets.
- `Rcon`: the packet codec, and a client in step with a server of either authentication shape.
- `Disk`, `WorldRegen`, `SeedLine`: regenerating a world over a file system in which every call may fail and
  every write may stop half-way; the seed line, and the message of the day looked up in the same file.
- `Backup`, `Retention`: one backup run, and what any number of them leave behind.
- `TimedStop`, `Startup`, `Uptime`: polling under nested deadlines, the gated retry protocol of startup
  commands, and the uptime that concurrent status calls report.

Code that changes things step by step is a method, over a class or an array where the source has an object or
a slice, proved against a function or predicate about the whole input or state; the lemmas then say what that
specification is worth. Byte strings are sequences of numbers below 256; file texts are strings of which each
char stands for one byte.

## Where the code and its documentation differ, and what does not hold

- `backup/backup.go:102` says that a failed backup never leaves a `.tmp` file. It stays when removing it fails
  too; `Backup.Site.WriteBackupZip` says exactly when.
- Two backups in the same second have one name, and the later replaces the earlier. So "the last max backups
  remain" holds exactly when no two of them share a second: `Retention.LastBackupsRemain`.
  `Retention.SameSecondLosesOne` is such a series.
- When the reply to `save-off` is lost, the server may have stopped saving while the run believes it has not,
  and `save-on` is never sent: `Backup.LeftWithoutAutosave` says exactly when a run ends without autosave, and
  `Backup.LoseReply` is such a run.
- Regeneration keeps no copy of the properties file. It is left broken off exactly when its rewriting breaks
  off before the end (`WorldRegen.BlankSeedLine`, and over the whole procedure `WorldRegen.RegenAt`);
  `WorldRegen.CutRewriteLosesMotd` is an instance that loses the message of the day.
- A file listed more than once among the extra files to reset loses its original bytes, unless they were `{}`:
  `WorldRegen.KeptWhenListedOnce`.
- Blanking the seed changes what another key's lookup finds exactly when the first line too long for the
  scanner is a seed line, before any line with the key, and the key is reachable behind it:
  `SeedLine.OtherKeyKept`, with an instance in `SeedLine.LongSeedHidesMotd`.
- More than one wake, or a wake beside a live watcher, is possible after stale resyncs, as the comment at
  `idlewatch/instance.go:97-104` accepts. `WakeOwnership.OwnershipAccounting` bounds how many by the number of
  such resyncs and says exactly when ownership is exclusive; `WakeOwnership.TwoWakesAtOnce` shows a run that
  reaches the bound.
- Some numbers have several accepted spellings, padded with zero groups or with bits in a fifth byte that are
  ignored: `VarInt.WrittenExactlyWhenCanonical` says which of them is the written one.

## Model

| member | source | states |
|---|---|---|
| `VarInt.ReadVarInt` | internal/mcproto/varint.go:8-26 | the loop of truncating shifts and ors reads LEB128 modulo 2^32 as a signed number, with both errors and the bytes each outcome leaves unread |
| `VarInt.WriteVarInt` | internal/mcproto/varint.go:28-43 | the loop writes unsigned LEB128 of the two's-complement value |
| `VarInt.OrAddsGroup` | internal/mcproto/varint.go:16 | or-ing in a group shifted on a 32-bit register adds it, modulo 2^32; below the fifth byte nothing is lost |
| `VarInt.RoundTrip` | internal/mcproto/varint.go:8-43 | every int32 followed by any bytes is read back, and exactly those bytes are left |
| `VarInt.EncodedLength` | internal/mcproto/varint.go:28-43 | 1 to 5 bytes, with the length set by the thresholds 2^7, 2^14, 2^21 and 2^28 |
| `VarInt.PrefixFree` | internal/mcproto/varint.go:28-43 | no encoding is a prefix of another number's |
| `VarInt.EncodeIsShortest` | internal/mcproto/varint.go:8-43 | whatever bytes the reader accepts for a number, the writer uses no more, and the reader takes at most five |
| `VarInt.ReadsAtMostFive` | internal/mcproto/varint.go:20-23 | on any input at most five bytes are consumed, from the front |
| `VarInt.AcceptsExactly` | internal/mcproto/varint.go:11-24 | a number is read exactly when one of the first five bytes lacks the continuation bit, and it is too big exactly when all five carry it |
| `VarInt.WrittenExactlyWhenCanonical` | internal/mcproto/varint.go:8-43 | of all spellings the reader accepts for a number the writer produces exactly the one whose last byte is not zero, unless it is the only one, and whose fifth byte is below 16 |
| `VarInt.FifthByteHighBitsIgnored` | internal/mcproto/varint.go:16 | fifth bytes that agree in their low four bits read as the same number |
| `Packets.ReadPacket` | internal/mcproto/packet.go:12-34 | a length prefix, exactly that many bytes, an id at their front; every error and what it leaves unread |
| `Packets.WritePacket` | internal/mcproto/packet.go:36-42 | one write of the length-prefixed frame, with the length truncated to int32 |
| `Packets.ReadString` | internal/mcproto/packet.go:50-70 | the declared number of bytes and the unconsumed remainder, or the error |
| `Packets.WriteString` | internal/mcproto/packet.go:44-48 | the length prefix followed by the bytes of the string |
| `Packets.StringRoundTrip` | internal/mcproto/packet.go:44-70 | a string and what follows it are read back exactly when the length fits an int32 |
| `Packets.FrameRoundTrip` | internal/mcproto/packet.go:12-42 | a packet and what follows it are read back exactly when the body length fits an int32 |
| `Packets.StreamRoundTrip` | internal/mcproto/packet.go:12-42 | any number of packets written back to back are recovered one by one, with any tail untouched |
| `Packets.BlockConsumes` | internal/mcproto/packet.go:13-25 | a successful read takes the 1 to 5 bytes of the prefix and exactly the declared length |
| `Packets.FrameConsumes` | internal/mcproto/packet.go:24-33 | a readable frame is its prefix, its id and its payload and nothing else |
| `Status.ParseHandshake` | internal/mcproto/status.go:15-34 | the next state after protocol version, address and port, or the first error met |
| `Status.HandshakeUnderstood` | internal/mcproto/status.go:15-34 | every encoded handshake, whatever follows it, yields its next state |
| `Status.TruncatedHandshakeRejected` | internal/mcproto/status.go:15-34 | a handshake cut anywhere before its end is an error, never another state |
| `SleepingDialogue.HandleSleeping` | idlewatch/minecraft_adapter.go:139-185 | on any byte stream: true exactly for a first frame with id 0 whose handshake asks for state 2; the bytes sent, as far as the connection takes them; the connection is closed |
| `SleepingDialogue.AnswerStatus` | idlewatch/minecraft_adapter.go:168-184 | the status request is consumed, the status text sent, then a ping echoed; nothing is sent after a failed write |
| `SleepingDialogue.RepliesDecode` | idlewatch/minecraft_adapter.go:155-184 | on any input the bytes sent decode to whole packets: the intended text, then at most the echo of the ping |
| `SleepingDialogue.PongRead` | idlewatch/minecraft_adapter.go:180-183 | the echo is a readable packet with id 1 and the payload of the ping, however its id was spelled |
| `SleepingDialogue.OtherPacketsUnanswered` | idlewatch/minecraft_adapter.go:143-146 | a first packet with any other id than 0 is no login and gets no answer |
| `SleepingDialogue.HandshakeVerdict` | idlewatch/minecraft_adapter.go:143-170 | for every encoded handshake the verdict is whether its next state is 2, whatever comes after it |
| `SleepingDialogue.StatusConversation` | idlewatch/minecraft_adapter.go:139-185 | handshake, status request and ping of any client yield the status text and the unchanged ping payload |
| `IdleInstance.Instance.constructor` | idlewatch/instance.go:50-65 | an instance begins asleep, with no waking time |
| `IdleInstance.Instance.Snapshot` | idlewatch/instance.go:112-115 | a handler's snapshot is the pair of fields |
| `IdleInstance.Instance.FallAsleep` | idlewatch/instance.go:126-129 | the section of a resync, a failed wake and a finished watcher puts the pair to rest, whatever it was |
| `IdleInstance.Instance.TryBeginWaking` | idlewatch/instance.go:145-152 | only one who finds the instance asleep moves it to waking, with the time |
| `IdleInstance.Instance.ComeUp` | idlewatch/instance.go:166-169 | the last section of a wake writes awake and clears the time, whatever the pair was |
| `InstanceRuns.Perform` | idlewatch/instance.go:111-253 | each step of a goroutine, taken on the instance's own lock sections, leaves its fields and the goroutine where the machine says; what the machine says is pinned down by `WakeCauses`, `WakeOwnership` and `WakeStops` |
| `InstanceRuns.Replay` | idlewatch/instance.go:111-253 | every run of the machine is a run of a new instance |
| `WakeOwnership.InvStep` | idlewatch/instance.go:111-253 | every step of every goroutine keeps the accounting of owners, overwrites and stale owners |
| `WakeOwnership.OwnershipAccounting` | idlewatch/instance.go:117-172 | in every reachable state wakes at work plus watchers, plus owners found stale, are one unless asleep, plus the resyncs that overwrote another state; waking has exactly one wake, awake exactly one watcher and asleep neither exactly when there have been as many stale owners as such resyncs, so always without them |
| `WakeOwnership.NeverOrphaned` | idlewatch/instance.go:126-171 | in every reachable state waking has a wake between its lock sections, awake a watcher or one about to be spawned, and the waking time is set exactly while waking |
| `WakeOwnership.TwoWakesAtOnce` | idlewatch/instance.go:97-104 | a run of two stale resyncs after which two wakes are at work beside a watcher: the bound is reached |
| `WakeStarts.StartDiscipline` | idlewatch/instance.go:144-164 | over every run each start belongs to its own transition to waking, two transitions are separated by a write of asleep, starts are at most one more than those writes, and a connection causes at most one |
| `WakeStarts.WakingConnectionsStartNothing` | idlewatch/instance.go:135-136 | a handler that saw waking never starts the server or moves it to waking |
| `WakeStops.StopsExactlyWhenDue` | idlewatch/instance.go:208-253 | in every reachable state a watcher has issued its stop, or is about to, exactly when its own poll history is due for the first time |
| `WakeLifetimes.StopsRationed` | idlewatch/instance.go:144-253 | over every run a watcher stops the server at most once, stops are at most the writes of awake and those at most the transitions to waking; each difference is what was given up, found out of date or is still at work |
| `WakeCauses.OnlyLoginsWake` | idlewatch/instance.go:131-140 | over every run a connection that moved the server to waking, or started it, was answered as a login |
| `WakeCauses.WritesHaveCauses` | idlewatch/instance.go:126-169 | awake is written only by a goroutine whose wait found the backend up, and asleep only after its failed dial, its wait that found nothing, or its stop |
| `WakeCauses.ReachedBackendWritesNothing` | idlewatch/instance.go:117-134 | a connection whose dial succeeded has seen awake and writes, wakes and starts nothing |
| `WakeCauses.KicksShowARealTime` | idlewatch/instance.go:112-136 | a handler that found the server waking holds the time at which some wake began |
| `WakeCauses.ReadingWakingStartsNothing` | idlewatch/instance.go:135-136 | a connection that reads the state while the server is waking never starts it, whatever comes after |
| `WakeCauses.CountsOnlyWhenAwake` | idlewatch/instance.go:214-221 | every count of players comes right after its watcher read that the server is awake |
| `WakeCauses.NobodyIsStuck` | idlewatch/instance.go:111-253 | every goroutine that has not ended can take its next step for each answer of the environment, and no other step; one that has ended takes none, and a new connection can always come in |
| `IdleTimer.IdleWatcher` | idlewatch/instance.go:208-253 | stop at the first due poll and at no other, provided every turn so far saw awake; otherwise the exit or the wait |
| `IdleTimer.DecideRefinesHistory` | idlewatch/instance.go:221-238 | deciding from the one remembered instant is deciding from the maximal run of error-free empty polls |
| `IdleTimer.LaterPollsDoNotMatter` | idlewatch/instance.go:209-238 | neither what was due nor the summary depends on later polls |
| `IdleTimer.StopsInTime` | idlewatch/instance.go:211-238 | with polls at most a gap apart that stay idle, the first due poll comes by the start of the run plus timeout plus gap |
| `RateLimiter.RateLimiter.Allow` | internal/webauth/ratelimit.go:24-42 | the answer and the new lists as functions of the old lists, through slices compacted in place |
| `RateLimiter.RateLimiter.KeepRecent` | internal/webauth/ratelimit.go:30-35 | pruning leaves the recent attempts at the front of the key's own array and every other key's list as it was |
| `RateLimiter.RateLimiter.Decide` | internal/webauth/ratelimit.go:36-41 | denied with the kept list stored, or allowed with this attempt recorded behind it |
| `RateLimiter.Compact` | internal/webauth/ratelimit.go:30-35 | appending the recent instants into the array that is being read keeps exactly those, in order |
| `RateLimiter.Append` | internal/webauth/ratelimit.go:40 | the kept instants and the new one, in place while there is room and in a new array otherwise |
| `SlidingWindow.PruningIsInvisible` | internal/webauth/ratelimit.go:28-41 | over every run with a clock that does not go back, the pruning limiter answers as one that keeps every allowed attempt |
| `SlidingWindow.WindowHolds` | internal/webauth/ratelimit.go:8-10 | any max + 1 successive allowed attempts of a key span at least the window |
| `SlidingWindow.DeniedExactly` | internal/webauth/ratelimit.go:36-41 | an attempt is denied exactly when max allowed attempts of its key lie strictly inside the last window |
| `SlidingWindow.StoredListsBounded` | internal/webauth/ratelimit.go:30-40 | each stored list is ascending, no later than the clock and never longer than max |
| `SlidingWindow.KeysIndependent` | internal/webauth/ratelimit.go:30-41 | the answers to one key are those of the run with all other keys left out |
| `Rcon.ReadPacket` | internal/rcon/rcon.go:137-153 | id, type and body without trailing NULs; lengths outside 10 to 4096 and short input are errors, with what they leave unread |
| `Rcon.ServerConn.WritePacket` | internal/rcon/rcon.go:117-135 | the encoded packet reaches the server, or as much of it as the connection still takes, and then the write fails |
| `Rcon.CutRequestIgnored` | internal/rcon/rcon.go:132-134 | a packet that breaks off anywhere before its end changes nothing at the server and brings no reply |
| `Rcon.PacketRoundTrip` | internal/rcon/rcon.go:117-153 | a packet is read back, without the trailing NULs of its body, exactly when its body is at most 4086 bytes |
| `Rcon.LongBodiesRejected` | internal/rcon/rcon.go:142-144 | longer bodies are refused, up to where the 32-bit length wraps around |
| `Rcon.LittleEndianSpelled` | internal/rcon/rcon.go:119-129 | four bytes, least significant first, two's complement |
| `Rcon.ParsesExactly` | internal/rcon/rcon.go:137-152 | a packet is read exactly when its first four bytes are a length from 10 to 4096 and that many follow; its id, type and body are the bytes at their places |
| `Rcon.AuthRequestSpelled` | internal/rcon/rcon.go:59-60 | the bytes of every authentication request: its length, id 1, type 3, the password and two NULs |
| `Rcon.CommandRequestSpelled` | internal/rcon/rcon.go:96 | the bytes of every command request: its length, id 2, type 2, the command and two NULs |
| `Rcon.RepliesAccepted` | internal/rcon/rcon.go:100-110 | a reply is accepted exactly when it is a readable packet with id bytes 2 0 0 0 and type bytes 0 0 0 0; another id or type is its own error; what is returned and what is left unread |
| `Rcon.AnswersJudged` | internal/rcon/rcon.go:77-83 | type bytes 2 0 0 0 are an answer to authentication, and id bytes 255 255 255 255 in it a refusal |
| `Rcon.AuthAnswersAccepted` | internal/rcon/rcon.go:67-83 | authentication passes over one packet with type bytes 0 0 0 0 and judges the next |
| `Rcon.Auth` | internal/rcon/rcon.go:59-84 | verdict and unread bytes, for any bytes the server may answer with |
| `Rcon.Command` | internal/rcon/rcon.go:92-111 | the reply or the error, and the unread bytes, for any bytes the server may answer with |
| `Rcon.AuthInStep` | internal/rcon/rcon.go:63-83 | with either shape of server the verdict is whether the password matches, and nothing stays unread |
| `Rcon.CommandInStep` | internal/rcon/rcon.go:96-110 | one command takes one reply of the server and leaves nothing unread |
| `Rcon.SessionInStep` | internal/rcon/rcon.go:92-111 | in a session of any length the i-th command returns the i-th reply and no byte is left over |
| `Rcon.ClientInStep` | internal/rcon/rcon.go:42-111 | from authentication to the last command, whichever shape the server uses |
| `TimedStop.WaitUntilBackendDown` | maintenance/maintenance.go:57-66 | for every interval, zero included, each probe begins before the deadline, and the loop ends at the first that finds the port closed or at the deadline |
| `TimedStop.WaitForBackend` | idlewatch/instance.go:174-186 | the same for the first probe that finds the port open, 300 ms apart |
| `TimedStop.WaitForBackendDown` | idlewatch/instance.go:260-272 | the same for the port closing after an idle stop, 2 s apart |
| `TimedStop.FoundExactly` | maintenance/maintenance.go:54-66 | polling succeeds exactly when some probe begun before the deadline sees what was waited for |
| `TimedStop.EndsInTime` | maintenance/maintenance.go:57-66 | polling ends before timeout plus one probe plus one sleep, and a success before timeout plus one probe |
| `TimedStop.TrySendStopCommand` | internal/rcon/rcon.go:42-95 | accepted exactly when dial, authentication and command all are, and ended by the first that is not: at most 15 s in all |
| `TimedStop.StopWithTimeout` | maintenance/maintenance.go:107-135 | a clean stop exactly when the command was accepted and some probe begun in time found the port closed; when it was sent and when it is decided, bounded by the sum of the deadlines |
| `TimedStop.Stop` | maintenance/maintenance.go:101-103 | with the production timings: clean exactly when RCON is configured, every step of it went well and some probe begun within 60 s of it found the port closed; decided in less than 81 s, inside the gateway's 90 s (gateway/hostclient.go:31-34) |
| `SeedLine.BlankText` | worldregen/worldregen.go:70-82 | split, edit in place and join compute the blanked text |
| `SeedLine.BlankingIsLineByLine` | worldregen/worldregen.go:55-82 | the number of lines stays, lines that do not start with the key stay to the byte, and each that does keeps the key, the equals sign and its CR |
| `SeedLine.MatchesUntrimmed` | worldregen/worldregen.go:73-74 | trimming CRs before the comparison hides no match |
| `SeedLine.BlankingIsIdempotent` | worldregen/worldregen.go:70-82 | blanking a blanked text changes nothing |
| `SeedLine.ReadForgeMotd` | idlewatch/minecraft_adapter.go:84-103 | the decoded value on the first motd line within the scanner's limit, the fallback otherwise |
| `SeedLine.MotdOfFirstLine` | idlewatch/minecraft_adapter.go:91-101 | the first line that starts with motd= says it, with or without a CR at its end; a value that decodes to nothing falls back |
| `SeedLine.MotdFallsBack` | idlewatch/minecraft_adapter.go:84-102 | without such a line, behind a line of 65536 bytes or more, or without the file, it is the fallback |
| `SeedLine.FoundWhenReachable` | worldregen/worldregen.go:70-82 | after blanking another key is found exactly when it stands behind nothing overlong but seed lines that blanking shortens |
| `SeedLine.OtherKeyKept` | worldregen/worldregen.go:70-82 | for keys without an equals sign, looking another key up is unchanged by blanking unless the scan is first ended by an overlong seed line with the key reachable behind it, and only then changes |
| `SeedLine.LongSeedHidesMotd` | idlewatch/minecraft_adapter.go:91-102 | an instance in which it does change |
| `SeedLine.MotdSurvivesBlanking` | idlewatch/minecraft_adapter.go:84-103 | with seed lines shorter than the scanner's limit the message of the day is the same after blanking |
| `Disk.MoveKeepsTree` | worldregen/worldregen.go:96 | a rename to a free name takes the whole tree there, leaves nothing behind and touches nothing else |
| `SeedLine.BlankingShortens` | worldregen/worldregen.go:70-82 | blanking never makes a text longer |
| `WorldRegen.BlankSeedLine` | worldregen/worldregen.go:62-86 | on success the file holds its blanked text; after every call, failed ones included, it holds its old text or the beginning of the blanked one, and it is whole throughout exactly when its rewriting does not break off before the end; nothing else ever changes; without a configured file nothing is done |
| `WorldRegen.RewriteLeaves` | worldregen/worldregen.go:82-84 | what one rewriting leaves: the old text, or the beginning of the blanked one, and neither text whole exactly when the write is cut before its end |
| `WorldRegen.CutRewriteLosesMotd` | worldregen/worldregen.go:82-84 | a file whose rewriting breaks off at once: it is empty, and the message of the day is gone |
| `WorldRegen.RenameWorldIfExists` | worldregen/worldregen.go:91-100 | the world is moved, or was not there, or nothing changed |
| `WorldRegen.ResetExtraFile` | worldregen/worldregen.go:105-124 | at every moment the original bytes are at the file's own or its backup path; on success both are as documented |
| `WorldRegen.CopySeedTemplate` | worldregen/worldregen.go:130-152 | at every moment only the destination and directories above it differ; on success the destination holds the source's bytes |
| `WorldRegen.BackupsDistinct` | worldregen/worldregen.go:109-111 | with a stamp that has no dot, two files never share a backup name |
| `WorldRegen.NamesSpelled` | worldregen/worldregen.go:95-111 | the moved world is its name with `_prev_` and the stamp, and a file's backup has them before its extension |
| `WorldRegen.KeptWhenListedOnce` | worldregen/worldregen.go:185-189 | after the whole loop over a list no file of which is another's backup, a listed file's bytes survive exactly when it was listed once or they were `{}` already |
| `WorldRegen.ResetsCounted` | worldregen/worldregen.go:105-124 | what a file and its backup hold after it was reset any number of times among others |
| `WorldRegen.BlankAndMove` | worldregen/worldregen.go:175-183 | regeneration up to the rename: after every call the old world and the files to reset are whole, and the properties file is its old text or the beginning of the blanked one, broken off exactly when its rewriting was; on success the world stands whole under its new name |
| `WorldRegen.ResetAll` | worldregen/worldregen.go:185-189 | the loop over the extra files: the old world, the bytes of the files to reset and the blanked properties survive every call; on success each is reset and backed up, and the disk is that of the resets one after the other, repeated files included |
| `WorldRegen.CopyAll` | worldregen/worldregen.go:191-195 | the loop over the templates: the old world, the reset files' bytes and the blanked properties survive every call, and on success each template is in the new world |
| `WorldRegen.RegenAt` | worldregen/worldregen.go:168-198 | after every call, failed or cut short ones included, the old world is whole at its own or its `_prev_` path and each reset file's bytes survive; the properties file, which has no backup, is whole throughout exactly when its rewriting was not cut; every path the procedure has no business with, the properties among them when no new seed is asked for, is as it was; no call follows a failed one; a reachable backend leaves the disk alone; on success the seed is blanked, the files are reset and the new world holds the templates and nothing of the old |
| `Backup.GlobExactly` | backup/backup.go:119-124 | rotation finds exactly the names that are `world_`, anything, `.zip` |
| `Backup.Naming` | backup/backup.go:105-124 | a final name matches the rotation's pattern, its `.tmp` name does not, and different stamps have different names |
| `Backup.SortNewestFirst` | backup/backup.go:142-144 | the list is sorted newest first and is a permutation of what it was, with ties in any order |
| `Backup.Site.Stat` | backup/backup.go:133-140 | exactly the listed files that can be looked at, each once, with its time |
| `Backup.Site.RemoveFrom` | backup/backup.go:150-155 | the files from the cut on are deleted up to the first that cannot be |
| `Backup.Site.Rotate` | backup/backup.go:123-157 | on success exactly the smaller of all and maxBackups stay; a removal that fails midway has cost none of the newest; a negative maxBackups panics and deletes nothing; a file not named `world_`, anything, `.zip` is as it was |
| `Backup.CutKeepsNewest` | backup/backup.go:150-155 | stopping the deletion anywhere leaves, for each deleted file, at least maxBackups that are no older |
| `Backup.StayersAreNewest` | backup/backup.go:119-122 | after a complete rotation every file that stays is at least as new as every file that went |
| `Backup.StaysWhenFewNewer` | backup/backup.go:119-122 | without ties a file stays exactly when fewer than maxBackups are newer |
| `Backup.RunKeeps` | backup/backup.go:27-43 | a run whose rotation finishes leaves as many backups as there are, up to the configured limit, which is 12 when it is 0 |
| `Backup.RunSpares` | backup/backup.go:119-124 | a whole run changes no file that is not named `world_`, anything, `.zip`, but for its own `.tmp` |
| `Backup.Site.WriteBackupZip` | backup/backup.go:100-117 | the archive under its final name, or no new archive; a `.tmp` remains exactly when there was one to remove and removing it failed |
| `Backup.Site.TrySaveOff` | backup/backup.go:166-184 | true exactly when save-off was confirmed, whatever becomes of the flush |
| `Backup.Site.TrySaveOn` | backup/backup.go:188-198 | a dial and, if it succeeds, save-on |
| `Backup.Site.RunAt` | backup/backup.go:213-240 | the whole run: save-on is tried last exactly when save-off was confirmed, on every way out; what the directory holds after each outcome, and that files which are no backups are as they were |
| `Backup.RunSpelled` | backup/backup.go:166-198 | what a run with RCON says to the server: save-off, after its confirmation the flush, and at the end save-on exactly then |
| `Backup.LeftWithoutAutosave` | backup/backup.go:159-198 | a run leaves the server without autosave exactly when the reply to save-off was lost, or save-off was confirmed and save-on did not get through |
| `Backup.LoseReply` | backup/backup.go:174-177 | a run in which the server carries save-off out, the reply is lost, and the server is left without autosave |
| `Retention.OneRun` | backup/backup.go:213-240 | one more successful run keeps the description of the directory by its history |
| `Retention.BackupsRemain` | backup/backup.go:119-157 | after any number of successful runs from an empty directory a backup is there exactly while fewer than max other stamps were written since, as last written, and they are as many as there were stamps, up to max |
| `Retention.LastBackupsRemain` | backup/backup.go:200-240 | the last max backups remain and nothing else, exactly when no two of them share a stamp |
| `Retention.SameSecondLosesOne` | backup/backup.go:229 | two successful runs in one second, of which only the second's backup is left although two are kept |
| `Startup.ContainsExactly` | startup/startup.go:51 | a text contains the pattern exactly when it is something, the pattern, something |
| `Startup.BootSeenExactly` | startup/startup.go:47-59 | the boot was seen exactly when some reading that is made has the pattern somewhere in its text |
| `Startup.WaitForBootLog` | startup/startup.go:47-59 | for every interval, zero included, true exactly when some reading that is made shows the pattern; the first is always made, each other while the one before ended by the deadline |
| `Startup.Console.WaitForRconReady` | startup/startup.go:67-76 | failed `seed` probes up to the limit, ended early only by a success |
| `Startup.ReadyExactly` | startup/startup.go:61-76 | ready exactly when one of the first maxAttempts sends goes well |
| `Startup.Console.ApplyCommand` | startup/startup.go:95-109 | one block of attempts: all but the last failed, and a short one ends in success |
| `Startup.Console.ApplyCommands` | startup/startup.go:148-150 | one block for each command, in the configured order |
| `Startup.Console.ApplyWithTiming` | startup/startup.go:125-152 | the whole trace and the result, which depends on the configuration, the boot log and the probes but on no reply to a command |
| `Startup.Apply` | startup/startup.go:119-121 | with the production limits: applied exactly when there is nothing to apply, or the boot log showed its pattern within 180 s read every 3 s and one of the first 60 probes is answered; up to three attempts for each command |
| `Startup.NoCommandBeforeReady` | startup/startup.go:61-76 | in the whole trace every command comes after an answered probe |
| `Startup.EveryCommandHasItsTurn` | startup/startup.go:90-109 | each command has 1 to cmdMaxAttempts attempts, all but the last failed, and a shorter turn ends in success |
| `Startup.SendsBounded` | startup/startup.go:125-152 | at most rconMaxAttempts sends plus cmdMaxAttempts for each command |
| `Startup.OnlyOneRun` | startup/startup.go:125-152 | given the replies only one trace and one result follow the protocol |
| `Uptime.Controller.Observe` | internal/gamecontrol/minecraft.go:54-61 | the lock section keeps the field equal to the first online look after the last offline one, and a call that saw the server online never takes the zero time away |
| `Uptime.TracksOnlineRun` | internal/gamecontrol/minecraft.go:25-26 | over any interleaving of calls the field is the time of the first online look, in lock order, after the last offline one |
| `Uptime.CountsFromARealStart` | internal/gamecontrol/minecraft.go:63-81 | every reported uptime is the whole seconds from the start of the online run its look fell in to the answer, and not negative |
| `Uptime.AnswerReported` | internal/gamecontrol/minecraft.go:51-81 | an answer reports for the look its own call made under the lock, at the time of the answer |
| `Uptime.UptimesNeverDecrease` | internal/gamecontrol/minecraft.go:73-80 | uptimes reported in time order within one online run never decrease, whichever call looked first |

## Left out

- Wiring, HTTP routing, configuration merging, logging, JSON, base64, HTML, TOML, passwords and sessions: no property of their own beyond field choices, or library output; the JSON texts of the dialogue are parameters.
- `stateLabel` and the player-count regular expressions: one-line facts.
- Byte pumping in `proxy`, starting processes, `taskkill`, writing archives: only success, failure and, where it matters, duration are modelled. The time a force-kill takes is not.
- `maintenance.Resume` and `MinecraftController.Restart`: a launch and a call of stop then start.
- An allocation that fails for a huge declared frame length: reading a frame needs the bytes to be there.
- `Packets.WritePacket`: a connection takes a fixed number of bytes in all and the write that exceeds it fails part-way; other ways for a write to fail are not distinguished.
- `IdleInstance.Instance.TryBeginWaking`: `time.Now()` is taken never to be the zero time.
- `WakeOwnership.OwnershipAccounting`: a goroutine that ends is kept in the record as gone, and identifiers are not reused; the adapter's own state is outside the machine.
- `TimedStop.WaitUntilBackendDown`: the clock is taken to get past the timeout in the end; with a sleep between probes it always does (`TimedStop.SleepsPass`).
- `TimedStop.Stop`: code between blocking calls takes no time, and a blocking call ends by its declared limit.
- `RateLimiter.Append`: by how much a full slice grows is left open.
- `Rcon.ServerConn.WritePacket`: the server reacts to each write at once, and bytes arrive in order; deadlines appear only as durations in `TimedStop`.
- `WorldRegen.RegenAt`: the paths are taken not to run into each other (`WorldRegen.Apart`), and permission bits, links and `os.Stat` failing on a path that exists are not modelled; a missing parent directory is one of the faults a call may have.
- `WorldRegen.CopySeedTemplate`: reading the source and writing the copy is one read and one write that may be cut short, not a loop over blocks.
- `Backup.Site.Rotate`: the glob's listing is a set of names, of which some may be hidden by a failed read; the sorting algorithm is any that meets its contract.
- `Retention.LastBackupsRemain`: modification times are taken to increase strictly from run to run; stamps may repeat.
- `Startup.Console.ApplyCommands`: the sleeps between attempts are not in the trace, and the response texts are only logged.
- `Startup.WaitForBootLog`: the clock is taken to get past the timeout in the end; with a sleep between readings it always does (`Startup.SleepsPass`).
- `Uptime.CountsFromARealStart`: the rounding of `Seconds()` through a floating-point number is taken as truncation.
