# aquatic: bans, swarms, scrapes and requests

A Dafny model of the stateful core of the aquatic BitTorrent tracker, and proofs of what that core is
for. `dafny verify dfyconfig.toml` checks all of it.

## What is modelled

**Automatic bans** (`crates/common/src/auto_ban.rs`, `ip_ban.rs`, `list_file.rs`, the flush loop of
`crates/http/src/lib.rs`). `policy.dfy` holds tiers, the escalation ladder, the client-ban jitter with its
64-bit wrap-around, and the configuration validator. `tracker.dfy` is the tracker as a class: records,
growing capacity, the once-a-second sweep, temporary and permanent bans, all over `u64` seconds and
nanosecond instants; every method is tied to a function of its old state. `ban_runs.dfy` proves what these
functions mean over whole runs, and `ban_kinds.dfy` which violation leads to which ban, in terms of the
configuration. `handoff.dfy` is the hand-off of permanent bans from memory to the ban file as a state
machine: one action for each section that holds a lock or touches the disk, any number of workers, one flush
thread, reload signals and restarts. Workers append client bans in it as well, and each round of the flush
thread begins with the compaction of their file. An append may fail, or write any prefix of its bytes first.
`handoff_safety.dfy`, `handoff_lines.dfy` and `handoff_strangers.dfy` prove its invariants over runs,
`handoff_progress.dfy` what it gets done when nothing fails, `handoff_checks.dfy` what the two orders in
which workers consult memory and list are worth, and `handoff_compaction.dfy` for which paths the compaction
is harmless. `ban_list.dfy` is the list that takes the bans over, from the characters of the file up, and
`ban_networks.dfy` what its network entries mean bit by bit; `client_bans.dfy` is the file of client bans,
and `client_runs.dfy` that file over time.

**Swarms** (`crates/udp/src/swarm.rs`, `crates/http/src/workers/swarm/storage.rs`). `peer_entries.dfy`,
`peer_map.dfy` and `peer_runs.dfy` hold the adaptive small/large peer map with its cached seeder counter,
swap-removal, shrinking and two-halves sampling; the two trackers differ in capacity and in when they
shrink. `udp_swarm.dfy` is the sharded UDP map as a state machine in which announcers keep a torrent outside
the shard lock while a cleaner scans and then retains; `udp_pass.dfy` is what a whole cleaning pass
achieves, `udp_tally.dfy` what the swarm tells the statistics. `http_swarm.dfy` is the HTTP worker's torrent
map with its peer gauge.

**Connections** (`crates/http/src/workers/socket/connection.rs`, `crates/ws/.../connection.rs`).
`framing.dfy` has the 2048-byte request buffer, filled by reads of any size and compacted in place;
`fan_out.dfy` spreads a scrape over workers and merges replies in any order; `ws_scrape.dfy` is the slab of
pending WebSocket scrapes.

**Requests as text** (`crates/http_protocol/src/request.rs`, `utils.rs`). `url_bytes.dfy`, `query.dfy`,
`http_request.dfy`, `http_codec.dfy` and `http_suffix.dfy`: the byte codec, the lockstep walk over `=` and
`&`, both parsers, both writers, and what a suffix on the path of a written request does.

The imperative code of the repository is imperative here (classes, arrays, loops with invariants), and each
method is proved against a function; the lemmas are about these functions. `base.dfy`, `text.dfy`, `ip.dfy`
and `info_hash.dfy` are shared vocabulary.

Libraries are parameters with laws: printing and parsing of addresses is inverse and prints digits, `a`-`f`,
dots and colons (`IpText`); percent-encoding of text is inverse and prints unreserved characters
(`UrlText`); the HTTP parser's verdict on a prefix stands for every longer input (`Stable`). Whether two
paths name the same file is a parameter of the validator; in the hand-off every path is first resolved to a
file, and equal files are the same file. Clocks, random offsets, arrival orders and the order of hash maps
are arbitrary.

## Where code and documentation differ

The model follows the code.

- The UDP and WebSocket workers consult the loaded list first and memory second. The hand-off goes from
  memory to list, so a permanently banned address is served when the reload and the removal of its
  record both fall between the two checks. `HandoffChecks.ListFirstServesBanned` is such a run,
  `HandoffChecks.ListFirstIsExact` the exact condition. The HTTP workers' order has no such gap.
- The flush thread rewrites the client-ban file without asking whose file it is, and the validator never
  looks at `client_ban_list_path`. If that file, or the sibling it is rewritten through, is the file of the
  IP ban list, permanently banned addresses end up banned nowhere. `HandoffCompaction.SafeIffSpared` is
  the exact condition, `HandoffCompaction.SharedFileLeavesGap` and `SharedSiblingLeavesGap` are the runs.
- Compaction is documented to drop expired entries only. It takes no lock, and a client ban
  that is appended between its read and its rename is gone (`ClientRuns.BanIsMissing`).
- The offence history is documented to last `offense_decay_secs`; eviction looks at the violation window
  alone. `BanRuns.HistorySurvivesRun` says exactly when the ladder continues, `BanRuns.HistoryIsLost`
  gives a history that is lost before its time.
- A write that is torn inside an address can ban a stranger, whom the written part spells
  (`HandoffStrangers.TornWriteBans`); without torn writes there are none (`HandoffStrangers.NoStrangers`).
- The comment on `pending_removal` says that it protects entries which were just added, because the flag
  was set by a previous pass. The flag is set and consumed by the same pass over a shard, so an announcer
  that is held up for that long writes into a torrent nobody can see:
  `UdpSwarm.AnnouncementCanBeLost`, and `UdpSwarm.LookUpToWrite` for the exact condition.
- The jitter is documented to spread over `[-jitter, +jitter]`. It never leaves that range, but uses all
  of it only if the jitter is an `i64` (`Policy.JitterUsesItsRange`).
- The hard-cap log of the capacity guard is never reached (`BanRuns.HardCapLogIsDead`).
- A scrape over several workers may answer more hashes than `max_scrape_torrents`
  (`FanOut.FanOutIsExact`, `FanOut.LongScrapesDiffer`).
- The UDP statistics miss the peers of a torrent that is dropped while it has some, because it is
  forbidden, and count announcements to a dropped torrent (`UdpTally.TallyIsExact`).
- Statistics per peer id go wrong when a known address and port announces under another id
  (`PeerRuns.IdMessagesAreRight`).
- Percent pairs are compared by the low byte of their characters: U+0130 passes for the digit 0.
  `UrlBytes.DecodeIsStrictOrForeign` says exactly which values are accepted beyond the spellings.
- Writing a request with a path suffix makes one that the parser refuses, unless the suffix begins with a
  question mark; then the first info hash that was written is lost, and the ones in the suffix take its
  place (`HttpSuffix.AnnounceWithSuffix`, `HttpSuffix.ScrapeWithSuffix`, `HttpSuffix.MarkLosesHash`).

## Model

| member | source | states |
|---|---|---|
| HandoffSafety.NoProtectionGap | crates/common/src/auto_ban.rs:841-882 | for every accepted configuration whose client-ban file and its sibling are not the list file, and every interleaving of workers, flush thread, compactions, failed or torn appends, failed reloads and restarts: at every step a permanently banned address is banned in memory or by the loaded list, and no worker that checks memory first and the list second (the HTTP order) serves a request whose address was under such a ban at its first check |
| HandoffChecks.ListFirstIsExact | crates/udp/src/workers/socket/mio/mod.rs:179-195 | in every run, a worker that checks the list first and memory second serves a permanently banned address if and only if the reload that lists it and the removal of its record both fall between its two checks, and no violation has banned it again |
| HandoffChecks.ListFirstServesBanned | crates/ws/src/workers/socket/connection.rs:383-397 | from an accepted configuration and an empty list, a whole run at whose end such a worker serves a permanently banned address |
| HandoffChecks.ServedDuringFlush | crates/udp/src/lib.rs:155-170 | from every state between append and reload, the four steps in which that happens |
| HandoffCompaction.SafeIffSpared | crates/common/src/auto_ban.rs:1297-1427 | for a configuration that is accepted and bans for good at once: no run from any start leaves a permanently banned address banned nowhere, if and only if neither the client-ban file nor its sibling is the list file |
| HandoffCompaction.SharedFileLeavesGap | crates/common/src/auto_ban.rs:1019-1068 | with the client-ban file as the list file, from an accepted configuration and empty files: a run in which compaction drops the line of a permanent ban, and the reload and the removal leave its address banned nowhere |
| HandoffCompaction.SharedSiblingLeavesGap | crates/common/src/auto_ban.rs:1045-1056 | the same when the sibling that compaction writes and renames is the list file |
| HandoffSafety.CompactionKeeps | crates/http/src/lib.rs:275 | otherwise each part of the compaction, whether it succeeds, fails or writes half a file, keeps the invariant |
| HandoffProgress.RoundHandsOver | crates/http/src/lib.rs:284-303 | progress: from every state the invariant allows, with any number of permanent bans, written or not, a flush round in which nothing fails leaves each with a line in the list file, banned by the loaded list and out of memory; all other records stay as they were and the lock is free |
| HandoffProgress.SleepToSleep | crates/http/src/lib.rs:270-308 | the same for the whole round from sleep to sleep, whatever the compaction in front of it does; the clean-up behind it leaves no stale record |
| HandoffProgress.RoundWithoutBans | crates/common/src/auto_ban.rs:1101-1118 | without permanent bans in the configuration a round changes nothing |
| HandoffProgress.BanGoesToFile | crates/common/src/auto_ban.rs:800-834 | a worker that issues a new permanent ban goes on to write it |
| HandoffProgress.WorkerWritesBan | crates/common/src/auto_ban.rs:841-882 | an undisturbed worker leaves its permanent ban with a line in the list file and a record that says so |
| HandoffProgress.ClientBanGoesToFile | crates/common/src/auto_ban.rs:800-834 | a worker that issues a temporary client ban goes on to write that |
| HandoffProgress.WorkerWritesClientBan | crates/common/src/auto_ban.rs:900-931 | an undisturbed worker leaves its client ban in the client file, with the end it has in memory in whole seconds |
| HandoffProgress.SignalLoadsList | crates/common/src/ip_ban.rs:194-212 | after a reload on request every address with a line in the file is banned |
| HandoffProgress.RestartRestoresBans | crates/common/src/auto_ban.rs:937-1012 | after a restart every client ban of the file with time left is in force again |
| HandoffProgress.RestartLoadsList | crates/common/src/ip_ban.rs:194-212 | and every address with a line in the list file is banned by the list |
| HandoffProgress.CompactsWhenDue | crates/common/src/auto_ban.rs:1019-1093 | at the first round after a start, and then a day after the last time, the client file is rewritten; otherwise it is left alone |
| HandoffProgress.HttpOrderServes | crates/http/src/workers/socket/connection.rs:345-375 | two checks in a row serve a request, as far as bans go, exactly if its address is banned neither in memory nor by the list |
| HandoffProgress.ListFirstServes | crates/udp/src/workers/socket/mio/mod.rs:179-195 | the same in the other order of the two checks |
| HandoffSafety.WrittenSurvivesRestarts | crates/common/src/auto_ban.rs:841-882 | for the same configurations: once the line of a permanently banned address is in the list file, the address stays under its ban and protected at every later step, through any restarts, compactions, failed reloads and torn writes |
| HandoffStrangers.NoStrangers | crates/common/src/ip_ban.rs:86-101 | in every run without torn writes the loaded list bans a peer only if it or the list file did at first, or the peer has the canonical address of one that was banned for good |
| HandoffStrangers.StrangersAreSpelled | crates/common/src/ip_ban.rs:86-101 | in every run at all, the only others are those that a first part of such an address spells |
| HandoffStrangers.TornWriteBans | crates/common/src/auto_ban.rs:291-304 | a write torn inside an address makes the file ban exactly the peers it banned before and those the written part spells |
| HandoffSafety.RunInv | crates/common/src/auto_ban.rs:1101-1225 | the inductive invariant behind it holds in every state such a configuration reaches |
| HandoffSafety.StepKeeps | crates/http/src/lib.rs:284-303 | each single action, in any state that has the invariant, keeps it |
| HandoffSafety.FlushRemoveKeeps | crates/common/src/auto_ban.rs:1213-1225 | dropping the flushed records is safe because all of them are on the reloaded list by then |
| HandoffSafety.ReloadKeeps | crates/common/src/ip_ban.rs:194-212 | a reload, at any moment and whether it succeeds or fails, loses no address that only the list protects |
| HandoffSafety.AppendKeepsLines | crates/common/src/auto_ban.rs:291-304 | an append that succeeds, fails or is torn after any prefix leaves every line of the file readable |
| HandoffSafety.AppendAddsLines | crates/common/src/auto_ban.rs:1149-1190 | after a complete append, to a file with or without a final newline, the line of every appended address is there |
| HandoffSafety.NewPermanent | crates/common/src/auto_ban.rs:722-788 | a violation adds at most its own address to the permanent records, and that one as not yet written |
| HandoffSafety.DifferentFilesLeaveGap | crates/common/src/auto_ban.rs:1409-1424 | without the validator's same-file rule: a concrete run after which a permanently banned address is banned nowhere |
| HandoffLines.AppendedOnce | crates/common/src/auto_ban.rs:847-879 | with successful writes, and a client-ban file and sibling that are neither the ban file nor the list file, the ban file gains exactly one line per permanent-ban episode, but for the one episode that may still be waiting for the round that `HandoffProgress.RoundHandsOver` describes, and every address flush_to_file returns has its line there |
| HandoffLines.CountAppend | crates/common/src/auto_ban.rs:1149-1190 | appending the lines of a list of addresses raises the line count of each by its occurrences, and of no other |
| HandoffLines.ExactUntilDisturbed | crates/common/src/auto_ban.rs:1104-1208 | only torn writes and restarts make the account inexact; clean failures do not |
| BanRuns.AnswerIsTransition | crates/common/src/auto_ban.rs:634-834 | record_violation answers true exactly when it moved the address from unbanned to banned, and moves no other address |
| BanRuns.TemporaryIsExact | crates/common/src/auto_ban.rs:538-557 | a temporary ban of s seconds is in force before now + s and at no later instant |
| BanKinds.BanGiven | crates/common/src/auto_ban.rs:477-516 | which ban a violation gets, by the fields of the configuration and the k-th ban in a row of the log: attacks and crawlers `immediate_ban_secs` or the default, for good from the second in a row on under escalation; private addresses the default; odd clients the k-th step; listed clients the first of three durations that is not zero, within the jitter |
| BanKinds.BansExactlyWhen | crates/common/src/auto_ban.rs:634-788 | a violation bans if and only if the address is not banned and not refused, and the reason is grave or the count has reached the threshold |
| BanKinds.CountGoesOn | crates/common/src/auto_ban.rs:722-745 | the count grows by one while the window is open and no ban has run out, and else begins anew |
| BanKinds.ThresholdBans | crates/common/src/auto_ban.rs:722-788 | over a run: mild violations within one window ban exactly at the threshold-th |
| BanKinds.RefusedExactlyWhen | crates/common/src/auto_ban.rs:649-717 | the capacity guard refuses if and only if the map is full and the records that are not stale still fill the limit it had before growing |
| BanKinds.ClientBanOfV4 | crates/common/src/auto_ban.rs:423-475 | the length of an IPv4 client's ban, to the second |
| BanKinds.AcceptedRuns | crates/common/src/auto_ban.rs:1297-1376 | in every run of an accepted configuration the records mean what they say and a mild ban falls on exactly the threshold-th violation of its window |
| BanKinds.AcceptedRemembers | crates/common/src/auto_ban.rs:1376-1383 | no accepted configuration forgets an offence within a second |
| BanRuns.BanHoldsThroughRun | crates/common/src/auto_ban.rs:1245-1258 | until it runs out a ban survives every run of violations, sweeps, clean-ups, restores and file writes; only its removal ends it |
| BanRuns.RecordsMeanWhatTheySay | crates/common/src/auto_ban.rs:722-788 | over every run: `offenses` is the length of the longest suffix of ban times with gaps below the decay, `count` the violations since `first_violation`, all inside the window and never above max(1, threshold) |
| BanRuns.LadderClimb | crates/common/src/auto_ban.rs:495-514 | in every such state the k-th heuristic ban in a row lasts the k-th step, and is permanent past the last |
| BanRuns.HistorySurvivesRun | crates/common/src/auto_ban.rs:663-666 | through any run without a ban of the address, its next ban, of any tier and within the decay, continues the offence history if and only if no clean-up or capacity sweep found the record unbanned with its window closed, and the hand-off did not remove it; otherwise it starts over at one |
| BanRuns.HistoryIsLost | crates/common/src/auto_ban.rs:1252-1258 | two bans within the decay on a concrete ladder: with one clean-up in between the second lasts the first step again |
| BanRuns.ValidatorIsSound | crates/common/src/auto_ban.rs:1297-1427 | for every accepted configuration and run: no permanent record when flush_to_file returns early; if there is one, the ban list is named, enabled and the one reloaded; client bans with a duration never make one |
| BanRuns.LimitHolds | crates/common/src/auto_ban.rs:655-717 | over every run the records never outnumber the limit, which never shrinks and never passes its ceiling |
| BanRuns.RestoreOnEmpty | crates/common/src/auto_ban.rs:998-1010 | restoring on an empty map establishes that limit, with the ceiling max(2,000,000, restored + 100,000, 200,000) |
| BanRuns.FewEarlyRefusals | crates/common/src/auto_ban.rs:649-717 | in every run at most five violations of untracked addresses are refused before the limit is at the hard cap |
| Tracker.AutoBanTracker.RecordViolation | crates/common/src/auto_ban.rs:634-788 | answer and whole new state are those of the function the run lemmas are about |
| Tracker.AutoBanTracker.EnsureCapacity | crates/common/src/auto_ban.rs:655-717 | sweep at most once a second, grow, and refuse by the limit that was read first |
| Tracker.AutoBanTracker.RecordTracked | crates/common/src/auto_ban.rs:722-788 | counting, the window and the decision to ban, as a function of the old state |
| Tracker.AutoBanTracker.LoadClientBans | crates/common/src/auto_ban.rs:937-1012 | restoring in any order of the map gives the same records, and the limit that fits them |
| Tracker.AutoBanTracker.Snapshot | crates/common/src/auto_ban.rs:1104-1138 | exactly the permanent addresses and exactly the unwritten ones, without duplicates |
| Tracker.AutoBanTracker.MarkAllPersisted | crates/common/src/auto_ban.rs:1193-1200 | marks exactly the listed records that still exist |
| Tracker.AutoBanTracker.RemoveIps | crates/common/src/auto_ban.rs:1213-1225 | removes exactly the listed records |
| Tracker.AutoBanTracker.RetainKept | crates/common/src/auto_ban.rs:1245-1259 | the loop over the records, in any order, keeps exactly the banned ones and those inside their window |
| Policy.JitterBounded | crates/common/src/auto_ban.rs:423-446 | for every jitter the offset is between minus and plus the jitter, wrap-around included |
| Policy.JitterUsesItsRange | crates/common/src/auto_ban.rs:423-446 | every offset of that range is taken by some address if and only if the jitter is an i64 |
| Policy.ClientBanLength | crates/common/src/auto_ban.rs:453-475 | for every policy a client ban lasts between max(1, base - jitter) and base + jitter, and is zero only for a zero base |
| Policy.PermanentSources | crates/common/src/auto_ban.rs:477-516 | a permanent kind needs a zero default duration or escalation, and for client bans all three durations zero |
| Policy.V4UsesItsRange | crates/common/src/auto_ban.rs:423-446 | the place of an IPv4 address in the spread is its remainder, and every place is taken if there are addresses enough |
| Policy.LadderIsRead | crates/common/src/auto_ban.rs:212-226 | numbers written with commas between them are read as these steps in this order |
| Policy.ValidateAutoBanConfig | crates/common/src/auto_ban.rs:1297-1427 | the checks in their order refuse only for a fault the configuration has |
| Policy.RefusedForFaults | crates/common/src/auto_ban.rs:1297-1427 | an enabled configuration is accepted if and only if it has none of the eleven faults |
| Policy.AcceptedLadder | crates/common/src/auto_ban.rs:213-226 | no step of an accepted ladder is dropped by the lenient parser |
| Policy.AcceptedDuration | crates/common/src/auto_ban.rs:1297-1376 | every temporary ban of an accepted configuration lasts at least a second and at most twenty years |
| BanList.ReadListFile | crates/common/src/list_file.rs:14-37 | the loop gives the numbered entries of all lines |
| BanList.NumberedEntries | crates/common/src/list_file.rs:14-37 | these are the bare texts of the non-empty lines, each with the number of its line, in order, none missing |
| BanList.EntryOfLine | crates/common/src/list_file.rs:20-34 | byte order marks, white space and a comment around an entry leave nothing behind, and `CommentIsNoEntry`: a line of those alone is no entry |
| BanList.IpBanList.Add | crates/common/src/ip_ban.rs:103-144 | a line that does not parse leaves the list as it was; one that does adds its one entry |
| BanList.IpBanList.Query | crates/common/src/ip_ban.rs:146-163 | the scans of the ranges answer whether the address as given or its canonical form has an exact entry or lies in a range |
| BanList.CreateFromContent | crates/common/src/ip_ban.rs:86-101 | the loop over the entries loads each line, skipping those that do not parse |
| BanList.PrintedLineBans | crates/common/src/auto_ban.rs:291-304 | the line written for an address bans, beyond what was banned before, exactly the peers with the same canonical address |
| BanList.LineIsLoaded | crates/common/src/ip_ban.rs:86-101 | a file that holds the line of an address, among any other lines, bans it once loaded |
| BanNetworks.RangeHoldsNetwork | crates/common/src/ip_ban.rs:46-74 | a range holds an address if and only if it is of the same version and each of its first bits, as many as the length says, equals that of the base |
| BanNetworks.NetworkEnds | crates/common/src/ip_ban.rs:46-74 | length zero holds all addresses of the version, full length exactly the base |
| BanNetworks.NetworkLineBans | crates/common/src/ip_ban.rs:103-163 | a network line bans, beyond what was banned before, exactly the peers it is meant for, in either spelling; it is refused if and only if it is too long |
| BanNetworks.NetworkIsLoaded | crates/common/src/ip_ban.rs:86-101 | a file with that line, among any others, bans every such peer once loaded |
| BanNetworks.WrittenNetworkIsLoaded | crates/common/src/ip_ban.rs:86-101 | and a file with nothing else bans nobody else |
| BanNetworks.SlashLines | crates/common/src/ip_ban.rs:104-135 | of all lines with a slash, which are accepted |
| BanList.MappedNetwork | crates/common/src/ip_ban.rs:113-121 | an IPv4-mapped network means the same as its IPv4 form, for every prefix length from 96 |
| ClientBans.ParseClientBanLines | crates/common/src/auto_ban.rs:337-371 | the loop computes the function the next rows are about |
| ClientBans.ParseIsLatest | crates/common/src/auto_ban.rs:337-371 | the file read at a time holds, for every address, the latest expiry of all its lines, if that lies ahead |
| ClientBans.SpacedLineReads | crates/common/src/auto_ban.rs:340-359 | an address and a number with white space around them, and further words behind, are read as that ban |
| ClientBans.OtherLinesSayNothing | crates/common/src/auto_ban.rs:340-359 | comments, lines with one word and lines without an address say nothing |
| ClientBans.AppendIsMaxUpdate | crates/common/src/auto_ban.rs:263-334 | appending, even after an unfinished line, raises the expiry of its address and leaves every other entry alone |
| ClientBans.CleanupClientBans | crates/common/src/auto_ban.rs:1019-1068 | the rewritten file and the number of pruned entries, if nothing is appended meanwhile |
| ClientBans.CompactionKeepsMeaning | crates/common/src/auto_ban.rs:1019-1068 | read at any later time the rewritten file holds what the original would have held |
| ClientBans.CompactionIdempotent | crates/common/src/auto_ban.rs:1019-1068 | compacting a compacted file writes what compacting the original would |
| ClientBans.RestoredEndIsClose | crates/common/src/auto_ban.rs:900-1012 | with clocks in step a restored ban ends less than 2 s before and less than 1 s after its original end |
| ClientRuns.BanIsMissing | crates/common/src/auto_ban.rs:900-931 | over every run of appends, compactions in two steps, failures and crashes: a client ban appended once is missing from the file in the end if and only if its append fell between the reading and the renaming of a compaction |
| ClientRuns.AnySurvivorKeeps | crates/common/src/auto_ban.rs:1019-1068 | a ban is in the file in the end if and only if it was there at first or some append of it, or of a later end, falls outside every such window |
| ClientRuns.RestartKeepsBan | crates/common/src/auto_ban.rs:937-1012 | a client ban appended outside such a window, through any run of appends and compactions before and after it, and restored on an empty map bans the address again, with that end |
| PeerRuns.RunRefines | crates/udp/src/swarm.rs:363-485 | any run of announces and cleans leaves exactly the plain map from (ip, port) to peer and the completed counter; the array never overflows and the cached counter is always the real one |
| PeerRuns.RunForm | crates/udp/src/swarm.rs:363-485 | in every run a UDP map is an array if and only if it holds two peers or fewer |
| PeerMaps.AnnounceRefines | crates/http/src/workers/swarm/storage.rs:274-367 | one announcement, through growing and swap-removal, acts as on a plain map: after `Stopped` the key is gone, else the peer is stored with its id and its time, a seeder if and only if nothing is left to it |
| PeerMaps.CleanRefines | crates/udp/src/swarm.rs:564-581 | one clean-up keeps exactly the peers that are still valid |
| PeerMaps.CleanKeepsValid | crates/udp/src/swarm.rs:564-581 | a peer survives a clean-up, unchanged, if and only if its time lies ahead |
| PeerMaps.ReportIsTrue | crates/udp/src/swarm.rs:487-506 | the reported seeders and leechers are the numbers of keys whose peer is a seeder and of the others, and no subtraction goes below zero |
| PeerMaps.SlicesFit | crates/udp/src/swarm.rs:634-674 | for every length, limit and random offset the subtractions stay non-negative and the slices lie in disjoint halves |
| PeerMaps.SampleIsExact | crates/http/src/workers/swarm/storage.rs:497-537 | the reply holds min(length, limit) distinct stored keys |
| PeerMaps.PeerMap.AnnouncePeer | crates/udp/src/swarm.rs:363-485 | the method does that to its fields, replies with true counts and a sample of the other peers, and sends the right messages |
| PeerMaps.PeerMap.RemovePeer | crates/udp/src/swarm.rs:550-632 | removes the key and says whether it was there |
| PeerMaps.PeerMap.ReportCounts | crates/udp/src/swarm.rs:539-605 | the true counts of the plain map |
| PeerMaps.PeerMap.ExtractResponsePeers | crates/udp/src/swarm.rs:634-674 | a sample, for any offsets drawn |
| PeerMaps.PeerMap.CleanPeers | crates/udp/src/swarm.rs:676-714 | the in-place retain keeps exactly the valid peers, their counter, and reports their number |
| PeerRuns.MessagesBalance | crates/udp/src/swarm.rs:456-482 | over any run the messages Added minus Removed are the peers in the map |
| PeerRuns.IdMessagesAreRight | crates/udp/src/swarm.rs:456-482 | per peer id the messages are right if and only if a known key announces under its stored id |
| UdpSwarm.StepKeeps | crates/udp/src/swarm.rs:193-333 | each action of an announcer or of the cleaner keeps the invariant over shards, torrents, flags and locks |
| UdpSwarm.FlagsClearBetweenPasses | crates/udp/src/swarm.rs:297-323 | between passes `pending_removal` is false for every mapped torrent |
| UdpPass.ExpiredAreGone | crates/udp/src/swarm.rs:261-295 | over every run: once the scan of a shard is over, and until the next pass, a mapped torrent of it holds a peer whose time was up when the pass began only if the peer was announced after the torrent's own scan |
| UdpPass.WholePassCleans | crates/udp/src/swarm.rs:245-333 | so between passes no other expired peer is in any mapped torrent |
| UdpPass.RetainDropsExactly | crates/udp/src/swarm.rs:297-323 | over every run the retain check unmaps a torrent if and only if it is forbidden, or its scan in this pass left it without a peer and it still has none |
| UdpPass.PassEnds | crates/udp/src/swarm.rs:245-333 | from every state of the invariant the cleaner's own steps lead to the end of the pass |
| UdpSwarm.OnlyIdleEntriesGo | crates/udp/src/swarm.rs:297-323 | an allowed entry is unmapped only if it is empty at the check and was seen empty by the scan of the same pass |
| UdpSwarm.StaysVisible | crates/udp/src/swarm.rs:184-333 | through any interleaving a visible peer stays visible, in the same torrent object, until it stops, expires or its torrent is forbidden |
| UdpSwarm.LookUpToWrite | crates/udp/src/swarm.rs:193-218 | over every run from an announcer's lookup to its write: the announcement is lost, changing nothing mapped, if and only if a retain pass drops the torrent in between, forbidden or flagged and empty; otherwise the peer is stored in the torrent scrapes see |
| UdpSwarm.SafeWithoutRetain | crates/udp/src/swarm.rs:297-323 | no announcement is lost while no retain pass comes by its torrent |
| UdpSwarm.AnnouncementCanBeLost | crates/udp/src/swarm.rs:297-323 | from any initial state, for any announcer and any hash: the run in which its announcement is written into an orphan |
| UdpTally.TallyIsExact | crates/udp/src/swarm.rs:245-333 | over every run of announcers and cleaner, peers added minus peers removed are the peers of all mapped torrents and those left in unmapped ones; so the statistics are right if and only if every unmapped torrent is empty |
| UdpSwarm.ScrapeIsTrue | crates/udp/src/swarm.rs:220-243 | in every reachable state a scrape is defined and reports how many keys have a seeder, how many another peer, and the downloads, each cut off at the i32 maximum; zeros for an unknown hash |
| HttpSwarm.TorrentMap.UpsertPeer | crates/http/src/workers/swarm/storage.rs:186-206 | updates the one torrent, replies truly, and leaves the gauge equal to all peers of all torrents |
| HttpSwarm.TorrentMap.HandleScrape | crates/http/src/workers/swarm/storage.rs:208-233 | answers exactly the first `limit` hashes, each with the number of keys of its plain map whose peer is a seeder, of the others, and of downloads |
| HttpSwarm.StatsTell | crates/http/src/workers/swarm/storage.rs:369-387 | these are the three numbers of a stored torrent, and three zeros those of any other |
| HttpSwarm.TorrentMap.CleanTorrents | crates/http/src/workers/swarm/storage.rs:235-265 | in whatever order it retains: forbidden and empty torrents go, the others are cleaned, and the gauge is the total again |
| HttpSwarm.GaugeChangeIsExact | crates/http/src/workers/swarm/storage.rs:340-364 | the one counted up or down is the difference the announcement makes to the peers of all torrents |
| FanOut.SplitByWorker | crates/http/src/workers/socket/connection.rs:710-718 | one walk gives each worker the hashes of its first bytes, in order |
| FanOut.WaitForScrapeResponses | crates/http/src/workers/socket/connection.rs:754-786 | succeeds exactly when there are replies and none is missing, with their merge |
| FanOut.MergeIsUnion | crates/http/src/workers/socket/connection.rs:754-786 | in every order of arrival the merge says exactly what the replies say |
| FanOut.RunShares | crates/http/src/workers/socket/connection.rs:892-896 | through any run of routed announces and of cleans, each worker on its own timer, the workers together hold what one worker would that cleans by shares |
| FanOut.SharesOfACleanUp | crates/http/src/workers/swarm/storage.rs:235-265 | when all workers clean at once the shares add up to the clean-up of one store |
| FanOut.FanOutEqualsSingle | crates/http/src/workers/socket/connection.rs:700-786 | after any such run a scrape of at most `limit` hashes, replies in any order, is exactly the answer of one worker that owns all torrents, and tells for each hash the seeders, other peers and downloads of its own story |
| FanOut.RunTellsStory | crates/http/src/workers/swarm/storage.rs:186-265 | through any run of announces and cleans each torrent is the plain map its own announces and cleans make, dropped with its counter when forbidden or left empty |
| FanOut.FanOutOverTime | crates/http/src/workers/socket/connection.rs:700-786 | with workers that answer at different moments, announces and cleans going on in between: every hash is answered, with what a single worker would have said, truly, at the moment its own worker answered |
| FanOut.FanOutIsExact | crates/http/src/workers/swarm/storage.rs:208-233 | for requests of any length: the two agree if and only if no worker takes a hash that lies beyond the limit of the whole request |
| FanOut.LongScrapesDiffer | crates/http/src/workers/swarm/storage.rs:208-233 | a concrete longer request on which they differ |
| Framing.Connection.ReadRequest | crates/http/src/workers/socket/connection.rs:524-588 | outcome and bytes left are a function of the stream alone, whatever the sizes of the reads |
| Framing.Connection.FinishRequest | crates/http/src/workers/socket/connection.rs:590-632 | the in-place move leaves exactly what follows the request |
| Framing.Connection.Serve | crates/http/src/workers/socket/connection.rs:524-632 | so is the whole session of a connection |
| Framing.SessionIsParse | crates/http/src/workers/socket/connection.rs:524-632 | the session is the parse of the concatenated stream; a full buffer only cuts it short |
| Framing.WindowVerdict | crates/http/src/workers/socket/connection.rs:524-588 | the first 2048 bytes decide as the whole stream does, unless one request goes on beyond them |
| Framing.BufferFullMeans | crates/http/src/workers/socket/connection.rs:524-588 | a full buffer is reported only when one unfinished request fills all 2048 bytes, right after bytes that are exactly the requests of the session with nothing left over |
| WsScrape.AnswersAreExact | crates/ws/src/workers/socket/connection.rs:641-711 | however scrapes, replies and losses interleave: each scrape is answered at most once, exactly when all its workers replied, with the merge of its own replies; open scrapes never share an id |
| WsScrape.ReplyFindsItsEntry | crates/ws/src/workers/socket/connection.rs:764-793 | a reply always finds the entry of its own scrape with a reply still owed to it |
| WsScrape.OnlyIdsFail | crates/ws/src/workers/socket/connection.rs:683-695 | the connection fails only over an id that does not fit its byte |
| WsScrape.ScrapeSlab.Submit | crates/ws/src/workers/socket/connection.rs:641-711 | a scrape gets an id no open scrape has, keeps the slab invariant, and fails only over the size of its id, with its entry in place |
| WsScrape.ScrapeSlab.TakeReply | crates/ws/src/workers/socket/connection.rs:764-793 | a reply reaches the entry of its own scrape and keeps the invariant; the last one answers with the merge of all its replies |
| WsScrape.ScrapeSlab.Receive | crates/ws/src/workers/socket/connection.rs:764-793 | an unknown id is an error and changes nothing; the last reply removes the entry and yields the answer |
| HttpCodec.AnnounceRoundTrip | crates/http_protocol/src/request.rs:24-177 | the parser gives back every announce that was written, if and only if its encoded key is at most 100 bytes; else it refuses |
| HttpCodec.ScrapeRoundTrip | crates/http_protocol/src/request.rs:186-254 | the parser gives back every scrape that was written, if and only if it has a hash; else it refuses |
| HttpSuffix.AnnounceWithSuffix | crates/http_protocol/src/request.rs:70-177 | for every suffix without spaces and control characters: which suffixes a written announce is accepted with, in terms of the segments of the suffix, and what is read then; with every other suffix it is refused |
| HttpSuffix.AnnounceComesBack | crates/http_protocol/src/request.rs:24-68 | the announce that was written is read if and only if the suffix names its info hash and contradicts no option left to its default |
| HttpSuffix.ScrapeWithSuffix | crates/http_protocol/src/request.rs:209-254 | the same for scrapes: the hashes of the suffix take the place of the first that was written |
| HttpSuffix.ScrapeComesBack | crates/http_protocol/src/request.rs:186-207 | the scrape that was written is read if and only if the suffix names its first hash and no other |
| HttpSuffix.EmptyScrapeWithSuffix | crates/http_protocol/src/request.rs:209-254 | a scrape without hashes is read as those of the suffix, or refused |
| HttpSuffix.SuffixedQuery | crates/http_protocol/src/request.rs:83-164 | the pairs of such a query: those of the suffix's whole segments, then the written ones, the first of them glued to the suffix's last segment |
| HttpSuffix.MarkLosesHash | crates/http_protocol/src/request.rs:295-321 | with a lone question mark as suffix a scrape is read without its first hash |
| HttpCodec.WriteAnnounce | crates/http_protocol/src/request.rs:24-68 | what is written is the request line around the joined pairs of the announce |
| HttpCodec.WriteScrape | crates/http_protocol/src/request.rs:186-207 | the loop writes one pair per hash with ampersands between them |
| HttpCodec.JoinIsRead | crates/http_protocol/src/request.rs:83-164 | joined pairs without delimiters in them are found again by the walk |
| Queries.LockstepIsPieces | crates/http_protocol/src/request.rs:83-164 | for every query at all: what the walk over `=` and `&` sees, told in terms of the segments, with every malformed case |
| Queries.LockstepIsSplit | crates/http_protocol/src/request.rs:83-164 | with one `=` in each segment it sees exactly the pairs of splitting on `&` and then on `=` |
| HttpRequests.ParseAnnounceQuery | crates/http_protocol/src/request.rs:70-177 | the loop over the equal signs computes the function the next row is about |
| HttpRequests.AnnounceMeans | crates/http_protocol/src/request.rs:70-177 | a query is accepted if and only if the walk is not lost, every value is readable and the six required fields occur; then the last value of each field counts |
| HttpRequests.ParseScrapeQuery | crates/http_protocol/src/request.rs:209-254 | the same for scrapes |
| HttpRequests.ScrapeMeans | crates/http_protocol/src/request.rs:209-254 | a scrape yields all its hashes in order, and is refused if there is none or one is unreadable |
| HttpRequests.ParseHttpGetPath | crates/http_protocol/src/request.rs:295-314 | location and query are cut at the first question mark and go to the parser of their location |
| UrlBytes.UrlEncode20Bytes | crates/http_protocol/src/utils.rs:9-19 | the array filled by index holds the percent pairs of the bytes |
| UrlBytes.UrlDecode20Bytes | crates/http_protocol/src/utils.rs:21-58 | the loop decodes exactly twenty bytes and nothing after them |
| UrlBytes.DecodeOfEncode | crates/http_protocol/src/utils.rs:9-58 | what was encoded is decoded, for any number of bytes |
| UrlBytes.StrictIsSpelling | crates/http_protocol/src/utils.rs:9-58 | a decoder that compares whole characters accepts a text as these bytes if and only if it spells them, in plain characters and pairs of real hex digits |
| UrlBytes.DecodeIsStrictOrForeign | crates/http_protocol/src/utils.rs:21-58 | the decoder reads all that the strict one reads, and accepts beyond that if and only if some percent pair of the value holds a character above 255 whose low byte is a hex digit |
| UrlBytes.DecodeIsSpelling | crates/http_protocol/src/utils.rs:21-58 | on characters up to 255 the decoder accepts exactly the spellings |
| UrlBytes.ForeignHexDigit | crates/http_protocol/src/utils.rs:44-47 | a value of twenty bytes that is accepted and that the strict decoder refuses |

## Left out

- Sockets, TLS, the glommio, mio and io_uring runtimes, signals, CPU pinning, statistics output, histograms: foreign calls and plumbing. Channels and threads appear only as steps.
- Failed socket reads, and a connection that stops early because keep-alive is off: both only end a session sooner.
- Lexical normalisation of paths, and the metadata error of `file_ends_with_newline` on an existing file.
- Operator edits of the ban file, and a reload split into reading and swapping: a reload is one step.
- Symbolic links: a rename replaces a link by a file, while paths that are resolved once stay the same file here.
- Torn appends to the client-ban file are steps of the hand-off, but `client_runs.dfy` knows complete ones only.
- Text: a carriage return at the end of a line is left to the trimming of every reader; files are characters, so the lossy decoding of other bytes is not modelled.
- The order of torrents in their maps: clean-ups pick them in arbitrary order.
- Access lists of scrapes, peer filters, announce intervals and the reply's wire form.
- Failed sends to the statistics worker.
- Empty WebSocket scrapes leave a slab entry that is never answered; `WsScrape.AnswersAreExact` shows that they get no answer.
- `completed` counters are unbounded numbers; the code's `u64` would wrap after 2^64 downloads of one torrent.
- The HTTP header parser: the request target is taken as the text between the first two spaces, and path suffixes with spaces or control characters are left to that parser.
- WebTorrent offers, the UDP wire format, connection ids, request filters, peer-id tables, forwarded-for headers, load testers, configuration files: easy members or not connected to the state above.
