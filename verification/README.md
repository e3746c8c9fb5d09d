# What chocofactory's daemon and command line promise, proved

chocofactory runs coding agents. Its daemon (`chocofactoryd`) starts an agent for a turn, kills what
the turn left running, and keeps a private copy of the built-in workflows; its command line (`choco`)
builds task configs, watches tasks and serves the tool an agent reports through. This project models
the parts of it whose correctness is least obvious from reading one function, and proves what the
code's comments, documentation and tests promise of them.

- `ProcTable.dfy`, `ProcWorld.dfy`, `ProcStat.dfy`: which processes a turn started. `ProcTable` is the
  code: the worklist over parent links, and the rule with its seeds and its session closure. `ProcWorld`
  is the operating system around it: fork, exec, setsid, setuid, exit with reparenting, reaping, pid
  reuse, a clock, a scan that reads one process at a time while the world moves on, and recording.
  "The turn started it" is a chain of forks back to the agent, kept apart from everything the daemon
  can see. The rule is proved sound in every run, the agent reaped or not and with identities recorded
  or not, and exact where the turn keeps its environment.
- `ReportHeading.dfy`, `ReportSections.dfy`, `ReportForms.dfy`, `ReportSession.dfy`: the report an agent
  must file. How a markdown line is reduced to a heading, which required sections a report accounts for,
  the forms a heading may take, and the session that turns thin reports away, but not for ever. The
  message of a rejection says that `<section>: none` is enough (`chocofactory-core/src/mcp.rs`, line 353);
  the code accepts it if and only if no quote or underscore closes the required name and no longer name
  is headed. `ReportForms.QuotedNameIsMissed` is a required name for which it is not enough.
- `FileTree.dfy`, `Links.dfy`, `MakingDirs.dfy`, `NamedCalls.dfy`, `BuiltinTree.dfy`, `ConfigRoot.dfy`,
  `SeedWorkflows.dfy`, `LegacyScan.dfy`: the built-in workflows on disk. `FileTree` is a tree of files,
  directories and symbolic links behind system calls that may fail at any time, with the tree kept after
  every change. `Links`, `MakingDirs` and `NamedCalls` are about names that lead through links, and where
  they lead while the tree changes. The directory given may itself be a link or lie below one: from any
  tree, nothing outside the place it leads to changes at any moment, and a run that succeeds leaves the
  one canonical tree there exactly if the way does not pass through that place. At every moment of such a
  run a crash is harmless, and a start after it still gets there.
- `Text.dfy`, `ProgressTable.dfy`, `StageTable.dfy`: the progress table. Its columns line up, and with a
  width given it ends at the widest fair layout that fits.
- `Watch.dfy`, `WatchLoop.dfy`: `choco task status --live` and `--until`. How often it polls does not
  change what it reports; a target that was seen is never passed over; contact is lost at three strikes.
- `TaskConfig.dfy`, `ConfigPipeline.dfy`, `ClaudeSettings.dfy`: flags and layers of configuration, from
  the command line through the JSON sent to what the daemon resolves.
- `DaemonLock.dfy`: the lock file shared by daemons and readers, in any interleaving.
- `Duration.dfy`, `Decimal.dfy`: durations as text.

Code of the sources that changes things step by step is imperative here too: the worklist, the section
scan, the file operations, the shrinking loop, the watch loop and the flag loop are methods proved
against a specification, and the lemmas are about that specification. Protocols between processes (the
process world, the lock file) are state machines over system calls.

## Assumptions that are stated, not hidden

- The kernel does not give out a pid that is a live session id, nor one pid twice in a start tick, nor,
  while a scan runs, a pid that was in use earlier in that scan (`Enabled` in `ProcWorld.dfy`). The last
  one is needed. The comments of `chocofactoryd/src/proc_table.rs` (lines 22 to 26) say the start-time
  check guards a pid reused mid-scan; it covers only a parent's pid reused after the child began.
  `ProcWorld.HandoverAdoptsAStranger` is a run, legal but for that assumption, in which the rule returns
  a process the agent never started.
- The daemon's marker is in the agent's environment alone when it is spawned, and the agent starts in
  the daemon's session (`Init` in `ProcWorld.dfy`).
- The daemon does not reap the agent while a scan it has begun is in use (`Reap` and `ScanEnd` in
  `ProcWorld.dfy`): between scans it may.
- A file is read, and a rename takes effect, at one moment; a process that is killed has done a first
  part of its system calls. What reading the lock file in several pieces does to that is stated in
  `DaemonLock.dfy`.
- No first part of a lock document parses, and a whole one parses to itself (`Lawful` in
  `DaemonLock.dfy`). The initial content of the lock file is a first part of some document.
- Lowercasing, letters and digits, and white space are a table of which only the facts in `Lawful`
  (`ReportHeading.dfy`) are used. One fact is a limit: it maps one character to one character.

## Model

| member | source | states |
|---|---|---|
| `ProcTable.IndexChildren` | chocofactoryd/src/proc_table.rs:114-117 | The child index holds, under every pid, exactly the entries that name it as parent. |
| `ProcTable.VisitChildren` | chocofactoryd/src/proc_table.rs:122-133 | Visiting one popped pid keeps: no pid found twice, everything found a descendant, every pid popped before fully expanded. |
| `ProcTable.Worklist` | chocofactoryd/src/proc_table.rs:118-135 | Ends on any table, link cycles included, without duplicates, at exactly the pids a chain of links leads to. |
| `ProcTable.Descendants` | chocofactoryd/src/proc_table.rs:112-136 | Without duplicates, exactly the pids other than the agent reachable along parent links whose child started no earlier than a listed parent. |
| `ProcTable.ClosedHoldsDescendants` | chocofactoryd/src/proc_table.rs:120-134 | Any set with the agent that is closed under links holds every descendant: the loop stops at the least such set. |
| `ProcTable.CollectSeeds` | chocofactoryd/src/proc_table.rs:142-153 | The seeds are exactly the listed processes proven by descent, by a recorded identity or by the marker, and not never-owned. |
| `ProcTable.OwnedPids` | chocofactoryd/src/proc_table.rs:140-170 | The result holds, with multiplicity, exactly the entries the rule owns. Where no pid is listed twice it is, in entry fields: ascending, each pid once, those alive, of the daemon's user and neither init, daemon nor agent that carry the marker, a recorded identity or a line of listed parents down from the agent (each child starting no earlier), or share a session with such a one, unless that is session 0 or 1, the daemon's or the listed agent's. |
| `ProcTable.ListedIsOwned` | chocofactoryd/src/proc_table.rs:140-170 | A pid is in the result if and only if some entry with that pid is owned under the rule. |
| `ProcTable.DescendantsByLineage` | chocofactoryd/src/proc_table.rs:112-136 | On a table without pids listed twice, what the worklist reaches is what a line of entries leads down to from the agent, each naming the one before as its parent and starting at its start or later. |
| `ProcTable.OwnsByTheTable` | chocofactoryd/src/proc_table.rs:140-170 | There the rule owns an entry if and only if its fields and those of the other entries say so. |
| `ProcTable.SessionMatesAreOwned` | chocofactoryd/src/proc_table.rs:155-167 | What shares a session of the turn's own with a process shown to be the turn's is returned with it, marker or not, whoever its parent is. |
| `ProcTable.SameRuleSameList` | chocofactoryd/src/proc_table.rs:162-169 | With unique pids, two calls that own the same entries return the same list. |
| `ProcTable.OrderDoesNotMatter` | chocofactoryd/src/proc_table.rs:140-170 | With unique pids, every permutation of the table gives the same list. |
| `ProcTable.RuleIsMonotone` | chocofactoryd/src/proc_table.rs:146-152 | A larger set of recorded identities never disowns a process. |
| `ProcTable.RuleIsClosed` | chocofactoryd/src/proc_table.rs:140-170 | On a table with unique pids, recording every identity returned and asking again returns the same list. |
| `ProcWorld.StepKeepsInv` | chocofactoryd/src/proc_table.rs:10-39 | Fork, exec, setsid, setuid, exit, reap, the steps of a scan and recording each keep the invariants on links, sessions, marker, records and the scan so far. |
| `ProcWorld.ForkKeepsSessions` | chocofactoryd/src/proc_table.rs:30-37 | Outside the daemon's session a session is all of the turn or not at all, and a fork keeps it so. |
| `ProcWorld.ForkKeepsScan` | chocofactoryd/src/proc_table.rs:36-37 | A fork during a scan changes nothing of what the entries read so far prove. |
| `ProcWorld.HeirIsAForebear` | chocofactoryd/src/proc_table.rs:19-22 | When a process exits its children pass to init or to a live process they also descend from. |
| `ProcWorld.ExitKeepsInv` | chocofactoryd/src/proc_table.rs:19-22 | Exit with reparenting keeps every invariant. |
| `ProcWorld.ScanReadKeepsInv` | chocofactoryd/src/proc_table.rs:36-37 | Reading one more process into a running scan keeps what any two entries say together consistent. |
| `ProcWorld.RecordKeepsInv` | chocofactoryd/src/proc_table.rs:24-26 | Recording by descent keeps every recorded identity one of the turn. |
| `ProcWorld.ChainIsDescent` | chocofactoryd/src/proc_table.rs:19-23 | Parent links followed down from the agent inside one scan meet only what the agent started. |
| `ProcWorld.EveryRunKeepsInv` | chocofactoryd/src/proc_table.rs:10-39 | The invariants hold after every run from the moment of the spawn. |
| `ProcWorld.OwnershipIsSound` | chocofactoryd/src/proc_table.rs:10-39 | In every run, over any number of scans and with the agent reaped before any of them, every pid returned was read from a live process the agent started, is none of those never owned, and still names that process if it names any. |
| `ProcWorld.OwnershipIsComplete` | chocofactoryd/src/proc_table.rs:140-170 | In every run in which the turn keeps its marker readable, a marked scan returns every live same-uid process of the turn it saw: reparented, in its own session, agent reaped. |
| `ProcWorld.OwnershipIsExact` | chocofactoryd/src/proc_table.rs:140-170 | There a pid still alive that the scan saw is returned if and only if the agent started it. |
| `ProcWorld.RunKeepsTurn` | chocofactoryd/src/proc_table.rs:30-37 | In every run nothing of the turn has pid or session 0 or 1, and a marker is read off live processes only. |
| `ProcWorld.UnreadableMateIsOwned` | chocofactoryd/src/proc_table.rs:28-37 | In every run a live same-uid process of the turn whose environment cannot be read is returned if it is in a session with a marked one, other than the daemon's and the listed agent's. |
| `ProcWorld.RecordOutlivesTheAgent` | chocofactoryd/src/proc_table.rs:24-26 | A run in which a child is recorded in one scan, the agent exits and is reaped, and a second scan returns the orphan by its recorded identity alone. |
| `ProcWorld.HandoverAdoptsAStranger` | chocofactoryd/src/proc_table.rs:22-23 | A run in which a pid changes hands inside a scan and a process the agent never started is returned. |
| `ProcStat.AnyCommandName` | chocofactoryd/src/proc_table.rs:244-261 | Whatever is in a command name, blanks and parentheses too, it comes back whole and the fields after it are read as they stand. |
| `ProcStat.PrintedIntReadsBack` | chocofactoryd/src/proc_table.rs:254-256 | A number printed is read back if it fits 32 bits, and refused if not. |
| `ProcStat.StatReadsBack` | chocofactoryd/src/proc_table.rs:247-261 | State, parent, group, session, start time and name written as the kernel does are read back exactly. |
| `ProcStat.FillPids` | chocofactoryd/src/proc_table.rs:215-234 | Returns only a list that left room in its buffer, after buffers filled to the last place; ends with it, with the system's error, or when the doubled size would overflow. |
| `ReportHeading.StripEmphasis` | chocofactory-core/src/mcp.rs:93-95 | Taking `**` off the front while it is there reaches a text from which the same pieces remain to be peeled. |
| `ReportHeading.StripLeadingMarkers` | chocofactory-core/src/mcp.rs:82-109 | The loop ends at the unique normal form reached by peeling decoration one piece at a time. |
| `ReportHeading.NothingToPeel` | chocofactory-core/src/mcp.rs:75-126 | Nothing is left to peel exactly when no blank, mark, bullet or list number stands in front. |
| `ReportHeading.PeelMark` | chocofactory-core/src/mcp.rs:82-126 | One heading sign, quote, emphasis mark, blank, bullet or list number is peeled off whatever follows it. |
| `ReportHeading.PeelMarks` | chocofactory-core/src/mcp.rs:82-126 | Any run of them is. |
| `ReportHeading.DecorationIsInvisible` | chocofactory-core/src/mcp.rs:56-67 | Any run of such marks in front of a text leaves its normalized form as it was. |
| `ReportHeading.ClosingIsInvisible` | chocofactory-core/src/mcp.rs:56-67 | So does any run of closing marks, behind anything that is not itself a bare marker. |
| `ReportHeading.DecoratedIsTheSame` | chocofactory-core/src/mcp.rs:56-67 | So do both at once. |
| `ReportHeading.NormalFormIsPeeled` | chocofactory-core/src/mcp.rs:56-67 | A normalized text has nothing left to peel in front. |
| `ReportHeading.NormalFormIsSettled` | chocofactory-core/src/mcp.rs:56-67 | And no arrow, capital or inner hyphen left to rewrite. |
| `ReportHeading.NormalizingTwice` | chocofactory-core/src/mcp.rs:56-67 | Normalizing again changes nothing if and only if the text hides no closing mark: one not peeled off in front, behind which stand only blanks and closing marks, one of the blanks neither space nor tab. |
| `ReportHeading.NormalizingIsIdempotent` | chocofactory-core/src/mcp.rs:56-67 | On text whose only white space is space and tab, normalizing twice is normalizing once. |
| `ReportHeading.IdempotenceNeedsPlainBlanks` | chocofactory-core/src/mcp.rs:61-61 | With another blank after a closing mark it is not: `a*` and a newline. |
| `ReportHeading.LongestHit` | chocofactory-core/src/mcp.rs:288-299 | The chosen name hits, no hitting name is longer, and of equals it is the last. |
| `ReportHeading.WholeLineWins` | chocofactory-core/src/mcp.rs:282-311 | A line that is one of distinct names heads that section, with nothing left over. |
| `ReportHeading.DecoratedNameIsRecognised` | chocofactory-core/src/mcp.rs:286-342 | With distinct non-empty normalized names, a required name in any decoration heads its section, with nothing left over. |
| `ReportHeading.BlankHeadsNothing` | chocofactory-core/src/mcp.rs:286-342 | With non-empty normalized names a blank line heads no section. |
| `ReportForms.ArrowIsSpelled` | chocofactory-core/src/mcp.rs:45-45 | An arrow and `->` make the same heading. |
| `ReportForms.CapitalsAreInvisible` | chocofactory-core/src/mcp.rs:55-57 | So do capitals and small letters. |
| `ReportForms.HyphenIsABlank` | chocofactory-core/src/mcp.rs:52-54 | So do a hyphen and a blank between two letters or digits. |
| `ReportForms.HeadsWhereNameEnds` | chocofactory-core/src/mcp.rs:327-342 | What follows a name leaves a heading if and only if nothing shows in it, or first of all one of the twelve marks that end a name, each spelled out. |
| `ReportForms.HeadingInFull` | chocofactory-core/src/mcp.rs:282-342 | A line heads the section whose name is the longest of those its normal form is with what may follow it, the last of equals, and none if there is no such name; what is left over is what follows the name without the marks that say nothing, spelled out. |
| `ReportForms.PunctuationEndsAName` | chocofactory-core/src/mcp.rs:257-280 | A name and, blanks aside, one of those marks is a heading for it unless a longer name is headed; it says nothing more exactly when only marks that say nothing follow. |
| `ReportForms.ProseHeadsNothing` | chocofactory-core/src/mcp.rs:262-280 | A name and, blanks aside, a letter or a digit is no heading for it. |
| `ReportForms.NormalWithColon` | chocofactory-core/src/mcp.rs:56-67 | A name, a colon and a text: normalized, the normalized name and something that begins, blanks aside, with the first closing mark behind the name or else the colon. |
| `ReportForms.ColonHeadsItsSection` | chocofactory-core/src/mcp.rs:254-342 | A line of any decoration, a required name, a colon and a text with a letter or digit heads that section, and says something under it, if and only if no quote or underscore closes the name and the line heads no longer name. |
| `ReportSections.ScanBelow` | chocofactory-core/src/mcp.rs:235-242 | The scan under a heading finds content exactly when a visible line comes before any line that heads a section not yet accounted for. |
| `ReportSections.Account` | chocofactory-core/src/mcp.rs:197-244 | The pass computes `Done`; where no blank line is a heading, all inner scans together examine at most as many lines as there are. |
| `ReportSections.MissingSections` | chocofactory-core/src/mcp.rs:180-252 | The names returned are those of the sections not accounted for, in the declared order. |
| `ReportSections.OneLookIsEnough` | chocofactory-core/src/mcp.rs:234-242 | A heading has content exactly when its own line does, or when there is a next visible line and it heads nothing or a section already accounted for. |
| `ReportSections.DoneMeansCredited` | chocofactory-core/src/mcp.rs:197-244 | A section is accounted for if and only if one of its headings has content at the moment the pass reaches it. |
| `ReportSections.AccountedInOneLook` | chocofactory-core/src/mcp.rs:180-252 | The whole rule for a summary, with one look per heading. |
| `ReportForms.WrittenOutMissesNone` | chocofactory-core/src/mcp.rs:180-252 | A summary with such a line for every section, in any order and with anything between, misses none, if no name is closed by a quote or underscore and none reads as a heading for another. |
| `ReportForms.NoneOfAllMissesNone` | chocofactory-core/src/mcp.rs:344-360 | The form the rejection asks for: then `<section>: none` for every section misses none. |
| `ReportForms.QuotedNameIsMissed` | chocofactory-core/src/mcp.rs:344-360 | A required name in backquotes is still missing from the report that says just that. |
| `ReportSections.EmptyWalkDoesNothing` | chocofactory-core/src/mcp.rs:217-226 | Blank lines and bare headings, in any order and number, account for nothing. |
| `ReportSections.EmptyWalksNeverPass` | chocofactory-core/src/mcp.rs:180-252 | A summary of nothing else is missing every required section. |
| `ReportSections.LongerDoesNoLess` | chocofactory-core/src/mcp.rs:197-244 | More lines after a report leave no section of it unaccounted for. |
| `ReportSections.MoreTextNeverHurts` | chocofactory-core/src/mcp.rs:180-252 | Text added below a summary, after its last newline or on new lines, never makes a satisfied section missing; for a summary that breaks off in a carriage return that is so if and only if the summary without it satisfies as much. |
| `ReportSections.ReturnCanHurt` | chocofactory-core/src/mcp.rs:188-196 | A summary that breaks off in a carriage return, of which a new line below makes a satisfied section missing. |
| `ReportSession.CheckMissing` | chocofactory-core/src/mcp.rs:534-555 | A report with sections missing counts, and is turned away at most twice. |
| `ReportSession.CheckOutcome` | chocofactory-core/src/mcp.rs:510-555 | From the outcome on: the cheapest problem is answered first, and only a thin report is counted. |
| `ReportSession.CheckReportCall` | chocofactory-core/src/mcp.rs:503-556 | One call: the reply to its verdict, and the counter one higher exactly if it was thin. The verdict is so of the call: no outcome; one off a list that is not empty; no summary; sections missing; or none. The reply is an error unless the report is complete, or thin for the third time or later. |
| `ReportSession.TrimIsTrimmed` | chocofactory-core/src/mcp.rs:503-512 | An outcome is judged without the blanks at its ends, and with all else. |
| `ReportSession.VerdictIsJust` | chocofactory-core/src/mcp.rs:503-552 | What a verdict says of a call is so: of its outcome, the stage's list, its summary, and the sections missing. |
| `ReportSession.RecordedIsOnTheList` | chocofactory-core/src/mcp.rs:510-530 | No outcome is recorded but the one reported, and one on the stage's list if it has one; all other replies are errors. |
| `ReportSession.CallTool` | choco/src/mcp.rs:213-237 | A malformed call is a protocol error and spends nothing; a well-formed one is checked. |
| `ReportSession.HandleLine` | choco/src/mcp.rs:138-181 | A line is answered exactly when it does not parse or has an id, with the answer owed to it. |
| `ReportSession.ServeLine` | choco/src/mcp.rs:125-131 | A blank line is owed nothing and changes nothing. |
| `ReportSession.ServeChecked` | choco/src/mcp.rs:114-133 | The output of a session is what its lines are owed, in order. |
| `ReportSession.ResponseAt` | choco/src/mcp.rs:125-131 | The response to a line stands after as many as were owed before it. |
| `ReportSession.AnswerEchoesId` | choco/src/mcp.rs:138-181 | An answer carries the id of its request, or null if the line did not parse. |
| `ReportSession.WireIsAResponse` | choco/src/mcp.rs:253-260 | The line written for a response has the protocol version, its id, and either a result or an error, an error exactly for a failure, with the code of its kind (JSON-RPC 2.0, sections 5 and 5.1). |
| `ReportSession.CheckReachesTheWire` | choco/src/mcp.rs:239-260 | The answer to a report call says on the wire what was found, and whether it is an error. |
| `ReportSession.OneResponsePerRequest` | choco/src/mcp.rs:114-181 | A session writes one response object per unparseable or id-bearing line and none for any other, in order, each echoing its id (JSON-RPC 2.0, sections 4.1 and 5). |
| `ReportSession.ThinCallsAreNumbered` | chocofactory-core/src/mcp.rs:534-552 | The first two thin reports of a session are turned away; each later one is recorded with its true attempt number. |
| `ReportSession.AtMostTwoAreTurnedAway` | chocofactory-core/src/mcp.rs:147-158 | Over any session at most two reports are rejected for missing sections, and fewer only if fewer were thin. |
| `ReportSession.OtherLinesSpendNothing` | chocofactory-core/src/mcp.rs:503-556 | A line that is not a thin call, put anywhere into a session, spends nothing of that allowance. |
| `Links.FollowGrows` | chocofactoryd/src/config_root.rs:176-190 | As the tree grows, a path that resolves goes on resolving to the same place. |
| `Links.NamedStep` | chocofactoryd/src/config_root.rs:268-289 | A name leads to the node it is located at, if there is one and it is no link; without a node there it leads nowhere. |
| `Links.FollowConfined` | chocofactoryd/src/config_root.rs:268-330 | After changes confined to one directory, with no new link, a path leads nowhere, or where it led, or below that directory. |
| `Links.StraightStays` | chocofactoryd/src/config_root.rs:268-330 | A name whose way does not pass through the place it leads to goes on leading there whatever changes inside. |
| `MakingDirs.CreateDirAll` | chocofactoryd/src/config_root.rs:211-213 | Through any links, only missing directories on the way are made, at every step; on success the name leads to its destination; unless calls fail, success exactly when the way is passable. |
| `MakingDirs.GrownIsConfined` | chocofactoryd/src/config_root.rs:284-289 | What is made under a name that cannot be made to lead outside a place is made inside it. |
| `FileTree.LeafGoes` | chocofactoryd/src/config_root.rs:320-321 | Removing a directory from its leaves never leaves a node without its directory. |
| `FileTree.FileSystem.RemoveUnder` | chocofactoryd/src/config_root.rs:320-321 | Every tree on the way is the old one without some nodes at or under the path; success means without all of them. |
| `ConfigRoot.SetDirMode` | chocofactoryd/src/config_root.rs:211-215 | Success means the name leads to its destination and that has the mode; unless calls fail, success exactly when the way is passable; done before, nothing changes. |
| `ConfigRoot.ClearNonDir` | chocofactoryd/src/config_root.rs:272-280 | A name meant for a directory is free or a real directory afterwards, and a directory there is left alone. |
| `ConfigRoot.WriteTemp` | chocofactoryd/src/config_root.rs:234-256 | A leftover temporary file or link is removed, never written through; only its own place changes at any step, and what is there is its owner's alone to read and write until it is the whole file with its mode. |
| `ConfigRoot.WriteIfDifferent` | chocofactoryd/src/config_root.rs:221-256 | At every step the target holds its old node or the whole new file; on success the new one; a file already right is not touched; a directory in the way is an error. |
| `BuiltinTree.ReplacedIsSafe` | chocofactoryd/src/config_root.rs:221-256 | Replacing one target keeps every other target, and everything outside, safe. |
| `ConfigRoot.SweepName` | chocofactoryd/src/config_root.rs:302-326 | One listed name is kept, or removed with all it holds, and nothing else; wherever the listed directory leads inside the place, nothing outside is touched. |
| `ConfigRoot.Sweep` | chocofactoryd/src/config_root.rs:297-328 | Nothing outside the place changes; where the directory swept is reached straight, only strays ever go, at every step, on success none is left, and without strays nothing is touched. |
| `ConfigRoot.WriteFiles` | chocofactoryd/src/config_root.rs:286-293 | All targets hold their files on success; unless calls fail, success exactly when no directory is in the way. |
| `BuiltinTree.OnlyWantedIsThere` | chocofactoryd/src/config_root.rs:295-328 | After the sweeps every node below the directory is a target. |
| `BuiltinTree.CanonicalWhenDone` | chocofactoryd/src/config_root.rs:262-330 | Directories made, files written and strays gone together are the canonical tree. |
| `BuiltinTree.DoneWhenCanonical` | chocofactoryd/src/config_root.rs:262-330 | And conversely. |
| `BuiltinTree.ModeBits` | chocofactoryd/src/config_root.rs:289-289 | A file is run by all, mode 0555, if its seed may be run by its owner, its group or others, and else only read, mode 0444; it is never written. |
| `BuiltinTree.CanonicalIsInstalled` | chocofactoryd/src/config_root.rs:268-330 | The canonical tree is three directories of mode 0755 and every built-in with its bytes and that mode, and nothing else. |
| `BuiltinTree.CanonicalIsStraight` | chocofactoryd/src/config_root.rs:268-330 | A name that leads to the canonical tree leads there straight. |
| `BuiltinTree.StraightFromTheStart` | chocofactoryd/src/config_root.rs:268-330 | And if it still leads where it led before the run, its way was straight from the beginning. |
| `ConfigRoot.MaterializeBuiltins` | chocofactoryd/src/config_root.rs:268-330 | From any tree, through any links: at no moment is anything outside the place the name leads to different. On success the name leads to the canonical tree there if and only if its way was straight, and then to the built-ins with their bytes and modes 0555 or 0444 in directories of mode 0755, and nothing else. Such a run is always safe against a crash and, unless calls fail, succeeds if and only if no directory is in a file's way. On a canonical tree nothing is written. |
| `BuiltinTree.NothingElseChanged` | chocofactoryd/src/config_root.rs:262-267 | After a run that led to the canonical tree nothing outside the given path itself has changed if and only if there is no link at or above it, or the canonical tree was there before. |
| `ConfigRoot.LinkedDirIsSweptElsewhere` | chocofactoryd/src/config_root.rs:297-328 | A run on a path that is a link: a file outside the path, in the directory it leads to, is deleted. |
| `BuiltinTree.SelfLinkedIsNotStraight` | chocofactoryd/src/config_root.rs:272-280 | A way that is not straight: `z/prompts`, a link back to `z`. |
| `BuiltinTree.CrashLeavesTheWayFree` | chocofactoryd/src/config_root.rs:262-267 | No tree a crash can leave stands in the way of the next start, if the first had a free and straight way: that way leads to the same place, straight. |
| `ConfigRoot.Restart` | chocofactoryd/src/config_root.rs:262-330 | A start after a crash at any moment ends at the canonical tree, and nothing outside has changed since before the first. |
| `SeedWorkflows.SeedDirs` | chocofactoryd/src/config_root.rs:177-179 | Makes the three directories, through links if there are any, changing no node that was there; unless calls fail, it does where each is there or can be made. |
| `SeedWorkflows.SeedOne` | chocofactoryd/src/config_root.rs:133-157 | Says it created the file exactly if nothing was there and the whole file is now; changes nothing that was there, whatever fails. |
| `SeedWorkflows.AccountedFurther` | chocofactoryd/src/config_root.rs:181-188 | One more file, on either side of the report, keeps what the report says of the others. |
| `SeedWorkflows.SeedBuiltinWorkflows` | chocofactoryd/src/config_root.rs:176-190 | Every file is in exactly one list of the report: created ones new and whole, existing ones there before, as they were, or made by this very call under another name. No node of the old tree changes at any step; unless calls fail it succeeds when the three directories are there or can be made, through links or not. |
| `SeedWorkflows.NamedBefore` | chocofactoryd/src/config_root.rs:181-188 | A name that, in the tree as seeded, leads to a node of the old tree led to it from the beginning. |
| `LegacyScan.OpensUp` | chocofactoryd/src/config_root.rs:362-368 | When a directory gives way to its entries, what is left to look at stays the same. |
| `LegacyScan.WalkTakes` | chocofactoryd/src/config_root.rs:369-377 | An entry that is no directory is found once, as stale or as other, and nothing else with it. |
| `LegacyScan.FewerLeft` | chocofactoryd/src/config_root.rs:361-368 | Every directory is opened once, so the walk ends. |
| `LegacyScan.ScanDir` | chocofactoryd/src/config_root.rs:362-379 | One directory: each entry is counted or kept for later. |
| `LegacyScan.LeadsAsSeen` | chocofactoryd/src/config_root.rs:361-368 | Every name below the folder leads where it shows, the folder itself being a link or not. |
| `LegacyScan.ScanLegacyWorkflows` | chocofactoryd/src/config_root.rs:345-381 | Everything below the folder but directories counts once, the folder being a link or not: as stale exactly if it is a file, no link, that is a built-in byte for byte at its place; else by its path. Nothing is written; unless calls fail, an error exactly if something is there that leads to no directory. |
| `Text.SingleLineIsFinal` | choco/src/render.rs:1738-1740 | A text on one line stays as it is when put on one line. |
| `Text.SingleLineKeepsWords` | choco/src/render.rs:1738-1740 | A text put on one line has the same words, and words one space apart stay as they are. |
| `ProgressTable.LayoutRow` | choco/src/render.rs:1170-1188 | The row built in place is the line `Line`, whose columns and length the next rows describe. |
| `ProgressTable.ColumnsLineUp` | choco/src/render.rs:1166-1188 | On the header and every row each column shows its text from one and the same offset on, as far as the line reaches; what was trimmed off is blank. |
| `ProgressTable.MarkersLineUp` | choco/src/render.rs:1166-1188 | The marker stands at one offset on every row that carries it and is never trimmed. |
| `ProgressTable.LineLength` | choco/src/render.rs:1170-1188 | How long a trimmed line is, from its cells and the widths. |
| `ProgressTable.LineGrows` | choco/src/render.rs:1170-1188 | Narrower columns never make a line longer. |
| `StageTable.BuildSteps` | choco/src/render.rs:1205-1290 | A row per hop in order, with its number, where it came from (dots where that is no longer on record), its outcome or `start`, its stage and its time; the last is marked if the task is where it ends, else one more marked row points at where it is. |
| `StageTable.RowsChain` | choco/src/render.rs:1231-1245 | A row that says where it comes from says what the row above led to. |
| `StageTable.MarkedRowIsCurrent` | choco/src/render.rs:1268-1289 | The mark is on the last row only, if a current stage is given, and that row names it. |
| `StageTable.NaturalWidths` | choco/src/render.rs:1302-1310 | Each natural width is the length of the longest text of its column, title included. |
| `StageTable.Pick` | choco/src/render.rs:1345-1351 | The column picked is above its floor, none above its floor is wider, and of equals it is the leftmost. |
| `StageTable.CutKeepsFair` | choco/src/render.rs:1344-1353 | Taking a character off it keeps the widths fair: a column that was cut is at most one narrower than any other, and than none to its left. |
| `StageTable.FairOnesChain` | choco/src/render.rs:1344-1353 | Fair widths come in one order: with less in all, none is wider anywhere. |
| `StageTable.NoneWiderThanMisfit` | choco/src/render.rs:1344-1353 | If fair widths do not fit, no wider fair widths do. |
| `StageTable.Narrow` | choco/src/render.rs:1344-1355 | The loop ends, with every line fitting or all three columns at their floors, and no wider fair layout fits. |
| `StageTable.Shrink` | choco/src/render.rs:1341-1359 | The widest fair layout that fits; or, if the floors do not fit, middle columns of five characters, or less if they were never wider, and the short marker. |
| `StageTable.StageProgressTable` | choco/src/render.rs:1190-1364 | The table shows the steps of the trail under the titles, spelled out, at natural widths without a limit and at the widths of `Shrink` with one; an empty trail is one line. |
| `StageTable.RoomyTablesAreNotCut` | choco/src/render.rs:1138-1140 | A table whose natural layout fits is laid out in full. |
| `StageTable.CellsAreReadable` | choco/src/render.rs:1153-1164 | A cell is shown whole unless its column was cut, and then by its start, at least four characters, and an ellipsis. |
| `Watch.Changes` | choco/src/watch.rs:134-179 | The changes printed for a poll: new hops, an unexplained move, then a change of status or reason. |
| `Watch.MovesAreTold` | choco/src/watch.rs:150-162 | A move to another stage is always told: by the hop that led there or, where no new entry says so, by itself. |
| `Watch.StageChangesAreNewHops` | choco/src/watch.rs:134-162 | Between two looks at an append-only trail these are the hops of the entries in between, and the unexplained move is never reported. |
| `Watch.PollingOftenTellsNoMore` | choco/src/watch.rs:131-162 | However polls are spaced, all stage changes together are each entry after the first look's, once, in order: what one look at the end reports. |
| `Watch.TargetComesFirst` | choco/src/watch.rs:283-304 | A look ends a watch well if and only if what it is for holds: the status named; for attention, `paused`, or `open` at a human gate; the stage named, current or entered since the first look; without a target, `closed`. Else it gives up as closed, cancelled, stuck or paused by the literal status, as stuck, paused or closed only with a target, and otherwise goes on. |
| `Watch.NoStageIsMissed` | choco/src/watch.rs:233-252 | A stage the task passed through between two polls still ends the watch at the next. |
| `WatchLoop.Take` | choco/src/watch.rs:490-523 | One answer: the look it gives is printed before it is judged, a failure to connect is a strike, anything else ends the watch. |
| `WatchLoop.Await` | choco/src/watch.rs:466-489 | No sleep is longer than the interval or set to end after the deadline; a poll counts as answered exactly if the answer comes at once or by the deadline. |
| `WatchLoop.WatchOn` | choco/src/watch.rs:462-526 | The loop: what it saw and printed follows the polls, its end is explained by them, its sleeps are in bounds; every poll it took was in time, and it times out only when none is left or the next is too late. |
| `WatchLoop.WatchTask` | choco/src/watch.rs:413-526 | A whole watch, the first poll included, which is bounded by the deadline and not retried. How it ends follows from the statuses seen: no look but the last would have ended it, and the last did, as what it says, if it would. |
| `WatchLoop.NothingSeenIsIgnored` | choco/src/watch.rs:447-455 | If what the watch is for held at a look, the watch ended there, as reached. |
| `WatchLoop.ExplainedIsPromised` | choco/src/watch.rs:233-304 | The end of a watch is the end its last look calls for, and no look before called for one. |
| `WatchLoop.AttentionIsNotMissed` | choco/src/watch.rs:240-243 | A watch for attention ends well at the first look at a task paused, or open at a human gate, and at no other. |
| `WatchLoop.LostIsThreeInARow` | choco/src/watch.rs:18-19 | Three failures to connect in a row end the watch as lost at the third, and nothing else does. |
| `WatchLoop.PrintedStagesAreTheTrail` | choco/src/watch.rs:131-162 | The stage changes a watch prints are the entries of the task's trail since the first look, each once, in order: the stage before, the stage entered, its outcome and its time. |
| `WatchLoop.WatchesEnd` | choco/src/watch.rs:462-475 | With a timeout and a positive interval a watch takes at most timeout / interval + 1 polls, and with more than that on its script it has ended. |
| `TaskConfig.SplitsOneWay` | choco/src/client.rs:289-312 | A flag splits exactly when it is a role without `=`, then `=`, then a value, neither empty, and in no other way. |
| `TaskConfig.PutSetsOne` | choco/src/client.rs:225-249 | A setting is there afterwards and no other field of any role is different, whatever non-object stood in the way. |
| `TaskConfig.PutKeepsRest` | choco/src/client.rs:225-249 | No other part of the config is different. |
| `TaskConfig.PutsCommute` | choco/src/client.rs:225-249 | Settings of different fields can be made in either order. |
| `TaskConfig.FlagsAreKept` | choco/src/client.rs:182-251 | After all flags each flag's field holds its value. |
| `TaskConfig.OthersAreKept` | choco/src/client.rs:182-251 | A field no flag is for is as the blob had it. |
| `TaskConfig.PartsAreKept` | choco/src/client.rs:182-251 | So is every part but `roles`. |
| `TaskConfig.GoodInAnyOrder` | choco/src/client.rs:202-213 | Flags that are well formed, readable and for different fields are so in any order. |
| `TaskConfig.OrderOfFlagsIsFree` | choco/src/client.rs:182-251 | Flags in any order make the same config. |
| `ConfigPipeline.RejectSmuggledPromptFile` | choco/src/client.rs:270-287 | A blob is refused if and only if some role in it has `roles.<role>.system_prompt_file`; the error names such a role. |
| `ConfigPipeline.TakeFlag` | choco/src/client.rs:202-249 | One flag is set, or refused because it is malformed, repeated or unreadable, as the error says. |
| `ConfigPipeline.TakeGroups` | choco/src/client.rs:182-251 | All flags are taken if and only if every one is well formed, readable and for a field of its own. |
| `ConfigPipeline.BuildTaskConfig` | choco/src/client.rs:156-262 | Succeeds exactly for an acceptable blob and options that are each a role, `=` and a value, give no field of a role twice, be it as text or file, and name readable files. The config sent then has what each option says at `cli`, `model` or `system_prompt` of its role, the directory at `cwd`, and all else as the blob; and it is none at all if that is empty. An error is true of the input. |
| `ConfigPipeline.FlagsSpelled` | choco/src/client.rs:181-189 | Which option a flag comes from: `--role-cli` sets the cli, `--role-model` the model, and the two prompt options the prompt, as text or from a file. |
| `ConfigPipeline.BuiltIsAsAsked` | choco/src/client.rs:156-262 | What each option says is in the config sent, a field no option names is as the blob has it, and so is every part but `roles` and `cwd`. |
| `ConfigPipeline.GoodIsWellGiven` | choco/src/client.rs:192-213 | The flags are accepted if and only if each option is well formed, names a role its field has not been given for, and names a readable file if it is to name one. |
| `ConfigPipeline.ResolvedFromValue` | chocofactoryd/src/role_config.rs:201-216 | Of the task config only a text at `roles.<role>.<field>` counts; anything else reads as not set. |
| `ConfigPipeline.ResolvedInOrder` | chocofactoryd/src/role_config.rs:201-216 | The cli and the model are the text at `roles.<role>.cli` or `model` of the task config, else the workflow's, else the global config's, else an error. |
| `ConfigPipeline.OptionsReachTheDaemon` | chocofactoryd/src/role_config.rs:76-117 | What `--role-cli` and `--role-model` say is the cli and the model the role runs with; a role they do not name runs as the blob, the workflow and the global config have it. |
| `ConfigPipeline.FlagsReachTheDaemon` | chocofactoryd/src/role_config.rs:76-117 | What a flag says is what its role runs with, whatever the blob, the workflow and the global config say. |
| `ConfigPipeline.TheRestIsTheBlobs` | chocofactoryd/src/role_config.rs:76-117 | A field no flag is for resolves as from the blob alone, even where `roles` or an entry had to be replaced. |
| `ConfigPipeline.FlagsInAnyOrder` | choco/src/client.rs:182-251 | Each flag repeated in another order: accepted alike, and the same config sent. |
| `ClaudeSettings.Convert` | chocofactoryd/src/claude_settings.rs:114-144 | Succeeds if and only if the value holds no tag, no key that is not a string and no number JSON lacks, at any depth; the result says the same, an error names a flaw that is there. |
| `ClaudeSettings.OneConversion` | chocofactoryd/src/claude_settings.rs:114-144 | A value has at most one JSON value that says the same, and only if it holds nothing JSON cannot. |
| `ClaudeSettings.FromYaml` | chocofactoryd/src/claude_settings.rs:55-68 | Missing and null are empty; anything but a mapping is refused. |
| `ClaudeSettings.Settings.Overlay` | chocofactoryd/src/claude_settings.rs:89-95 | Each key the layer sets has the layer's value, whole; every other key is as before. |
| `ClaudeSettings.Settings.DropNullKeys` | chocofactoryd/src/claude_settings.rs:97-101 | Exactly the keys that are null are gone. |
| `ClaudeSettings.OffendingKeys` | chocofactoryd/src/global_config.rs:83-102 | The keys named are, in order and each once, exactly the workflow-only keys the global layer sets. |
| `ClaudeSettings.AtMostSpelled` | chocofactoryd/src/global_config.rs:92-92 | The order of keys: a text before one it begins, and else by the first character that differs. |
| `ClaudeSettings.ReservedSpelled` | chocofactoryd/src/global_config.rs:47-58 | The workflow-only keys are these ten. |
| `ClaudeSettings.ResolveClaudeSettings` | chocofactoryd/src/role_config.rs:119-140 | Refused exactly if the global layer sets one of the ten workflow-only keys, all of them named in order, each once; else every key has the workflow's value if it sets it, else the global one, and null unsets; a workflow-only key has the workflow's alone. |
| `ClaudeSettings.ReservedKeysAreTheWorkflows` | chocofactoryd/src/global_config.rs:44-58 | In settings that were not refused, a workflow-only key is the workflow's, and no key is null. |
| `DaemonLock.StepKeepsLock` | chocofactoryd/src/daemon_lock.rs:53-88 | Every step keeps lock and stages in agreement. |
| `DaemonLock.StepKeepsFile` | chocofactoryd/src/daemon_lock.rs:90-97 | Every step keeps the file a first part of a document begun, and the whole document once published. |
| `DaemonLock.NeverTorn` | chocofactory-core/src/daemon_lock.rs:43-47 | A read gives one whole published document or nothing. |
| `DaemonLock.EveryRunKeepsInv` | chocofactoryd/src/daemon_lock.rs:59-97 | These hold after every interleaving. |
| `DaemonLock.OneDaemon` | chocofactoryd/src/daemon_lock.rs:53-57 | No two daemons ever hold the lock, nor one while a reader shares it. |
| `DaemonLock.OnlyTheHolderWrites` | chocofactoryd/src/daemon_lock.rs:61-67 | Only the holder, publishing, changes what is in the file: a refused acquirer changes no byte. |
| `DaemonLock.AnswersWereTrue` | chocofactory-core/src/daemon_lock.rs:51-87 | `Running` is answered only if the lock was held at a moment of the call, `NotRunning` only if it was not, and an info given stood whole in the file at a moment of the call. |
| `DaemonLock.EverIsSomeMoment` | chocofactory-core/src/daemon_lock.rs:51-87 | What was ever so in a run was so after some number of its steps. |
| `DaemonLock.WhatAReadGives` | chocofactoryd/src/daemon_lock.rs:90-97 | Once published every read gives the daemon's info; while it is being written none does. |
| `DaemonLock.WhoGetsTheLock` | chocofactoryd/src/daemon_lock.rs:59-87 | A try for the lock succeeds exactly if no process holds or shares it, and an acquirer refused can go on to read; a reader shares it exactly if none holds it, and else waits. |
| `DaemonLock.ReaderIsToldOfTheLast` | chocofactory-core/src/daemon_lock.rs:60-65 | A reader that shares the lock is told what it read under it, whatever others do before it gives the lock back. |
| `DaemonLock.WhatTheFileSays` | chocofactory-core/src/daemon_lock.rs:43-47 | A whole document reads as its info, and a part of one as none. |
| `DaemonLock.WhatReadersAreTold` | chocofactory-core/src/daemon_lock.rs:51-87 | Without a file no daemon is named; a reader that waits is told of the daemon that has published, or at its deadline that the file is unreadable. |
| `DaemonLock.TheLastDaemonMayStillBeNamed` | chocofactory-core/src/daemon_lock.rs:71-79 | A run in which a reader is told of the previous daemon while the next holds the lock unpublished. |
| `DaemonLock.PiecesAreOneRead` | chocofactory-core/src/daemon_lock.rs:43-47 | Read in any number of pieces while nobody begins to publish, the file is read as it is at the moment of the last piece. |
| `DaemonLock.NobodyPublishesToASharer` | chocofactory-core/src/daemon_lock.rs:60-65 | Nobody begins to publish while a reader shares the lock. |
| `DaemonLock.PiecesCanMix` | chocofactory-core/src/daemon_lock.rs:71-79 | Without the lock, and where half of one document and half of another make a third, a read in two pieces gives a document nobody wrote. |
| `Decimal.PrintedReadsBack` | chocofactory-core/src/duration.rs:38-46 | A number printed in decimal reads back as itself. |
| `Decimal.ParseU64` | chocofactory-core/src/duration.rs:12-12 | Digits that fit 64 bits are read, after one optional plus sign, and nothing else. |
| `Duration.DigitsAndUnit` | chocofactory-core/src/duration.rs:8-30 | Digits and a unit are a duration if and only if there is a digit, the unit is one, and the seconds are between 1 and 2^64 - 1. |
| `Duration.DurationsSpelled` | chocofactory-core/src/duration.rs:8-30 | The units are `s`, `m` and `h`, for 1, 60 and 3600 seconds, and there is no other. |
| `Duration.NothingElse` | chocofactory-core/src/duration.rs:8-30 | Nothing else is a duration, but for a plus sign before the digits. |
| `Duration.FormatDuration` | chocofactory-core/src/duration.rs:35-49 | The text built up is the non-zero parts in order, or `0s`. |
| `Duration.ReadsBackIffSinglePart` | chocofactory-core/src/duration.rs:32-34 | A duration printed is read back as itself if and only if it is one non-zero part; otherwise it is refused. |
| `Duration.DecodesBack` | chocofactory-core/src/duration.rs:35-49 | A reader of parts recovers every duration from its text. |
| `Duration.FormattedIsInjective` | chocofactory-core/src/duration.rs:35-49 | Different durations never print alike. |

## Left out

- MaterializeBuiltins: of a run whose way is not straight it is stated that nothing outside the place changes and that it does not end with the name leading to the canonical tree there, not what it does end with.
- SeedBuiltinWorkflows: the condition for success is sufficient, and necessary only for the first two directories.
- ScanLegacyWorkflows: the list of other files is not sorted.
- WatchTask: the script of polls is finite, and a watch without a timeout may be unfinished at its end; only what a plain-text watch prints is modelled, not the JSON and terminal forms.
- AnswersWereTrue: a read of the lock file sees its content at one moment; `PiecesAreOneRead` and `PiecesCanMix` say when a read in several pieces does.
- StageProgressTable: a step's time arrives formatted and without a trailing blank.
- BuildTaskConfig: the JSON text of `--config` arrives parsed, as not JSON, or as a value; files are read as of one moment.
- ServeChecked: the texts of tool definitions and messages are parameters, as is the reader of JSON text; errors of input and output, which end a session, are outside; the counter of thin reports is unbounded where the source has 32 bits.
- Unicode beyond a table of one character to one character: a letter that lowercases to several.
- `env_has_marker` and the platform readers of the process table (`chocofactoryd/src/proc_table.rs`, lines 236 to 242 and 263 to 492): the marker's presence is a field of a process.
- `kill_pid` and when sweeps run; `resolve` of `role_config.rs` beyond cli and model, whose prompt text has the same layers.
- The messages a watch ends with and the time of day it prints; colours, redraws and paging.
- The engine, sessions, workflow definitions, the turn queue, adapters, the database, the HTTP interface, updates and everything reached over the network.
