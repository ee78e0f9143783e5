# A verified model of a web terminal for tmux sessions

The repository serves tmux sessions in a browser: a proxy counts terminal output while it passes
through, a parser turns captured terminal history into styled lines, captures are shared and rate
limited, snapshots of history are stored and paged, panes are known to the browser only by opaque
references, and managed sessions are created, watched and ended together with the bridge process
that serves each of them. This project models that logic in Dafny and proves what it is relied on
to do, over every input, every run and every interleaving.

Code that works step by step is modelled by methods and classes, each proved against a
specification function; the promises are then lemmas about those functions and about runs of them. Where a
method and its specification share a table, a format or a field, a further lemma says what it means without
naming either: a colour is read back digit by digit, a style or a document is written out and parsed again, an
identifier is matched against its regular expression, an answer is traced to the event that caused it.

| module | models |
|---|---|
| `OutputObserver` | the connection wrapper that finds the end of the HTTP header and walks WebSocket frames (sections 5.2 and 5.5 of RFC 6455) across arbitrary read boundaries |
| `Sgr`, `AnsiHistory` | the history parser: control sequences (section 5.4 of ECMA-48), renditions (section 8.3.117 of ECMA-48; section 13.1.8 of ITU-T T.416 for colons), bidirectional controls, five resource limits |
| `SgrText`, `AnsiText` | the same read from the other side: styles and documents written out and read back, UTF-8 (section 3 of RFC 3629), every form of control |
| `TimeLog`, `CaptureRate`, `CaptureCoordinator` | single-flight captures with process, login and waiter caps and a sliding-window rate limit, as a transition system over the locked sections |
| `Paging`, `SnapshotManager` | the snapshot store: quotas, accounting, idle expiry, backwards paging by opaque cursors |
| `IdentityStore` | opaque pane and window references against a changing topology |
| `LoginLimiter` | the lazily pruned limiter of failed logins |
| `ForwardedAgent` | the stable SSH agent link: path resolution, the chain check, retargeting |
| `Registry`, `BridgeCommands` | managed-session records, bridge command lines and their classification, the reconcile plan |
| `TmuxNames` | which tmux session a target name finds |
| `SessionWorld` | records, tmux sessions, processes and files as one world; what a lock holder may do, what it must expect of others, and runs of both |
| `SessionBridge`, `Lifecycle` | the operations on bridges and sessions, where every dependency call may fail and others act between any two steps |
| `Text`, `Patterns` | splitting, joining and trimming; the regular expressions of identifiers |

## Where the code does less than one would expect

Each of these is kept as the code has it, with its exact condition and, where one is needed to believe it,
a concrete case.

- **A second reconcile may replace the bridge.** The registered current process is kept whenever
  *some* process answers on the socket. If the one that answers is another bridge, it is stopped and
  the socket goes silent, so the next reconcile starts a new bridge (`SessionBridge.RegisteredWithoutSocket`).
  Otherwise, and only otherwise, the second reconcile keeps the same bridge and writes nothing
  (`SessionBridge.SecondPass`, `Lifecycle.Manager.ReconcileTwice`).
- **The agent link can be left unusable.** After an accepted refresh a client that opens the stable path
  finds a socket exactly when neither the link's own directory nor the target was reached through the
  link, and the links on both ways with the new one are no more than the kernel follows
  (`ForwardedAgent.AcceptedLinkWorks`). Three ways to miss this are each shown on a file system: a socket
  named *through* the stable link used as a directory (`ForwardedAgent.SocketNamedThroughLink`); a link
  whose text climbs with `..` out of a linked directory, which the check cleans as text while the kernel
  follows it (`ForwardedAgent.ClimbingTargetAccepted`; the same misreading makes it refuse a good target in
  `ForwardedAgent.ClimbingTargetRefused`); and a target at the end of forty links
  (`ForwardedAgent.OneLinkTooMany`). When the link did not lead to a directory before and no text on the
  chain has `..` after a name, only the number of links decides (`ForwardedAgent.AcceptedUnlessDirectory`).
- **A pane listed twice**, as when its window is linked into the session twice, can be handed out as active
  while its binding is inactive (`IdentityStore.TwiceListedPane`). From the listing alone: the pane handed
  out is that of the last entry shown active in the last open window, and its binding is active exactly
  when the last entry of that pane is (`IdentityStore.ActivePaneResolves`); with distinct panes it always is
  (`IdentityStore.ActivePaneIsActive`).
- **Resolving a pane can dereference nothing**: the lock is given back between the refresh and the lookup,
  and if the session is forgotten in between, and not listed again, the lookup finds no identity
  (`IdentityStore.Identities.ResolvePane`, exactly when).
- **Stopping a bridge can succeed without stopping what serves the socket.** When nothing fails and nobody
  interferes, a process that serves the session's socket is left exactly if it is *spared*
  (`SessionBridge.StopLeavesServer`): its command line is none that is recognised, as after the server was
  given another tmux path (`BridgeCommands.OtherTmuxIsUnrelated`); or it was passed over, because ttyd is not
  found on the path, or is found but is another file than the process runs, as after an upgrade, or its entry
  in /proc cannot be read, or /proc cannot be listed and it is not the registered process. Cleaning up then
  removes the record while it runs on, in exactly these cases (`Lifecycle.CleanupLeavesServer`); concrete ones
  are `Lifecycle.RemovedUnseen`, `Lifecycle.RemovedAfterUpgrade` and `Lifecycle.RemovedAfterMove`.
- **A tmux session can be taken for another.** Sessions are looked up and killed by `-t` and the bare name,
  which tmux also accepts as the beginning of a name. What is found is another session exactly when the named
  one is gone and exactly one name begins with it (`TmuxNames.FindsAnother`): with "work" gone and "work2"
  there, "work" is found alive and a kill would end "work2" (`TmuxNames.WorkFindsWork2`).
- **A bidirectional control can be shown without a label.** Bytes that belong to no character are shown as
  they are, so a control whose bytes are taken apart by an escape sequence is put together again on its line,
  unmarked (`AnsiText.SplitControl`). This happens exactly when such stray bytes, one after another but for
  hidden controls, spell one (`AnsiText.HiddenExactly`), and so never in well-formed UTF-8
  (`AnsiText.WellFormedHidesNone`).
- **The running byte count of a page** passes the limit by one exactly when the page is one line that fills it
  (`Paging.CountPasses`; a case is `Paging.CountPassesOnce`), since it counts a separator that such a page does
  not have; the encoded page never passes it, because of the check made when the snapshot was stored
  (`Paging.PageWithinBytes`).

## Reading the session model

A `World` holds the registry, the tmux sessions (each with when it began), the processes with the file they
run, what can be seen of them (`Sight`), who listens on which socket, the files, and logs of record removals
and of tmux sessions killed. Under the lock of a session its holder applies `Effect`s; `EffectSpares` shows
that what one holder does looks to every other session like something that can only take away (`Wanes`), and
`HolderReliesOn` that this is all a holder has to expect between its own steps. The operations in
`SessionBridge` and `Lifecycle` are proved against exactly that: between any two steps the world may change by
`Wanes`, and every call may fail. The `Tally` counts failures, missed bridges, interference and record writes,
and notes the PID a bridge reported last; a bridge is missed only when it is passed over. *Quiet* means that
nothing failed and nobody interfered. Each operation also returns the world at the moment it took the lock
(`locked`), and without interference that is the world it was called in. A record is *good* when it is
canonical or can be brought up to date.

In the runs of `SessionWorld` a holder removes a record because of what it has gone through since it took
the lock (`Stage`), not because of what the world looks like at that moment; that all of it still holds then
is what `MovesKeep` and `RecordGoesLast` prove. The operations are held to the same: a `Host` carries the stage
and the path its holder has taken since the lock, and its invariant says that this path is a holder's run
(`Traced`), each step one of the holder's own turns or what others may do. Only a turn changes the world, so
every operation keeps to the protocol of the runs, and `RunAsSeen` shows that in any run a holder sees just
such a path.

## Model

| member | source | states |
|---|---|---|
| OutputObserver.ObserveReads | internal/proxy/proxy.go:152-252 | for every cutting of a stream into reads, the observed total is the whole-stream count of data payload bytes |
| OutputObserver.OutputObservingConn.Inspect | internal/proxy/proxy.go:160-180 | after each read, what has been observed in all is the count over the stream so far, a partial last frame included |
| OutputObserver.OutputObservingConn.InspectFrames | internal/proxy/proxy.go:182-234 | consumes all its input with the state invariant kept (header at most 14 bytes, never complete between turns, every turn consumes) |
| OutputObserver.OutputObservingConn.BeginFrame | internal/proxy/proxy.go:236-252 | from a complete header, starts the payload (or the next header when it is empty) without losing or inventing a byte of the account |
| OutputObserver.MatchStep | internal/proxy/proxy.go:160-176 | the four-state matcher decides as a search for CR LF CR LF in the whole stream, also after partial matches |
| OutputObserver.BodyAfterFirstHeaderEnd | internal/proxy/proxy.go:160-180 | the reference body starts right after the earliest CR LF CR LF |
| OutputObserver.ReferenceCountsFrames | internal/proxy/proxy.go:182-252 | over frames encoded as the RFC says, the last one cut anywhere, the reference count is the sum of data payloads plus the part of the last that arrived |
| Sgr.ApplySGR | internal/server/history_ansi.go:305-376 | the loop computes the style selected by the whole parameter text |
| Sgr.NormalizeSGRSeparators | internal/server/history_ansi.go:378-401 | the loop computes the group-by-group normal form |
| Sgr.NormalizeDistributes | internal/server/history_ansi.go:378-401 | normalisation distributes over the semicolon |
| Sgr.ColonFreeUnchanged | internal/server/history_ansi.go:378-401 | text without colons is unchanged |
| Sgr.DirectColorSpellings | internal/server/history_ansi.go:305-411 | the colon, colon-with-colour-space and semicolon spellings of a direct colour select the same style, alone and among any other parameters |
| Sgr.DirectColorSelected | internal/server/history_ansi.go:305-419 | and it has the colour whose channels, read back as base-16 digits, are the parameters, foreground for 38 and background for 48, with all else as it was |
| Sgr.MalformedLeavesStyle | internal/server/history_ansi.go:305-330 | one malformed or negative parameter anywhere leaves the style as it was |
| Sgr.SelectKeepsColors | internal/server/history_ansi.go:305-439 | every colour any parameter text can set is empty or a hash sign and six lower-case hex digits |
| Sgr.AnsiColor | internal/server/history_ansi.go:421-439 | palette indices give well-formed colours and everything else gives none |
| Sgr.ParseExtendedColor | internal/server/history_ansi.go:403-411 | an extended colour is well formed and consumes no more values than there are |
| SgrText.NumberRead | internal/server/history_ansi.go:311-321 | a decimal number is read as itself with either sign as far as 64 bits reach |
| SgrText.NoNumber | internal/server/history_ansi.go:311-321 | anything but digits after at most one sign is no number |
| SgrText.NegativeLeavesStyle | internal/server/history_ansi.go:311-321 | a negative number anywhere leaves the style as it was |
| SgrText.PaletteSpells | internal/server/history_ansi.go:421-439 | every palette entry read back: eight dark and eight bright mixtures, a cube of six levels, greys |
| SgrText.CodeSelected | internal/server/history_ansi.go:323-362 | field by field, which numbers switch it on and off, and which palette colour a number selects |
| SgrText.IndexedColorSelected | internal/server/history_ansi.go:363-374 | a colour picked by its index, in either spelling, is that palette entry, with all else as it was |
| SgrText.ColorSubparameters | internal/server/history_ansi.go:378-401 | a colour's subparameters mean what they mean as parameters, but for the colour-space identifier |
| SgrText.OtherSubparameters | internal/server/history_ansi.go:378-401 | the subparameters of anything else are dropped |
| SgrText.SelectInTurn | internal/server/history_ansi.go:305-376 | parameters take effect one after another |
| SgrText.StyleRoundTrip | internal/server/history_ansi.go:305-439 | a style written out as parameters selects that very style, whatever was selected before |
| AnsiHistory.Parse | internal/server/history_ansi.go:77-237 | succeeds exactly when the limits are positive and the unlimited result meets all five, and then returns that result |
| AnsiHistory.ReferenceLines | internal/server/history_ansi.go:99-141 | each line of the unlimited result is the one grouping, without empty runs or equal neighbours, of the cells a token-at-a-time interpreter shows; its text has no control byte but tab, its colours are well formed |
| AnsiHistory.GroupCanonical | internal/server/history_ansi.go:116-141 | grouping loses no cell and leaves no empty run and no equally styled neighbours |
| AnsiHistory.GroupUnique | internal/server/history_ansi.go:116-141 | there is only one such grouping |
| AnsiHistory.AppendText | internal/server/history_ansi.go:116-141 | appends within the limits with all counters exact, or fails only when nothing that may follow can fit |
| AnsiHistory.FlushLine | internal/server/history_ansi.go:99-115 | ends a line within the limits with all counters exact, or fails only when nothing that may follow can fit |
| AnsiHistory.ConsumeEscapeSequence | internal/server/history_ansi.go:256-269 | ends where the interpreter's token ends, and reports a rendition exactly when it has one |
| AnsiHistory.ConsumeCSI | internal/server/history_ansi.go:271-283 | ends after the first final byte, with the parameters before it |
| AnsiHistory.ConsumeStringControl | internal/server/history_ansi.go:285-303 | ends where the control string ends |
| AnsiHistory.StringEndsAtFirst | internal/server/history_ansi.go:285-303 | that is right after the first terminator, or at the end of the input |
| AnsiText.SegmentHidesNoBidi | internal/server/history_ansi.go:174-187 | a segment marks its line exactly when one of the twelve bidirectional controls stands there byte for byte, and then names its number in four base-16 digits; any other is the input's own bytes and begins with no such control |
| AnsiText.DecodesCharacter | internal/server/history_ansi.go:149-152 | where a character is written out in UTF-8, it is read |
| AnsiText.ErrorOnlyIf | internal/server/history_ansi.go:149-152 | a byte is read as an error exactly where no character is written out |
| AnsiText.LabelNames | internal/server/history_ansi.go:239-247 | a label says BIDI U+ and the control's number in four upper-case base-16 digits |
| AnsiText.ControlStringHidden | internal/server/history_ansi.go:152-159 | a control string, in seven or eight bits, shows and changes nothing up to its first terminator or the end |
| AnsiText.ControlSequenceRead | internal/server/history_ansi.go:160-168 | a control sequence shows nothing and changes the style exactly if it ends in m with at most 4096 bytes of parameters |
| AnsiText.OtherEscapeHidden | internal/server/history_ansi.go:256-269 | every other escape takes the byte after it along |
| AnsiText.SingleByteRead | internal/server/history_ansi.go:188-231 | which single bytes end a line, are shown, or are hidden |
| AnsiText.HiddenExactly | internal/server/history_ansi.go:116-187 | a line shows the bytes of a bidirectional control exactly when stray bytes of the line spell it |
| AnsiText.SplitControl | internal/server/history_ansi.go:116-187 | an input whose line shows such a control unlabelled and unmarked |
| AnsiText.WellFormedHidesNone | internal/server/history_ansi.go:116-187 | in well-formed UTF-8 no line does |
| AnsiText.DocumentRoundTrip | internal/server/history_ansi.go:77-237 | a document written out, every character after its rendition, is parsed into its own characters and styles, line by line, with exactly the lines marked that hold a bidirectional control |
| AnsiText.FitsIs | internal/server/history_ansi.go:20-28 | the five limits said of the cells and runs of the result, 32 bytes for each line and 96 for each run |
| CaptureRate.AllowLocked | internal/server/history_capture_coordinator.go:144-171 | the loops compute the decision and the new table |
| CaptureRate.DecideKeeps | internal/server/history_capture_coordinator.go:144-171 | every decision keeps the table faithful to the whole history of grants, although entries are dropped and lists filtered, and within maxScopes |
| CaptureRate.VerdictCountsGrants | internal/server/history_capture_coordinator.go:144-171 | a scope is refused for its rate exactly when its grants in the window, counted in the whole history, number the limit |
| CaptureRate.ScopesKeep | internal/server/history_capture_coordinator.go:144-171 | the table has an entry, with its time, for every scope that asked within the window and was not turned away for want of room |
| CaptureRate.ScopesCounted | internal/server/history_capture_coordinator.go:144-171 | a scope is turned away for want of room exactly when it did not ask within the window and as many others did as there may be |
| CaptureRate.GrantsWithinLimit | internal/server/history_capture_coordinator.go:144-171 | at any instant at most `limit` grants of one key lie in the window that ends there |
| CaptureCoordinator.RunKeeps | internal/server/history_capture_coordinator.go:85-142 | in every interleaving the counters equal the keys in flight (in all and per login, no zero kept), waiters equal the waiting callers, and all caps hold |
| CaptureCoordinator.StepKeeps | internal/server/history_capture_coordinator.go:85-142 | each locked section keeps that invariant |
| CaptureCoordinator.EnterDecides | internal/server/history_capture_coordinator.go:85-118 | what a newcomer gets, said of running calls, waiting callers and past grants instead of the counters |
| CaptureCoordinator.OneCapturePerKey | internal/server/history_capture_coordinator.go:85-118 | no key has two captures running at once |
| CaptureCoordinator.RunWithinRate | internal/server/history_capture_coordinator.go:85-171 | in any run at most `limit` captures of one key in any window, and at most maxScopes tracked |
| CaptureCoordinator.CallBegan | internal/server/history_capture_coordinator.go:102-118 | over any run, every call was begun by its leader, who asked for its key at the time of its grant |
| CaptureCoordinator.OutcomeReported | internal/server/history_capture_coordinator.go:120-133 | over any run, a call's outcome is the one its leader's capture returned |
| CaptureCoordinator.AnswerIsCaptured | internal/server/history_capture_coordinator.go:85-133 | over any run, whoever is answered, leader or waiter, gets what the capture returned that was run, under the very key it asked for, by the caller that began the call |
| CaptureCoordinator.WaiterGetsItsCall | internal/server/history_capture_coordinator.go:87-101 | a joined and answered caller got exactly the outcome of the call it joined, under its own key, and that call was still running when it joined |
| CaptureCoordinator.LateCancellationIsHarmless | internal/server/history_capture_coordinator.go:136-142 | leaving changes no call but the one joined, and not even that once it is done |
| CaptureCoordinator.Coordinator.Enter | internal/server/history_capture_coordinator.go:85-118 | the first locked section of Do is one step |
| CaptureCoordinator.Coordinator.Finish | internal/server/history_capture_coordinator.go:120-133 | so is the second |
| CaptureCoordinator.Coordinator.RemoveWaiter | internal/server/history_capture_coordinator.go:136-142 | so is removeWaiter |
| Paging.FindStart | internal/server/snapshot_manager.go:279-294 | the loop finds the start of the page |
| Paging.PageIsLongest | internal/server/snapshot_manager.go:279-294 | the page is the longest that fits and always makes progress |
| Paging.PageWithinBytes | internal/server/snapshot_manager.go:279-294 | envelope, encoded lines and separators never pass the limit for stored snapshots |
| Paging.CountPasses | internal/server/snapshot_manager.go:279-294 | the loop's own byte count exceeds the limit, and then by one, exactly when the page is one line that fills it |
| Paging.CountPassesOnce | internal/server/snapshot_manager.go:279-294 | it does so on a snapshot of one line as long as may be |
| Paging.PageLocked | internal/server/snapshot_manager.go:270-320 | one request, its cursor bookkeeping included |
| Paging.TurnKeeps | internal/server/snapshot_manager.go:270-320 | the cursor maps stay mutual inverses and only grow; that no line fits cannot happen |
| Paging.AskingAgain | internal/server/snapshot_manager.go:270-320 | a cursor asked again, after any other requests, gives the same page and changes nothing |
| Paging.WalkCovers | internal/server/snapshot_manager.go:270-320 | the pages of a walk, oldest first, are the end of the snapshot without gap or overlap; a walk has at most as many pages as lines |
| Paging.WalkReadsAll | internal/server/snapshot_manager.go:270-320 | a walk that ran out of cursors has read back the whole snapshot |
| Paging.WalkGoesOn | internal/server/snapshot_manager.go:270-320 | a walk that has not can always go on, whatever others asked meanwhile |
| SnapshotManager.Manager.Create | internal/server/snapshot_manager.go:138-201 | each refusal with its exact condition, removing nothing but idle snapshots; what is stored holds the request's own fields, bound to its session, pane and generation, and the response describes the capture |
| SnapshotManager.FullExactly | internal/server/snapshot_manager.go:159-172 | a request is refused for want of room exactly when storing it would break some cap |
| SnapshotManager.CreateThenDeleteSession | internal/server/snapshot_manager.go:138-252 | what was just stored is gone once its own session is deleted, and stays when another is |
| SnapshotManager.CreateThenPage | internal/server/snapshot_manager.go:138-268 | what was stored is paged by its owner until it is idle for too long, and by nobody else |
| SnapshotManager.SnapshotIdPattern | internal/server/snapshot_manager.go:32 | snapshot IDs are those the regular expression matches |
| SnapshotManager.ViewerPattern | internal/server/resize_store.go:26 | and so are viewers |
| SnapshotManager.Manager.Page | internal/server/snapshot_manager.go:213-221 | each refusal with its exact condition; otherwise the page, and the snapshot touched |
| SnapshotManager.Manager.Delete | internal/server/snapshot_manager.go:223-232 | exactly the owner's live snapshot goes |
| SnapshotManager.Manager.DeleteUser | internal/server/snapshot_manager.go:234-242 | exactly the user's snapshots go, with accounts balanced |
| SnapshotManager.Manager.DeleteSession | internal/server/snapshot_manager.go:244-252 | exactly the session's snapshots go, with accounts balanced |
| SnapshotManager.Manager.AuthorizedLocked | internal/server/snapshot_manager.go:254-268 | only the owner's own live snapshot is found, and finding it keeps it alive |
| SnapshotManager.Manager.PruneLocked | internal/server/snapshot_manager.go:338-345 | exactly the idle snapshots go |
| SnapshotManager.Manager.DeleteLocked | internal/server/snapshot_manager.go:347-353 | exactly one snapshot goes, and its memory and nodes leave the totals |
| SnapshotManager.AddKeeps | internal/server/snapshot_manager.go:155-198 | adding under the tested caps keeps the sums exact and the viewer, user, process, byte and node caps |
| SnapshotManager.TotalsWithout | internal/server/snapshot_manager.go:347-353 | the totals over a map do not depend on the order of summation |
| SnapshotManager.EstimateMemory | internal/server/snapshot_manager.go:355-371 | refuses exactly the lines that could not be paged out alone, and else gives the sum |
| SnapshotManager.MemoryIs | internal/server/snapshot_manager.go:355-371 | the estimate is what the parser reckons the lines to take, and what they take when written out |
| SnapshotManager.NodeEstimate | internal/server/history_capture_coordinator.go:173-179 | the number of lines and runs |
| IdentityStore.Update | internal/server/identity.go:146-232 | the loops compute the new maps and the view, or say stale when no pane or window is active |
| IdentityStore.NoteEntry | internal/server/identity.go:153-187 | the statements for one listed pane compute the step of the specification: window noted, pane reference kept or replaced by generation, binding grouped |
| IdentityStore.UpdateKeeps | internal/server/identity.go:146-232 | the maps stay mutual inverses covering exactly the listing, and every listed pane is bound as its last entry says, under the present server |
| IdentityStore.ListedAgain | internal/server/identity.go:146-200 | a pane listed again under the same server keeps its reference, and so does a window |
| IdentityStore.BoundToServer | internal/server/identity.go:166-190 | every binding after an update is of the server start and process that was listed |
| IdentityStore.BoundAsListed | internal/server/identity.go:182-190 | and says what the last entry of its pane says: its window, and active exactly if the pane is and its window is open |
| IdentityStore.ViewShowsListing | internal/server/identity.go:146-232 | the view, said from the listing and the references alone: windows in order of first appearance, their entries counted, the last active pane, the last open window |
| IdentityStore.ActivePaneResolves | internal/server/identity.go:146-232 | a pane is handed out as active exactly when some entry is shown active in the last open window; the reference is bound to the pane of the last such entry, and the binding is active exactly when the last entry of that pane is |
| IdentityStore.ActivePaneIsActive | internal/server/identity.go:146-232 | with distinct panes the active reference resolves to an active binding |
| IdentityStore.TwiceListedPane | internal/server/identity.go:146-232 | a window linked twice lists its pane twice, and the active reference then resolves to an inactive binding |
| IdentityStore.PaneRefForLife | internal/server/identity.go:75-232 | over any run a pane reference means one session, one raw pane and one server generation |
| IdentityStore.RetiredForGood | internal/server/identity.go:140-232 | once retired, a reference never returns, in any session |
| IdentityStore.RestartRetires | internal/server/identity.go:166-174 | over any run, when a session is listed under another server than before, no reference it had is bound again in any session |
| IdentityStore.RenamedRetires | internal/server/identity.go:75-95 | a session whose canonical name changed keeps none of its references |
| IdentityStore.CompleteIf | internal/server/identity.go:229-232 | there is something to show exactly when some entry is shown active in the last open window |
| IdentityStore.Identities.RefreshSession | internal/server/identity.go:75-95 | starts afresh when the canonical name changed, and keeps all sessions consistent |
| IdentityStore.Identities.ResolvePane | internal/server/identity.go:97-121 | with any calls of others between its two locked sections: exactly when a reference resolves, to a pane listed when the session was last listed, of the server of that time, active if that was asked; and exactly when the lookup dereferences nothing |
| IdentityStore.Identities.ForgetSession | internal/server/identity.go:140-144 | exactly one session is forgotten |
| LoginLimiter.Limiter.Allow | internal/server/login_limiter.go:34-47 | the answer counts the full log since the last reset, so pruning and sweeping cannot be observed; a wait lies between zero and the window |
| LoginLimiter.SameKeyIf | internal/server/login_limiter.go:98-104 | two clients share a list exactly when their trimmed names are equal, or one has none and the other is called unknown |
| Text.TrimmedOff | internal/server/login_limiter.go:98-104 | what trimming takes off is white space at both ends |
| LoginLimiter.Limiter.RecordFailure | internal/server/login_limiter.go:49-59 | the failure joins the log of its client and no other |
| LoginLimiter.Limiter.Reset | internal/server/login_limiter.go:61-68 | exactly one client's log is emptied |
| LoginLimiter.Limiter.PruneLocked | internal/server/login_limiter.go:70-86 | what is kept is the part of the full log inside the window; an empty list is not kept |
| LoginLimiter.Limiter.SweepLocked | internal/server/login_limiter.go:88-96 | at most once a window, and then every list holds just the failures inside it |
| ForwardedAgent.SymlinkChainReferences | internal/session/agent.go:118-157 | ends on every file system; yes exactly when the chain, each text cleaned as the code cleans it, reaches the stable link, no exactly when it ends without |
| ForwardedAgent.ResolvedEnds | internal/session/agent.go:118-157 | a path that the kernel resolves over texts without `..` after a name is one the walk follows to its end |
| ForwardedAgent.RetargetedLinkWorks | internal/session/agent.go:159-180 | a client that opens a retargeted path finds a socket exactly when neither the link's directory nor the target was reached through the link and the links on the way are no more than forty |
| ForwardedAgent.AcceptedLinkWorks | internal/session/agent.go:65-92 | the same after the checks of a refresh, across the making of private directories |
| ForwardedAgent.AcceptedUnlessDirectory | internal/session/agent.go:65-92 | if the link did not lead to a directory before and no text on the chain has `..` after a name, an accepted link works exactly when the links are few enough |
| ForwardedAgent.SocketNamedThroughLink | internal/session/agent.go:118-157 | a refresh accepts a target named through the link as a directory, and the link then cannot be opened |
| ForwardedAgent.ClimbingTargetAccepted | internal/session/agent.go:118-157 | with a live link, a refresh accepts a target whose link text climbs out of a linked directory, and the link then cannot be opened |
| ForwardedAgent.ClimbingTargetRefused | internal/session/agent.go:118-157 | such a text can also make the walk break off, though the kernel resolves the target to a socket |
| ForwardedAgent.OneLinkTooMany | internal/session/agent.go:65-92 | a refresh accepts a target at the end of forty links, and the link then cannot be opened |
| ForwardedAgent.Agent.RefreshFromEnvironment | internal/session/agent.go:65-113 | which inputs give which status, both ways; after Available exactly when the stable path can be opened; other statuses without an error leave the file system unchanged |
| ForwardedAgent.InvokedOverSsh | internal/session/agent.go:106-113 | an invocation over SSH is one where some of three variables says more than white space |
| Registry.SocketsDiffer | internal/registry/registry.go:307-341 | canonical sessions with different IDs have different sockets |
| Registry.IdPattern | internal/registry/registry.go:23 | IDs are those the regular expression matches |
| Registry.PublicRefPattern | internal/registry/registry.go:24 | and so are public references |
| Registry.CanonicalIs | internal/registry/registry.go:285-315 | a canonical record has its ID for a name, in tmux too, and the one socket for that ID |
| Registry.CompatibleIf | internal/registry/registry.go:317-337 | an older record is accepted exactly if it lacks no more than its name and a public reference |
| BridgeCommands.OwnBridgeIsCurrent | internal/session/bridge.go:396-478 | a bridge started for a canonical session, in either scrollback spelling, is classified current for it |
| BridgeCommands.OtherBridgeIsUnrelated | internal/session/bridge.go:365-478 | and unrelated for every canonical session with another ID, whatever its PID |
| BridgeCommands.OtherTmuxIsUnrelated | internal/session/bridge.go:455-478 | a bridge started with another tmux path names the session's socket and is classified unrelated to it |
| BridgeCommands.PreviousBridgeOnlyIfRegistered | internal/session/bridge.go:365-453 | each of the four spellings of the previous release's command line is legacy for the registered PID and unrelated for any other |
| BridgeCommands.PreviousExactly | internal/session/bridge.go:414-453 | exactly those four spellings, with a number as Itoa writes it, are the previous release's |
| BridgeCommands.ClassifiedAs | internal/session/bridge.go:455-478 | exactly which command lines are current and which legacy: by program, socket, first base and the command at the end |
| BridgeCommands.OptionValueIs | internal/session/bridge.go:489-496 | an option's value is what follows its first occurrence |
| BridgeCommands.StartedWith | internal/session/bridge.go:396-404 | what a bridge is started with, option by option |
| BridgeCommands.CanonicalDecimalIs | internal/session/bridge.go:431-434 | the numbers accepted are those Itoa writes |
| BridgeCommands.BaseIs | internal/session/bridge.go:455-458 | the last element of a path is what follows its last slash |
| BridgeCommands.ReconcilePlan | internal/session/bridge.go:522-537 | the loop computes the kept process and the stop list |
| BridgeCommands.PlanLeavesOne | internal/session/bridge.go:505-537 | the plan stops each verified process but the kept one, once, and nothing else; the kept one is current, and the registered one whenever that is current and the socket answers |
| TmuxNames.FindsAnother | internal/tmux/tmux.go:329-339 | a check or a kill meets another session than the one named exactly when that one is gone and exactly one name begins with its name |
| TmuxNames.FindsItself | internal/tmux/tmux.go:448-450 | a name is found exactly when it is there, unless it begins exactly one other name |
| TmuxNames.WorkFindsWork2 | internal/tmux/tmux.go:329-339 | with one session gone and another whose name begins with its name there, the first is found to be the second |
| SessionWorld.EffectKeeps | internal/session/lifecycle.go:464-502 | every effect of a lock holder keeps each good record until a justified removal is logged |
| SessionWorld.EffectSpares | internal/session/lifecycle.go:504-509 | what the holder of one lock does can only take away from other sessions |
| SessionWorld.RecordGoesLast | internal/session/lifecycle.go:278-502 | in every interleaving a good record that nobody was just making and that is gone later was removed, not as a rollback, at a moment when tmux was gone, files were gone and none of the processes that still served the socket had the command line of a bridge (unless one had been passed over), although each was found out at another moment |
| SessionWorld.MovesKeep | internal/session/lifecycle.go:464-502 | whatever a holder has found out or done since it took the lock still holds after any turn of anybody |
| SessionWorld.HolderReliesOn | internal/session/lifecycle.go:504-509 | whatever all others do together while a lock is held is what its holder has to expect |
| SessionWorld.RunAsSeen | internal/session/lifecycle.go:504-509 | while a lock is held, any run is to its holder a path of its own turns and of what it has to expect of others, which is the form every operation is held to |
| SessionBridge.ListBridges | internal/session/bridge.go:312-337 | lists each bridge once under its kind, in ascending order |
| SessionBridge.PlanCarriedOut | internal/session/bridge.go:58-80 | after the plan the kept bridge is the only one, or there is none |
| SessionBridge.FirstPass | internal/session/bridge.go:58-80 | after ensuring, the returned bridge is the only one seen, and the socket answers unless the process that answered was stopped |
| SessionBridge.SecondPass | internal/session/bridge.go:58-80 | ensuring again keeps the same bridge and changes nothing exactly when the socket still answers |
| SessionBridge.RegisteredWithoutSocket | internal/session/bridge.go:522-537 | a registered bridge without the socket is kept and the one with it stopped |
| SessionBridge.ProcessBridge.VerifiedProcesses | internal/session/bridge.go:312-337 | exactly the bridges that can be seen: none that runs another file than the ttyd found, only the registered process if /proc cannot be listed, and none whose entry cannot be read |
| SessionBridge.ProcessBridge.StopVerifiedPID | internal/session/bridge.go:166-234 | a success means that the process is no longer a bridge of the session or cannot be recognised as one; nothing but such a process is stopped |
| SessionBridge.ProcessBridge.Stop | internal/session/bridge.go:82-90 | a success that missed none leaves no process with the command line of a bridge; left alone it stops exactly the bridges that can be seen |
| SessionBridge.StopLeavesServer | internal/session/bridge.go:312-337 | stopping all that are seen leaves exactly those processes on the session's socket that are spared: command line not recognised, or ttyd not found or replaced, or entry unreadable, or /proc not listable and not the registered process |
| SessionBridge.ProcessBridge.Start | internal/session/bridge.go:92-164 | a success where there was no bridge leaves the new one the only one; one failure leaves no bridge that was not there before |
| SessionBridge.ProcessBridge.Ensure | internal/session/bridge.go:58-80 | a success that missed none leaves the returned process the only bridge, and its PID is the one reported; left alone its whole effect, over the bridges that can be seen |
| Lifecycle.Manager.ReadManaged | internal/session/lifecycle.go:442-462 | each answer with its condition; a session found is canonical, stored as returned, and written only if it had to be brought up to date |
| Lifecycle.Manager.RemoveArtifacts | internal/session/lifecycle.go:483-502 | a success logs a removal resting on what its holder has gone through; a failure leaves the record |
| Lifecycle.Manager.CleanupLocked | internal/session/lifecycle.go:464-469 | the record goes exactly when nothing failed, and not as a rollback; left alone its whole effect |
| Lifecycle.CleanupLeavesServer | internal/session/lifecycle.go:464-502 | a cleanup that is left alone removes the record while exactly the spared processes go on serving the socket, and its log entry names them |
| Lifecycle.RemovedUnseen | internal/session/lifecycle.go:464-502 | a dead session with one process on its socket that is spared, in any world: the record goes and the process runs on |
| Lifecycle.RemovedAfterUpgrade | internal/session/bridge.go:380-394 | it does when the ttyd file was replaced after the bridge began, although everything can be seen |
| Lifecycle.RemovedAfterMove | internal/session/bridge.go:455-478 | and when the bridge was started by a server with another tmux path, although no bridge is passed over |
| Lifecycle.Manager.TerminateLocked | internal/session/lifecycle.go:349-382 | success means record and tmux gone by a logged removal; any failure leaves the record good; no tmux session is killed but the one that was there, only after the caller's checks agreed and, short of success, after every bridge seen was stopped; if they do not agree nothing is done but bringing the record up to date; a run without failures succeeds if they do, also after earlier failures |
| Lifecycle.Manager.TerminateChecked | internal/session/lifecycle.go:342-382 | with any call failing: success means that the session was ended in order since the lock was taken and the caller's checks agreed; every error leaves the record good, nothing is rolled back, and no tmux session of the name is killed but the one that was there, after the checks agreed and, short of success, after every bridge seen was stopped; if they do not agree, nothing is done since the lock but bringing the record up to date; without failures it succeeds if they do |
| Lifecycle.Manager.EnsureBridgeLocked | internal/session/lifecycle.go:415-440 | the session returned is its stored canonical record with the PID the bridge just reported, written only if that changed; its tmux session was told its history limit and window size, and after everything done about bridges where the agent is; a failure leaves the record good; tmux is not killed |
| Lifecycle.Manager.ResolveLocked | internal/session/lifecycle.go:255-293 | what each outcome of looking a session up says of the session before and after |
| Lifecycle.Manager.EnsureBridge | internal/session/lifecycle.go:249-276 | with any call failing: a success returns the session that was stored, brought up to date and with the PID just reported; a good record stays, or its session was found dead and ended in order; nothing is rolled back and no tmux session of the name is killed; left alone, success exactly for a good record with a live tmux session, and no other record and no tmux session changes |
| Lifecycle.Manager.WithSession | internal/session/lifecycle.go:278-301 | the session handed out is the stored record brought up to date; with any call failing a good record stays, or its session was found dead and ended in order; nothing is rolled back and no tmux session of the name is killed; left alone, success exactly for a good record with a live tmux session |
| Lifecycle.Manager.ReconcileOne | internal/session/lifecycle.go:384-413 | with any call failing, each answer with what it says of the session since the lock was taken; an answered session carries the PID just reported; every error leaves the record good, nothing is rolled back and no tmux session of the name is killed |
| Lifecycle.Manager.Reconcile | internal/session/lifecycle.go:303-325 | with any call failing, every round is as ReconcileOne says and the sessions answered are those of the rounds; left alone, exactly the live sessions keep good records, and exactly those are answered |
| Lifecycle.Manager.ReconcileTwice | internal/session/lifecycle.go:384-440 | the second reconcile keeps the bridge and writes nothing exactly unless the first cut off the process on the socket |
| Lifecycle.TwicePasses | internal/session/lifecycle.go:384-440 | the same for any two consecutive passes over worlds |
| Lifecycle.Manager.CleanupNewSession | internal/session/lifecycle.go:471-473 | rolls back all it can; a success leaves no record, no tmux session and, unless one was passed over, no bridge |
| Lifecycle.Manager.CreateOrSelect | internal/session/lifecycle.go:171-247 | the session returned is its stored canonical record with the PID just reported: the one that was stored, or one made now in the home directory, and then tmux was asked for it since the lock; left alone, a success has a live tmux session; with any call failing, a good record stays, nothing that was made is left unless taking it back failed as well, and no tmux session of the name is killed but one begun since the lock was taken, so an unmanaged one is left alone and reported as a conflict |

## Left out

- HTTP handlers, routing, TLS, configuration loading, cookies, CSRF and origin checks: plumbing over libraries.
- The browser code and all install, benchmark and test programs.
- The resize store, output activity and paste tokens: they would only repeat easier forms of the quota, counter and map invariants.
- Process execution, signals, file locks and timeouts: they appear as effects that may fail, and the lock as mutual exclusion per session; of /proc only what can be read of it matters.
- Looking at the running processes is one look, not a scan that others can interleave with.
- Registry files: a write is one step that may fail, and may have taken place although it failed; temporary files and syncing are not modelled.
- Nobody outside starts a tmux session of the same name while the session's lock is held. In `Lifecycle` a name finds its own session or none, which `TmuxNames.FindsItself` shows to hold unless it begins exactly one other name; how tmux reads a name with a period is not modelled.
- A crash of the program in the middle of an operation, and a panic inside a capture.
- Random identifiers: references, cursors and snapshot IDs are fresh values, so their collision is not modelled.
- JSON: the encoded length of a line is any function, and the 512 bytes allowed for the page envelope are taken to suffice.
- Window references across a restart of the tmux server: the code binds only pane references to a generation.
- 64-bit overflow of payload lengths, byte counters and times; a payload length is read as a natural number.
- AnsiHistory.Parse: the request context is never cancelled; UTF-8 decoding is written out as a function with sizes one to four.
- LoginLimiter.Limiter.Allow: the clock never goes back, and the limit is at least one (with none the code would index an empty list).
- CaptureCoordinator.RunKeeps: the clock never goes back; a caller is a fresh number.
- ForwardedAgent.AcceptedUnlessDirectory: leaves out paths under /proc/self, which mean something else to each process, and bind mounts, by which a directory has two names.
- ForwardedAgent.Agent.RefreshFromEnvironment: nobody else changes the file system meanwhile, and access rights are not modelled; paths as for ForwardedAgent.AcceptedUnlessDirectory.
- SessionWorld.RecordGoesLast: nobody edits the registry by hand; a create that fails may take back the record it wrote itself.
- SnapshotManager.Manager.Create: does not state how long a new identifier is, only that it is not in use.
- Lifecycle.Manager.Reconcile: the order of the sessions answered is not modelled.
- Lifecycle.Manager.WithSession: the caller's own function is the caller's; only the session handed to it is modelled.
- Lifecycle.Manager.TerminateChecked: the caller's cleanup hook and log lines are not modelled.
