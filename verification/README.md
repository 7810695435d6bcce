# Leia display plug-in: a verified model

Dafny models of the state machines and the numeric cores of the Leia display driver plug-in, with proofs
of what each keeps over whole runs. Where the source updates fields or arrays step by step, a class or a
method does the same steps and is proved against a specification function; the laws are lemmas about that
function. `dafny verify dfyconfig.toml` checks everything.

| file | models |
|---|---|
| `ZoneMask`, `ZoneLens`, `ZoneD3D12`, `ZoneD3D11`, `ZoneD3D12Exact`, `ZoneD3D11Exact` | the zone-mask readback: an asynchronous GPU copy polled by later publishes, the verdict carried until it lands, the lens driven on edges; both drivers refine one lens machine |
| `Claims`, `ClaimRules`, `FirstCome`, `ClaimOrder`, `ClaimTable`, `AuthWatch` | which monitor is which SR display, by what rules, when the order of the monitors matters, the stored table with its generation, and the watch that asks to probe again when a display is authenticated |
| `AlphaGate`, `AlphaLayers` | the post-weave alpha gate: the fast in-place pass against the full copy-and-rewrite, the flattening blend, and what a transparent pixel shows |
| `PreviewGeometry`, `Preview`, `PreviewLive` | the background preview: canvas clamp and reduction, the two-slot readback, and when it publishes |
| `StripCache`, `StripOrder`, `ImportCache`, `ImportExpiry`, `ImportConvert`, `ImportExact` | the Vulkan strip-framebuffer cache and what it evicts, and the conversion provider's import cache with its queue of releases, how long those may wait, its use by a convert, and when each call succeeds |
| `LiftDepth`, `LiftExact`, `Viewpoint`, `ViewExact`, `ConvPolicy`, `Floats` | the off-axis camera with its depth metadata, the viewpoint clamp, output extents and licence classes |
| `TraceSpans`, `TraceScore`, `TraceExact`, `TraceStats` | the prediction-trace scorer, and what it measures |
| `Platform` | the platform state and the life of cached geometry, queried on threads of its own |
| `Common` | options, first-match search, order-independent collection, flags raised and lowered along a run |

The GPU, the SR platform, the file system and the clock are inputs: every create, map, signal, wait or
request takes its outcome from an environment value, and the GPU advances as an event of its own, so each
law holds for all their answers. Histories (what was executed, requested, acquired, published) are ghost
or history fields that the code does not have. Square roots are a parameter known by its square.
Automatic induction is off wherever it would apply: every induction is written out.

Where the code does something else than its comments or its callers may expect, the model follows the code:

- `src/drv_leia/leia_bg_capture_win.cpp:579-581` says a slot found still drawing is picked up one
  generation later. The next produce overwrites it (`Preview.StillDrawingIsLost`).
- `src/conv_leia/leia_conv_d3d11.cpp:350-363` attempts no signal after the first that fails
  (`ImportCache.SignalReleasesAllIff`).
- `src/drv_leia/leia_display_processor.cpp:534-555` evicts the oldest insertion, not the least recently
  used (`StripOrder.HitDoesNotSaveTheOldest`; exactly when these are one: `StripOrder.EvictsLeastRecentIff`);
  and an entry whose grow failed stays, so a lookup whose
  creates would succeed answers null exactly when it covers the size (`StripCache.AnswersNullIff`), until
  a larger request grows it, it is evicted or the cache is flushed (`StripCache.DeadIff`).
- `tools/predict_trace_score.py:258-283` lets an event that is neither found nor lost reset the state, so
  a later loss moves the start of an open span: `TraceSpans.AnotherEventResetsTheState` is a stream,
  `TraceSpans.SpansAreExactIff` says exactly which.
- `src/drv_leia/leia_display_processor_d3d12.cpp:2329-2338`: after a failed fence Signal the executing
  copy's mask is not held and no copy is ever issued again (`ZoneD3D12.FailedSignalIsFinal`).
- `src/drv_leia/leia_display_processor_d3d12.cpp:2249-2258` keeps a fence whose event could not be made and
  never makes that event up, so blocking polls of a copy in flight then fail for good
  (`ZoneD3D12Exact.EventlessIsFinal`).
- `src/drv_leia/leia_sr_ready.cpp:487-512` queries with no lock held and publishes whatever is answered, so a
  panel replaced meanwhile leaves its geometry cached for the next one (`Platform.ReplacedDuringTheQuery`);
  and `src/drv_leia/leia_platform_state.c:100-119` invalidates only when a panel was matched before, so
  geometry queried with none matched survives into the first panel's tenure.
  `Platform.CachedGeometryIsCurrentIff` says exactly when cached geometry is of the current tenure, and
  exactly when it is of the panel matched now.
- `src/drv_leia/leia_display_processor_d3d11.cpp:2888-2893`: a staging create that fails leaves the pending
  flag of the copy before it, and a later publish of that generation and size has no texture to map
  (`ZoneD3D11.SmallerMaskReturns`; `ZoneD3D11.GoneIff` says exactly when the texture is gone).
- `src/conv_leia/leia_conv_d3d11.cpp:208-229` drops an import unseen for more than 64 calls even while a
  queued release borrows its mutex or fence (`ImportExpiry.LateFinishDangles`; exactly when:
  `ImportExpiry.QueuedReleaseDanglesIff`). The provider's one caller never waits that long: a convert makes
  one import, at most three writes and then a finish on every path
  (`src/conv_leia/leia_conv_plugin.cpp:850-1015`), so for it nothing dangles
  (`ImportConvert.SessionsDangleNothing`).
- `src/drv_leia/leia_display_claims_win.c:109-128` takes the first of several alike monitors, so their order
  decides (`ClaimOrder.OrderMattersWithoutPositions`; exactly when: `ClaimOrder.OrderNeverMattersIff`).

## Model

| member | source | states |
|---|---|---|
| `ZoneMask.ScanSeesTheMask` | src/drv_leia/leia_display_processor_d3d12.cpp:2380-2399 | scanning the copied rows, whatever fills the row pitch behind them, finds a set byte exactly when some pixel of the mask copied is set |
| `ZoneMask.Scan` | src/drv_leia/leia_display_processor_d3d12.cpp:2386-2395 | the nested scan loop answers exactly "some byte of the first w columns of the first h rows is not 0" |
| `ZoneLens.StepKeeps` | src/drv_leia/leia_display_processor_d3d12.cpp:2517-2555 | one publish or clear keeps the lens log coherent: requests of one activation alternate, a successful publish that leaves the zone active leaves the lens at the carried verdict, and after a clear of an active zone the lens stands at the view-count mode exactly when the request succeeded or the hint already did |
| `ZoneLens.RunKeeps` | src/drv_leia/leia_display_processor_d3d12.cpp:2403-2555 | the same over any run of publishes and clears |
| `ZoneLens.AsksIff` | src/drv_leia/leia_display_processor_d3d12.cpp:2517-2555 | a step sends at most one accepted request, and exactly when a publish with a verdict finds the zone inactive or last set otherwise, or a clear finds an active zone set otherwise than the mode; what it sends is the verdict, or the mode |
| `ZoneLens.ActivatesIff` | src/drv_leia/leia_display_processor_d3d12.cpp:2517-2555 | an activation is counted exactly when an inactive zone becomes active, by an accepted request, and a clear ends it |
| `ZoneD3D12.IdleFence` | src/drv_leia/leia_display_processor_d3d12.cpp:2196-2200 | when the fence shows no copy in flight, nothing executes on the queue |
| `ZoneD3D12.ExecuteKeeps` | src/drv_leia/leia_display_processor_d3d12.cpp:2324-2345 | executing a copy and signalling, or failing to, keeps the protocol invariant; the mask is held until the copy is known finished exactly when its Signal succeeded |
| `ZoneD3D12.IssueKeeps` | src/drv_leia/leia_display_processor_d3d12.cpp:2221-2345 | every Reset and Release of an issue happens with no list executing, and the poll is armed exactly when the issue succeeds |
| `ZoneD3D12.PollKeeps` | src/drv_leia/leia_display_processor_d3d12.cpp:2356-2401 | a poll that lands reads only a finished copy, of the very mask its copy was issued with; blocking never answers pending |
| `ZoneD3D12.ConsumeKeeps` | src/drv_leia/leia_display_processor_d3d12.cpp:2459-2515 | consuming a verdict keeps the protocol invariant |
| `ZoneD3D12.NextKeeps` | src/drv_leia/leia_display_processor_d3d12.cpp:2403-2555 | each event, a publish, a clear or GPU progress, keeps the protocol invariant |
| `ZoneD3D12.RunIsSafe` | src/drv_leia/leia_display_processor_d3d12.cpp:2196-2555 | over every interleaving of publishes, clears, resizes, failures and GPU progress nothing in use by an executing list is Reset, released or mapped, even when a clear disarmed the poll in between, and the verdict is that of a copy issued since the last clear |
| `ZoneD3D12.ClearForgets` | src/drv_leia/leia_display_processor_d3d12.cpp:2529-2555 | a clear disarms the poll, drops the verdict, the hint and the hold of the lens, and touches nothing the GPU was given |
| `ZoneD3D12.ClearIsFinal` | src/drv_leia/leia_display_processor_d3d12.cpp:2529-2555 | over any run to a clear and any run on without another, a verdict standing and a copy armed at the end are of a copy executed after that clear |
| `ZoneD3D12Exact.IssueIff` | src/drv_leia/leia_display_processor_d3d12.cpp:2221-2345 | an issue succeeds exactly when allocator, list, fence with event and buffer are there or can be made and Reset, Close and Signal succeed; the copy executes without the Signal too; with a list executing it would touch what that uses exactly when it lets a held mask go or comes to the buffer |
| `ZoneD3D12Exact.ExecutesIff` | src/drv_leia/leia_display_processor_d3d12.cpp:2403-2460 | a publish executes a copy exactly when its mask is not empty and not judged, none is armed or in flight, and the issue gets as far as its Close |
| `ZoneD3D12Exact.PollIff` | src/drv_leia/leia_display_processor_d3d12.cpp:2356-2401 | a poll answers pending exactly when the copy is in flight and it may not wait, fails exactly when there is nothing to map or the wait, its event or the Map fails, and else answers for the last copy |
| `ZoneD3D12Exact.ConsumeIff` | src/drv_leia/leia_display_processor_d3d12.cpp:2459-2515 | a poll that fails or lands gives the copy up, a pending one keeps it armed; a failed one refuses the publish and changes no verdict |
| `ZoneD3D12Exact.RefusedIff` | src/drv_leia/leia_display_processor_d3d12.cpp:2403-2527 | with SR accepting, a publish is refused exactly for no mask, an empty one, an issue that fails, or a poll that fails |
| `ZoneD3D12Exact.FenceIff` | src/drv_leia/leia_display_processor_d3d12.cpp:2249-2258 | a fence whose event cannot be made stays without one |
| `ZoneD3D12Exact.EventlessIsFinal` | src/drv_leia/leia_display_processor_d3d12.cpp:2249-2401 | no later publish makes that event up, and a blocking poll of a copy in flight then always fails |
| `ZoneD3D12Exact.ClearRestoresTheMode` | src/drv_leia/leia_display_processor_d3d12.cpp:2529-2555 | a clear of an active zone puts the lens to 3D exactly for two views or more, when SR accepts |
| `ZoneD3D12.InitialIsSafe` | src/drv_leia/leia_display_processor_d3d12.cpp:2196-2200 | the state before the first publish satisfies the invariant |
| `ZoneD3D12.VerdictMatchesGeneration` | src/drv_leia/leia_display_processor_d3d12.cpp:2443-2480 | when each generation has one content, a standing verdict is "some pixel set" of its own generation, over every run |
| `ZoneD3D12.NextJobs` | src/drv_leia/leia_display_processor_d3d12.cpp:2221-2345 | an event executes at most one copy, of the mask and generation it publishes, and forgets none |
| `ZoneD3D12.NextCopiesOf` | src/drv_leia/leia_display_processor_d3d12.cpp:2221-2345 | when each generation has one content, every copy executed read the content of its own generation |
| `ZoneD3D12.PublishRefines` | src/drv_leia/leia_display_processor_d3d12.cpp:2403-2527 | each publish is one step of the abstract lens machine, with the same return value |
| `ZoneD3D12.RunRefines` | src/drv_leia/leia_display_processor_d3d12.cpp:2403-2555 | whole runs are runs of the lens machine, to which GPU progress is invisible |
| `ZoneD3D12.RequestsAlternate` | src/drv_leia/leia_display_processor_d3d12.cpp:2517-2555 | from the start, accepted lens requests of one activation alternate over every interleaving |
| `ZoneD3D12.FrameProgress` | src/drv_leia/leia_display_processor_d3d12.cpp:2403-2527 | what one publish after the GPU caught up does to an armed, an unevaluated and a settled generation |
| `ZoneD3D12.ThreePublishesSettle` | src/drv_leia/leia_display_processor_d3d12.cpp:2403-2527 | with no failures and the GPU done between publishes, three publishes of a generation settle its verdict and the lens |
| `ZoneD3D12.TwoPublishesSettleIff` | src/drv_leia/leia_display_processor_d3d12.cpp:2403-2527 | two do exactly when no older generation's copy is still armed |
| `ZoneD3D12.BlockingSettles` | src/drv_leia/leia_display_processor_d3d12.cpp:2403-2527 | the blocking mode settles a generation in one publish |
| `ZoneD3D12.AsyncReachesBlocking` | src/drv_leia/leia_display_processor_d3d12.cpp:2403-2527 | the asynchronous mode, from any of its states, reaches the zone state the blocking mode reaches |
| `ZoneD3D12.FailedSignalIsFinal` | src/drv_leia/leia_display_processor_d3d12.cpp:2329-2332 | after one failed Signal no copy is ever issued again |
| `ZoneD3D12.DestroyIsSafeIff` | src/drv_leia/leia_display_processor_d3d12.cpp:2773-2804 | destroy releases under an executing list exactly when one may execute and the bounded drain does not see it finish |
| `ZoneD3D12.DisplayProcessor.ReadbackIssue` | src/drv_leia/leia_display_processor_d3d12.cpp:2221-2345 | the issue, step by step, has the specified effect on every zone field and on the GPU |
| `ZoneD3D12.DisplayProcessor.ReadbackPoll` | src/drv_leia/leia_display_processor_d3d12.cpp:2356-2401 | the poll, with its scan, has the specified effect and answer |
| `ZoneD3D12.DisplayProcessor.DriveLens` | src/drv_leia/leia_display_processor_d3d12.cpp:2517-2526 | a request goes out only on an edge, and the hint follows only when it succeeds |
| `ZoneD3D12.DisplayProcessor.PublishMask` | src/drv_leia/leia_display_processor_d3d12.cpp:2403-2527 | a publish has the specified effect and return value and keeps the protocol invariant |
| `ZoneD3D12.DisplayProcessor.ClearLocalMask` | src/drv_leia/leia_display_processor_d3d12.cpp:2529-2555 | a clear has the specified effect, disarms the poll and keeps the invariant |
| `ZoneD3D12.DisplayProcessor.Teardown` | src/drv_leia/leia_display_processor_d3d12.cpp:2773-2804 | destroy has the specified effect |
| `ZoneD3D11.IssueKeeps` | src/drv_leia/leia_display_processor_d3d11.cpp:2865-2918 | a queued copy is pending under the generation and the size it was queued with; a staging create that fails, with or without a copy pending, keeps the invariant |
| `ZoneD3D11.MapKeeps` | src/drv_leia/leia_display_processor_d3d11.cpp:2920-2984 | mapping the staging texture, whatever the map reports, keeps the invariant |
| `ZoneD3D11.MapReads` | src/drv_leia/leia_display_processor_d3d11.cpp:2920-2984 | a mapped staging texture yields the verdict of the pending copy, which is of the published generation and size |
| `ZoneD3D11.NextKeeps` | src/drv_leia/leia_display_processor_d3d11.cpp:2836-3022 | every publish and clear keeps that invariant |
| `ZoneD3D11.RunIsSafe` | src/drv_leia/leia_display_processor_d3d11.cpp:2836-3022 | over every run a standing verdict is that of a copy of its generation queued since the last clear |
| `ZoneD3D11.ClearForgets` | src/drv_leia/leia_display_processor_d3d11.cpp:2997-3022 | a clear drops the pending copy, the verdict, the hint and the hold of the lens, and keeps the staging texture |
| `ZoneD3D11.ClearIsFinal` | src/drv_leia/leia_display_processor_d3d11.cpp:2997-3022 | over any run to a clear and any run on without another, a verdict standing and a copy pending at the end are of a copy queued after that clear |
| `ZoneD3D11Exact.MapIff` | src/drv_leia/leia_display_processor_d3d11.cpp:2920-2984 | still drawing keeps the copy pending, a failed Map and a verdict give it up, and with SR accepting only a failed Map refuses |
| `ZoneD3D11Exact.QueuesIff` | src/drv_leia/leia_display_processor_d3d11.cpp:2836-2918 | a publish queues a copy exactly when its mask is not empty and not judged, no copy of its generation and size waits, and the texture is there or can be made |
| `ZoneD3D11Exact.RefusedIff` | src/drv_leia/leia_display_processor_d3d11.cpp:2836-2995 | with SR accepting, a publish is refused exactly for no mask, an empty one, a texture that cannot be made, or a failed Map |
| `ZoneD3D11.GoneStep` | src/drv_leia/leia_display_processor_d3d11.cpp:2871-2918 | after one event the staging texture of a pending copy is gone exactly when this event failed to create it, or it was gone before and the event neither created one nor cleared the zone |
| `ZoneD3D11.GoneIff` | src/drv_leia/leia_display_processor_d3d11.cpp:2836-3022 | over every run: it is gone at the end exactly when some create of the run failed with a copy pending and since then no create succeeded and no clear came |
| `ZoneD3D11.SmallerMaskReturns` | src/drv_leia/leia_display_processor_d3d11.cpp:2865-2923 | a concrete run, one generation whose mask is resized while its copy is pending, after which the old size is published again with no staging texture to map |
| `ZoneD3D11.PublishRefines` | src/drv_leia/leia_display_processor_d3d11.cpp:2836-2995 | each publish is one step of the same abstract lens machine as the D3D12 one, with the same return value |
| `ZoneD3D11.RunRefines` | src/drv_leia/leia_display_processor_d3d11.cpp:2836-3022 | whole runs are runs of the lens machine |
| `ZoneD3D11.RequestsAlternate` | src/drv_leia/leia_display_processor_d3d11.cpp:2985-3022 | accepted requests of one activation alternate over every run |
| `ZoneD3D11.RetiredCopySettles` | src/drv_leia/leia_display_processor_d3d11.cpp:2836-2995 | once the copy of a generation has retired, one more publish of it settles the zone |
| `ZoneD3D11.DisplayProcessor.CopyMask` | src/drv_leia/leia_display_processor_d3d11.cpp:2871-2918 | creating the staging texture and queueing the copy has the specified effect |
| `ZoneD3D11.DisplayProcessor.MapAndScan` | src/drv_leia/leia_display_processor_d3d11.cpp:2920-2995 | mapping, scanning and driving the lens has the specified effect and answer |
| `ZoneD3D11.DisplayProcessor.PublishMask` | src/drv_leia/leia_display_processor_d3d11.cpp:2836-2995 | a publish has the specified effect and return value |
| `ZoneD3D11.DisplayProcessor.ClearLocalMask` | src/drv_leia/leia_display_processor_d3d11.cpp:2997-3022 | a clear has the specified effect |
| `Claims.MatchSrMatches` | src/drv_leia/leia_display_claims_win.c:97-129 | the heuristic answers a free display at the descriptor's own origin, first such in order, else the only free unplaced one of the same panel, else ambiguous or none |
| `Claims.MatchIsUnique` | src/drv_leia/leia_display_claims_win.c:97-129 | that description has one answer |
| `Claims.FoundIsFree` | src/drv_leia/leia_display_claims_win.c:97-129 | a display found by the heuristic was free |
| `Claims.MatchDisplay` | src/drv_leia/leia_display_claims_win.c:97-129 | the matching loop answers exactly that |
| `Claims.FindRow` | src/drv_leia/leia_display_claims_win.c:141-158 | the row search finds the first matching row of SR's monitor list, or none |
| `Claims.FindJoin` | src/drv_leia/leia_display_claims_win.c:141-174 | the join target is the display SR's own row names, contradictions included |
| `Claims.DecideHonours` | src/drv_leia/leia_display_claims_win.c:206-288 | a joined display goes to its first joining descriptor and never to the heuristic |
| `Claims.RowsRespectJoins` | src/drv_leia/leia_display_claims_win.c:206-288 | every claim of a run of turns honours the joins |
| `Claims.RowsAreInjective` | src/drv_leia/leia_display_claims_win.c:206-288 | no display is bound by two claims, and claims come in descriptor order |
| `Claims.AssignmentIsInjective` | src/drv_leia/leia_display_claims_win.c:176-288 | for any descriptors, displays and monitor rows the assignment is injective, in descriptor order and honours the joins |
| `Claims.FewerClaimsArePrefix` | src/drv_leia/leia_display_claims_win.c:215-288 | a smaller claim limit only cuts the claims short |
| `Claims.SureTurnIsClaimed` | src/drv_leia/leia_display_claims_win.c:215-288 | a descriptor that claims whatever is taken gets its claim, given room |
| `Claims.KnownMonitorsAreClaimed` | src/drv_leia/leia_display_claims_win.c:176-288 | a display that SR joins to a monitor is claimed by that monitor's first joining descriptor, given room |
| `Claims.VerifiedIffFpc` | src/drv_leia/leia_display_claims_win.c:224-285 | in the new-API case a claim is VERIFIED and carries a serial exactly when it is bound to an fpc-verified display |
| `Claims.TakeJoined` | src/drv_leia/leia_display_claims_win.c:202-213 | the first pass takes exactly the joined displays, for their first joiners |
| `Claims.DecideOne` | src/drv_leia/leia_display_claims_win.c:216-272 | one descriptor's turn decides as specified: its join first, then the heuristic, then the table |
| `Claims.TakeTurn` | src/drv_leia/leia_display_claims_win.c:216-287 | one turn takes what it decides, writes its claim and its binding next in the buffers, and nothing when it decides nothing |
| `Claims.SecondPass` | src/drv_leia/leia_display_claims_win.c:215-288 | the second pass writes exactly the specified claims and bindings, in step, and no others |
| `Claims.ComputeClaims` | src/drv_leia/leia_display_claims_win.c:176-288 | leia_win_compute_claims writes exactly the assignment's claims and bindings and answers their number |
| `ClaimRules.JoinTargetIff` | src/drv_leia/leia_display_claims_win.c:141-174 | SR's join names display j exactly when the displays are enumerated, the first row at the monitor's HMONITOR, or at its origin when that is 0, does not contradict its EDID and has an id, and j is the first display with that id; it says "not an SR display" exactly when such a row has no id; otherwise it says nothing |
| `ClaimRules.HeuristicAtOrigin` | src/drv_leia/leia_display_claims_win.c:97-129 | the first free display with the monitor's ids at its own origin is found, whatever else is free |
| `ClaimRules.HeuristicElsewhere` | src/drv_leia/leia_display_claims_win.c:97-129 | without one, a display is found exactly when it is the only free one with those ids whose place is not known to be another, and the answer is ambiguous exactly when there are two |
| `ClaimRules.DecideIs` | src/drv_leia/leia_display_claims_win.c:216-272 | a joined display goes to its first joiner whatever is taken; what SR calls no SR display, and everything without enumeration, rests on the table; the rest is the heuristic's |
| `ClaimRules.EveryTurnIsTaken` | src/drv_leia/leia_display_claims_win.c:215-288 | with room for all, a descriptor has exactly the claim its turn answers for what earlier claims left free |
| `ClaimRules.AssignmentIsTurns` | src/drv_leia/leia_display_claims_win.c:176-288 | a monitor is claimed with a slot exactly when its turn answers that slot, a display being taken then when SR joins it to some monitor or an earlier claim bound it |
| `ClaimRules.OutcomeIs` | src/drv_leia/leia_display_claims_win.c:221-285 | every field of a claim and its binding: a bound one carries the display's, any other none, and that is VERIFIED only where an SR without enumeration vouches for the table |
| `ClaimRules.OnlyTheFirstAreSeen` | src/drv_leia/leia_display_claims_win.c:188-196 | the first eight displays and sixteen rows are looked at |
| `ClaimOrder.ClaimedIsTurns` | src/drv_leia/leia_display_claims_win.c:176-288 | with no monitor list the claims and bindings are those of the descriptors, one turn after the other |
| `FirstCome.SwapIff` | src/drv_leia/leia_display_claims_win.c:215-288 | serving in order, two neighbours can be exchanged exactly when they are no rivals for something still there |
| `FirstCome.FairPermutes` | src/drv_leia/leia_display_claims_win.c:215-288 | with no two rivals among them every order of the customers is served the same |
| `FirstCome.OrderFreeIff` | src/drv_leia/leia_display_claims_win.c:215-288 | and exactly then |
| `ClaimOrder.FoundAtFirstIff` | src/drv_leia/leia_display_claims_win.c:97-129 | with every display free, a descriptor compared by origin finds the display at its origin, and one compared by none finds the only display of its panel, and nothing else |
| `ClaimOrder.TurnServes` | src/drv_leia/leia_display_claims_win.c:97-129 | so, where each panel is all compared by origin or not at all, a turn gives its descriptor what it wants if that is still free, and else what it gets without |
| `ClaimOrder.ClaimedIsServed` | src/drv_leia/leia_display_claims_win.c:176-288 | and the claims and bindings of any order are those of serving the descriptors in that order |
| `ClaimOrder.RivalsIff` | src/drv_leia/leia_display_claims_win.c:97-129 | two descriptors are rivals exactly when they differ, want one display, and a claim of it differs from one of the table alone |
| `ClaimOrder.OrderNeverMattersIff` | src/drv_leia/leia_display_claims_win.c:176-288 | with no monitor list and each panel all compared by origin or not at all, every order of the descriptors gives the same claims and bindings exactly when no two descriptors are such rivals |
| `ClaimOrder.PermutingDescriptorsPermutesClaims` | src/drv_leia/leia_display_claims_win.c:176-287 | so with displays desktop-global, descriptors positioned and origins distinct, permuting the descriptors permutes the claims and changes nothing else |
| `ClaimOrder.AnyOrderNeedsNoContest` | src/drv_leia/leia_display_claims_win.c:176-288 | with no monitor list, however placed: if the order never matters, no two different descriptors are up for the only display of their panel |
| `ClaimOrder.MixedPanelsMatter` | src/drv_leia/leia_display_claims_win.c:97-129 | within one panel, a descriptor with a position and one without contest nothing, and yet the order decides whether the one without is bound or ambiguous |
| `ClaimOrder.OrderMattersWithoutPositions` | src/drv_leia/leia_display_claims_win.c:109-128 | without positions order matters: a concrete pair of descriptors where it decides |
| `ClaimOrder.FirstTwinWins` | src/drv_leia/leia_display_claims_win.c:109-128 | of two alike descriptors without positions the first listed gets the only display |
| `ClaimTable.SameGenerationSameIdentities` | src/drv_leia/leia_display_claims_win.c:313-340 | over any probes, an unchanged generation means unchanged identities, failed probes included |
| `ClaimTable.StoredIsFound` | src/drv_leia/leia_display_claims_win.c:320-358 | a stored binding is found again under its monitor, and only stored ones are |
| `ClaimTable.StoreIff` | src/drv_leia/leia_display_claims_win.c:313-340 | a store keeps the first sixteen bindings and moves the generation exactly when their number, or some monitor, SR display, verification or serial, changes |
| `ClaimTable.PickIsOrderIndependent` | src/drv_leia/leia_display_claims_win.c:360-399 | the picked panel is the same for every order of the bindings |
| `ClaimTable.PickedIsUnique` | src/drv_leia/leia_display_claims_win.c:360-399 | when two eligible bindings are alike in having the size asked or not, the pick, if any, is of that size and neither of them |
| `ClaimTable.PickPanelIff` | src/drv_leia/leia_display_claims_win.c:360-399 | a panel is answered exactly when one binding is the only verified, positioned one, or the only one of those with the size asked for; and that one is the answer |
| `ClaimTable.SameBinding` | src/drv_leia/leia_display_claims_win.c:313-320 | two bindings are the same when their identities are |
| `ClaimTable.MonitorTable.StoreBindings` | src/drv_leia/leia_display_claims_win.c:320-340 | the stored table is replaced, and the generation moves exactly when an identity changed |
| `ClaimTable.MonitorTable.LookupMonitor` | src/drv_leia/leia_display_claims_win.c:342-358 | the lookup loop answers the specified binding |
| `ClaimTable.MonitorTable.FindSerial` | src/drv_leia/leia_display_claims_win.c:410-429 | the serial search answers the first FPC-verified binding with that serial, none if there is none, and never answers the empty serial |
| `ClaimTable.PickPanelScan` | src/drv_leia/leia_display_claims_win.c:360-399 | the scan answers the one verified, positioned candidate of the size, else the one of any size |
| `AuthWatch.AsksAreSpaced` | src/drv_leia/leia_display_claims_win.c:593-627 | over any run with time not going back, true returns are at least 30000 ms apart |
| `AuthWatch.NothingAuthenticatesItself` | src/drv_leia/leia_display_claims_win.c:561-591 | no list authenticates itself |
| `AuthWatch.KeptAuthenticatesIff` | src/drv_leia/leia_display_claims_win.c:561-627 | the eight displays a watch keeps are authenticated by the list they are from exactly when a verified display behind them shares its id or EDID with an EDID_ONLY one of them and its id is not verified among them |
| `AuthWatch.RefeedNeverAsks` | src/drv_leia/leia_display_claims_win.c:593-627 | feeding the same list again and again never asks, if nothing hides that way behind the eight kept; with eight displays or fewer nothing can |
| `AuthWatch.RefeedAsks` | src/drv_leia/leia_display_claims_win.c:593-627 | if something does, re-feeding asks exactly when some read comes at or past the interval |
| `AuthWatch.AskedThenRefedIff` | src/drv_leia/leia_display_claims_win.c:593-627 | so after a true on a list, feeding it again asks again exactly when a panel hides behind the eight kept and a read comes at or past the interval, and never for eight displays or fewer |
| `AuthWatch.HeldIsAnswered` | src/drv_leia/leia_display_claims_win.c:604-627 | an authentication seen inside the interval is held and answered at the first read at or past it |
| `AuthWatch.GraceBridgesTheGap` | src/drv_leia/leia_display_claims_win.c:593-627 | reads without a list inside the grace period do not lose the pending list |
| `AuthWatch.DroppedIff` | src/drv_leia/leia_display_claims_win.c:593-627 | over reads that neither authenticate the pending list nor list anything EDID_ONLY, it is dropped exactly when one of them comes more than ten seconds after it was last seen |
| `AuthWatch.ReadIsNoted` | src/drv_leia/leia_display_claims_win.c:593-627 | a read with an EDID_ONLY display is noted, its first eight, unless the authentication it shows is held |
| `AuthWatch.AskedAcrossTheGapIff` | src/drv_leia/leia_display_claims_win.c:593-627 | after such a gap a read asks exactly when the list was not dropped on the way, this one authenticates it, and no true return came within the interval |
| `AuthWatch.AuthenticatedIff` | src/drv_leia/leia_display_claims_win.c:561-591 | authenticated exactly when some display is verified now that the earlier list had unverified, by id or by EDID and serial, unless that list had it verified too and this one has the other unverified still |
| `AuthWatch.ElapsedWraps` | src/drv_leia/leia_display_claims_win.c:593-627 | differences of times wrap at 64 bits |
| `AuthWatch.FeedKeepsPending` | src/drv_leia/leia_display_claims_win.c:593-627 | a pending list that is not empty contains an EDID_ONLY entry and was fed |
| `AuthWatch.PendingOverRuns` | src/drv_leia/leia_display_claims_win.c:593-627 | the same over any run |
| `AuthWatch.AskHasACause` | src/drv_leia/leia_display_claims_win.c:561-627 | every true return has a cause: an earlier read with an EDID_ONLY entry that this read authenticates |
| `AuthWatch.CountEdidOnly` | src/drv_leia/leia_display_claims_win.c:538-548 | the count of EDID_ONLY entries, which is positive exactly when one is listed |
| `AuthWatch.ScanEdidOnly` | src/drv_leia/leia_display_claims_win.c:550-559 | whether a display is listed EDID_ONLY |
| `AuthWatch.CheckAuthenticated` | src/drv_leia/leia_display_claims_win.c:561-591 | the nested loops answer exactly the specified relation |
| `AuthWatch.Watcher.FeedRead` | src/drv_leia/leia_display_claims_win.c:593-627 | one feed has the specified effect on the watch and the specified answer |
| `AlphaGate.ReadsItsOwnPixel` | src/drv_leia/leia_display_processor_d3d11.cpp:309-348 | a canvas pixel's round trip through window coordinates reads the texel it came from |
| `AlphaGate.GatesAgreeIff` | src/drv_leia/leia_display_processor_d3d11.cpp:280-464 | on a scene the mask-only gate serves, both gates give a pixel one colour exactly when the full gate's saturate leaves its alpha alone: always on a UNORM target |
| `AlphaGate.FramesAgree` | src/drv_leia/leia_display_processor_d3d11.cpp:2062-2199 | with no backdrop, no flatten and overlay 0 or 2, both gates give the same pixel everywhere, and neither touches pixels outside the canvas |
| `AlphaGate.BlendAssociates` | src/drv_leia/leia_display_processor_d3d11.cpp:345-387 | premultiplied-over is associative in each channel |
| `AlphaGate.LayOver` | src/drv_leia/leia_display_processor_d3d11.cpp:345-387 | laying the woven layer and then blending over the desktop is one blend |
| `AlphaGate.UnderFlattens` | src/drv_leia/leia_display_processor_d3d11.cpp:345-387 | what lies under is the captured desktop completed by the backdrop |
| `AlphaGate.FlattenCompletesTheBlend` | src/drv_leia/leia_display_processor_d3d11.cpp:345-387 | in every configuration the flattened output has alpha 1 and equals the unflattened output premultiplied-over the captured desktop |
| `AlphaGate.GateKeepsPremultiplied` | src/drv_leia/leia_display_processor_d3d11.cpp:345-387 | premultiplied-valid inputs give premultiplied-valid outputs |
| `AlphaLayers.OverLayerIs` | src/drv_leia/leia_display_processor_d3d11.cpp:362-387 | the over-layer of a transparent pixel is the woven colour with its own alpha held in 0..1, or with the layer's alpha raised to the brightest channel, or nothing |
| `AlphaLayers.TransparentPixel` | src/drv_leia/leia_display_processor_d3d11.cpp:345-387 | in every configuration, channel by channel, a pixel transparent in all views is emitted as that over-layer over the backdrop, and flattened over the desktop too, opaque; a layer whose flag is off is absent |
| `AlphaLayers.FramePixel` | src/drv_leia/leia_display_processor_d3d11.cpp:280-387 | a frame's pixel is as woven outside the region, as woven and opaque where a view shows something, and elsewhere, presented, the over-layer over the backdrop over the desktop, these read at its centre |
| `AlphaLayers.TileReadsItsTexel` | src/drv_leia/leia_display_processor_d3d11.cpp:328-344 | with tiles of the canvas's size a view is read at the texel as far into its tile as the pixel is into the canvas |
| `AlphaLayers.TileFilters` | src/drv_leia/leia_display_processor_d3d11.cpp:328-344 | with tiles of another size it is filtered at the same fraction |
| `AlphaGate.ScanViews` | src/drv_leia/leia_display_processor_d3d11.cpp:328-344 | the tile loops answer "every view transparent here" |
| `AlphaGate.CopyTarget` | src/drv_leia/leia_display_processor_d3d11.cpp:2079-2089 | the scratch copy holds the target |
| `AlphaGate.FullGateFrame` | src/drv_leia/leia_display_processor_d3d11.cpp:2079-2199 | the copy-then-rewrite frame is the specified one in every pixel |
| `AlphaGate.MaskGateFrame` | src/drv_leia/leia_display_processor_d3d11.cpp:2152-2167 | the in-place blended frame is the specified one in every pixel |
| `AlphaGate.RunGate` | src/drv_leia/leia_display_processor_d3d11.cpp:1992-2213 | whichever gate serves the frame, the frame is the full gate's, and a foreign render target is left alone |
| `PreviewGeometry.ClampIsIntersection` | src/drv_leia/leia_bg_capture_win.cpp:344-384 | the clamp is the exact intersection of window and monitor, and fails exactly when it is empty |
| `PreviewGeometry.CanvasIsProper` | src/drv_leia/leia_bg_capture_win.cpp:344-384 | otherwise 0 <= u0 < u1 <= 1, likewise v, and it is the whole window exactly when that is on the monitor |
| `PreviewGeometry.CropMapsLikeTheWindow` | src/drv_leia/leia_bg_capture_win.cpp:344-384 | a window coordinate mapped through the canvas into the crop lands on the monitor pixel the unclamped window maps it to |
| `PreviewGeometry.AxisFraction` | src/drv_leia/leia_bg_capture_win.cpp:344-384 | the same bounds along one axis |
| `PreviewGeometry.AxisMaps` | src/drv_leia/leia_bg_capture_win.cpp:344-384 | the same mapping along one axis |
| `PreviewGeometry.ShiftIsLeastAndValid` | src/drv_leia/leia_bg_capture_win.cpp:390-398 | the shift is the least one from 2 up with both reduced sides within 512, and a valid mip level for sides 8 to 16384 |
| `PreviewGeometry.ShrDivides` | src/drv_leia/leia_bg_capture_win.cpp:390-398 | shifting right divides by a power of two |
| `PreviewGeometry.FiveIsEnough` | src/drv_leia/leia_bg_capture_win.cpp:390-398 | a side up to 16384 never needs more than 5 |
| `PreviewGeometry.CanvasUv` | src/drv_leia/leia_bg_capture_win.cpp:344-384 | the branches compute exactly the clamp |
| `PreviewGeometry.PreviewShiftFor` | src/drv_leia/leia_bg_capture_win.cpp:390-398 | the loop computes exactly the least shift |
| `Preview.QueueKeeps` | src/drv_leia/leia_bg_capture_win.cpp:543-567 | queueing a copy stamps the slot written with frame, crop and generation together |
| `Preview.ReadBackKeeps` | src/drv_leia/leia_bg_capture_win.cpp:569-603 | reading back publishes bytes, size, generation and canvas of one slot or nothing |
| `Preview.EnsureKeeps` | src/drv_leia/leia_bg_capture_win.cpp:405-482 | targets of the right size are kept as they are; a rebuild, failing anywhere, leaves no slot pending and the slots coherent |
| `Preview.FullProduceKeeps` | src/drv_leia/leia_bg_capture_win.cpp:498-603 | a full produce reads the slot written by the full produce before it |
| `Preview.ProduceKeeps` | src/drv_leia/leia_bg_capture_win.cpp:498-603 | every produce, off-screen ones and failures included, keeps the slots coherent |
| `Preview.PollKeeps` | src/drv_leia/leia_bg_capture_win.cpp:1269-1331 | so does a poll |
| `Preview.PollMoves` | src/drv_leia/leia_bg_capture_win.cpp:1269-1331 | a poll publishes nothing, or something newer |
| `Preview.RunIsOk` | src/drv_leia/leia_bg_capture_win.cpp:1269-1331 | the invariant over every run of polls |
| `Preview.RunIsCoherent` | src/drv_leia/leia_bg_capture_win.cpp:405-603 | over every run whose generations do not go back, each publication is one earlier produce's bytes, size, generation and canvas, and published generations strictly increase |
| `Preview.StillDrawingIsLost` | src/drv_leia/leia_bg_capture_win.cpp:569-603 | a slot found still drawing is never published: the next produce overwrites it |
| `Preview.StillDrawingHappens` | src/drv_leia/leia_bg_capture_win.cpp:569-603 | two polls that find the copy still drawing lead to such a slot |
| `Preview.HandedOutIsOneProduce` | src/drv_leia/leia_bg_capture_win.cpp:609-677 | what a caller is handed is one produce's preview |
| `PreviewLive.PublishesIff` | src/drv_leia/leia_bg_capture_win.cpp:498-603 | a poll replaces the published bytes exactly when it brings a new generation of the size the targets have, a produce waits in the other slot and the map succeeds; they are then the last produce's |
| `PreviewLive.PublishedByTheNextIff` | src/drv_leia/leia_bg_capture_win.cpp:498-603 | from any reachable state of a working capture: after a poll that brings a frame and any that bring none, the next publishes the first one's frame, crop, canvas and generation, its sides shifted right, exactly when it brings a frame of the same crop size and its map succeeds; and that is handed out |
| `PreviewLive.RunFits` | src/drv_leia/leia_bg_capture_win.cpp:405-482 | over any run the slots have the recorded crop's sides shifted right |
| `PreviewLive.ServesIff` | src/drv_leia/leia_bg_capture_win.cpp:609-630 | something is handed out after a poll exactly when that poll had a frame, the capture is enabled and not broken, and bytes were published |
| `PreviewLive.RebuildIs` | src/drv_leia/leia_bg_capture_win.cpp:405-482 | how far a rebuild of the targets comes when a create fails |
| `Preview.InitialIsOk` | src/drv_leia/leia_bg_capture_win.cpp:405-482 | a new capture satisfies the invariant |
| `Preview.Capture.EnsureFor` | src/drv_leia/leia_bg_capture_win.cpp:405-482 | making the targets has the specified effect |
| `Preview.Capture.QueueInto` | src/drv_leia/leia_bg_capture_win.cpp:543-567 | queueing has the specified effect |
| `Preview.Capture.ReadOther` | src/drv_leia/leia_bg_capture_win.cpp:569-603 | reading back has the specified effect |
| `Preview.Capture.ProduceFrom` | src/drv_leia/leia_bg_capture_win.cpp:498-603 | a produce has the specified effect |
| `Preview.Capture.PollWindow` | src/drv_leia/leia_bg_capture_win.cpp:1269-1331 | a poll has the specified effect and, when its generation is not behind the last, keeps the coherence of the slots |
| `Preview.Capture.ServePreview` | src/drv_leia/leia_bg_capture_win.cpp:609-677 | the preview handed out is the published one |
| `StripCache.BuildKeeps` | src/drv_leia/leia_display_processor.cpp:454-492 | a build that fails halfway destroys what it made; one that succeeds owns a new view and framebuffer |
| `StripCache.DropKeeps` | src/drv_leia/leia_display_processor.cpp:510-555 | destroying an entry destroys exactly its two handles |
| `StripCache.RemoveKeeps` | src/drv_leia/leia_display_processor.cpp:534-555 | removing an entry with its handles keeps the cache sound |
| `StripCache.GrowKeeps` | src/drv_leia/leia_display_processor.cpp:510-525 | growing in place keeps the cache sound and answers with what was asked |
| `StripCache.EvictKeeps` | src/drv_leia/leia_display_processor.cpp:534-555 | eviction keeps the cache sound and makes room |
| `StripCache.AppendKeeps` | src/drv_leia/leia_display_processor.cpp:526-569 | inserting keeps the cache sound |
| `StripCache.GetKeeps` | src/drv_leia/leia_display_processor.cpp:496-569 | any lookup, whatever fails in it, keeps at most 8 entries of distinct images whose handles are exactly the live ones, and a framebuffer answered is of the image asked and covers the size |
| `StripCache.FlushKeeps` | src/drv_leia/leia_display_processor.cpp:571-610 | flushing destroys every handle once and leaves nothing live |
| `StripCache.GetIsCurrent` | src/drv_leia/leia_display_processor.cpp:496-569 | a lookup never leaves a view of a destroyed image |
| `StripCache.HitAnswers` | src/drv_leia/leia_display_processor.cpp:496-532 | an image cached at least as large as asked for is answered with, and nothing changes |
| `StripCache.TooSmallGrows` | src/drv_leia/leia_display_processor.cpp:510-532 | one cached too small is made anew in its place at the larger of each side, or left without handles when a create fails |
| `StripCache.MissEnters` | src/drv_leia/leia_display_processor.cpp:534-569 | one not cached enters last at the size asked for, the oldest of eight gone, if both creates succeed |
| `StripCache.NotifyIs` | src/drv_leia/leia_display_processor.cpp:2135-2159 | a notification leaves its generation behind and flushes exactly when that is another one |
| `StripCache.DestroyIff` | src/drv_leia/leia_display_processor.cpp:454-492 | destroying what is not live is a fault, so the laws that none comes about exclude double destroys |
| `StripCache.RunIsSound` | src/drv_leia/leia_display_processor.cpp:454-610 | over any run of lookups, failed builds, evictions and recreations the cache stays sound, and if every recreation is notified it holds no view of a destroyed image |
| `StripCache.RecreationIsCleanIff` | src/drv_leia/leia_display_processor.cpp:2135-2159 | a recreation leaves no stale view exactly when its generation is new or nothing was cached |
| `StripOrder.LookupEnters` | src/drv_leia/leia_display_processor.cpp:496-569 | a lookup, growing in place and failing anywhere, does to the order of the cached images what a first-in first-out queue of eight does |
| `StripOrder.RunIsFifo` | src/drv_leia/leia_display_processor.cpp:496-569 | so over every run of lookups from an empty cache the images stand as in that queue |
| `StripOrder.ImagesAreInOrder` | src/drv_leia/leia_display_processor.cpp:534-569 | and they stand in the order of the lookups that last inserted them |
| `StripOrder.LeastRecentIff` | src/drv_leia/leia_display_processor.cpp:534-555 | a cached image is the least recently looked up exactly when every other cached one was looked up since its last lookup |
| `StripOrder.EvictsLeastRecentIff` | src/drv_leia/leia_display_processor.cpp:534-555 | over every run of lookups from an empty cache, what the next one drops is the cached image inserted first, and that is the least recently looked up exactly when every other cached image was looked up since its last lookup |
| `StripOrder.HitDoesNotSaveTheOldest` | src/drv_leia/leia_display_processor.cpp:534-555 | a concrete run from an empty cache: the image just looked up is dropped, and another is the least recently looked up |
| `StripCache.AnswersNullIff` | src/drv_leia/leia_display_processor.cpp:496-569 | a lookup answers null exactly when an entry of the image that covers the size has lost its handles, or when no entry covers the size and a create fails |
| `StripCache.DeadStep` | src/drv_leia/leia_display_processor.cpp:496-569 | one event leaves an image with such an entry exactly when it failed to grow it, or the image had one and the event neither grew it, evicted it nor flushed the cache |
| `StripCache.DeadIff` | src/drv_leia/leia_display_processor.cpp:454-610 | over every run: an image has one at the end exactly when some request of the run failed to grow its entry and none since grew it, evicted it or flushed the cache |
| `StripCache.Cache.BuildEntry` | src/drv_leia/leia_display_processor.cpp:454-492 | the build has the specified effect |
| `StripCache.Cache.GrowAt` | src/drv_leia/leia_display_processor.cpp:510-525 | the grow has the specified effect |
| `StripCache.Cache.EvictOldest` | src/drv_leia/leia_display_processor.cpp:534-555 | the in-place shift removes exactly the oldest entry |
| `StripCache.Cache.GetStripFb` | src/drv_leia/leia_display_processor.cpp:496-569 | a lookup has the specified effect and answer and keeps the cache sound |
| `StripCache.Cache.NotifyTargets` | src/drv_leia/leia_display_processor.cpp:2135-2159 | a notification flushes exactly when its generation is new |
| `StripCache.Cache.ReleaseAll` | src/drv_leia/leia_display_processor.cpp:571-585 | a release from a sound cache leaves nothing live |
| `ImportCache.AgeingKeeps` | src/conv_leia/leia_conv_d3d11.cpp:208-229 | ageing keeps exactly the entries seen within 64 ticks, with unique keys |
| `ImportCache.KeepOrder` | src/conv_leia/leia_conv_d3d11.cpp:208-229 | an erase loop keeps the order of what it keeps |
| `ImportExpiry.HandleDoes` | src/conv_leia/leia_conv_d3d11.cpp:231-326 | an import or a write of a shared image looks up one key among the textures and at most one, however often it asks for the fence, among the fences |
| `ImportExpiry.NextDoes` | src/conv_leia/leia_conv_d3d11.cpp:208-860 | every call but a clear ages both caches to the tick it ends with and then looks up at most one key in each; only a call that ages moves the tick, and by one |
| `ImportExpiry.LookKeeps` | src/conv_leia/leia_conv_d3d11.cpp:237-284 | a hit that refreshes one entry, or a new import, keeps the keys unique and every entry young |
| `ImportExpiry.NextKeeps` | src/conv_leia/leia_conv_d3d11.cpp:208-860 | so every call, failing anywhere, keeps both caches sound |
| `ImportExpiry.NextLent` | src/conv_leia/leia_conv_d3d11.cpp:208-326 | and every call keeps all that a release queued within 64 ticks borrows in the cache, clears aside, which empty the queue |
| `ImportExpiry.NextOwned` | src/conv_leia/leia_conv_d3d11.cpp:231-284 | and every name stays with one entry |
| `ImportExpiry.RunIsSound` | src/conv_leia/leia_conv_d3d11.cpp:208-860 | over any run: unique keys, nothing unseen for more than 64 ticks, every object held by one entry, and what every release queued within 64 ticks borrows is cached |
| `ImportExpiry.NextStands` | src/conv_leia/leia_conv_d3d11.cpp:208-326 | so a call moves the stamp of what a queued release borrows exactly as its look-up says, and drops the import when that stamp is more than 64 ticks old |
| `ImportExpiry.DanglesIff` | src/conv_leia/leia_conv_d3d11.cpp:208-326 | over any calls but a clear, what is borrowed has been dropped at the end exactly when more than 64 ageing calls passed somewhere with none using its key |
| `ImportExpiry.QueuedStands` | src/conv_leia/leia_conv_d3d11.cpp:312-326 | what a release queued by the latest call borrows is cached, under one key, and stamped by that call |
| `ImportExpiry.QueuedReleaseDanglesIff` | src/conv_leia/leia_conv_d3d11.cpp:208-860 | from a fresh provider, over any calls: what a release queued by the latest of them borrows is gone after any more calls but a clear exactly when more than 64 of these passed somewhere with none using the key it is cached under |
| `ImportExpiry.PromptFinishDanglesNothing` | src/conv_leia/leia_conv_d3d11.cpp:208-363 | from a fresh provider, over any calls: no release queued within 64 ticks borrows a dropped fence or mutex |
| `ImportExpiry.LateFinishDangles` | src/conv_leia/leia_conv_d3d11.cpp:764-860 | a concrete run: a keyed-mutex write, 65 writes to memory and a finish, which succeeds and releases a mutex no entry holds any more |
| `ImportConvert.ConvertedIsRecent` | src/conv_leia/leia_conv_plugin.cpp:824-985 | when a convert comes to its finish, all that is queued was queued since its import, and what it borrows is cached |
| `ImportConvert.SessionsDangleNothing` | src/conv_leia/leia_conv_plugin.cpp:824-1052 | over any session of converts, failing anywhere, and clears: no finish signals a dropped fence or mutex, no clear finds a release queued, and none is left queued |
| `ImportConvert.ConvertBalances` | src/conv_leia/leia_conv_plugin.cpp:824-1020 | with no signal failing, after every convert, failing anywhere, acquired equals released |
| `ImportConvert.SessionsBalance` | src/conv_leia/leia_conv_plugin.cpp:824-1052 | and so after every session |
| `ImportExact.ConvertIff` | src/conv_leia/leia_conv_plugin.cpp:850-1015 | a convert succeeds exactly when its import, what lies between, every write and its finish do; it finishes once, twice only when its finish fails |
| `ImportExact.WritesStopAtTheFirstFailure` | src/conv_leia/leia_conv_plugin.cpp:893-975 | no target is written behind the first that fails |
| `ImportConvert.StreamConvert` | src/conv_leia/leia_conv_plugin.cpp:850-1015 | the import, the writes up to the first that fails, and the finish on every path have the specified effect |
| `ImportConvert.WriteAll` | src/conv_leia/leia_conv_plugin.cpp:893-975 | the writes, up to the first that fails, have the specified effect |
| `ImportCache.SignalReleasesAllIff` | src/conv_leia/leia_conv_d3d11.cpp:350-363 | a signal pass releases every queued mutex exactly when none is queued at or behind the first signal that fails |
| `ImportExact.SignalIs` | src/conv_leia/leia_conv_d3d11.cpp:350-363 | a signal pass releases exactly the mutexes queued before the first release that cannot be signalled, and succeeds exactly when there is none |
| `ImportExact.OpenTextureIff` | src/conv_leia/leia_conv_d3d11.cpp:231-261 | a texture opens exactly for an NT handle whose key is cached or whose opening succeeds; a cached one is itself again, a new one carries a mutex exactly when asked for and there |
| `ImportExact.AcquireIff` | src/conv_leia/leia_conv_d3d11.cpp:286-310 | an image is acquired exactly when it needs no synchronization, its fence opens and is waited for, or its mutex is there and acquired |
| `ImportExact.WriteIff` | src/conv_leia/leia_conv_d3d11.cpp:764-833 | a write succeeds exactly when the device is not lost, the extent known, and opening, drawing and acquiring succeed; then its release or a drain is owed, and else nothing |
| `ImportExact.ImportIff` | src/conv_leia/leia_conv_d3d11.cpp:692-762 | an import succeeds exactly likewise, and a synchronized one is released at once |
| `ImportExact.FinishIff` | src/conv_leia/leia_conv_d3d11.cpp:835-860 | a finish succeeds exactly when every queued release is signalled, the drain it owes succeeds and the device is not lost; nothing is owed after it |
| `ImportExact.ClearLeavesNothing` | src/conv_leia/leia_conv_d3d11.cpp:674-690 | a clear leaves nothing cached and nothing queued, so every key opens anew |
| `ImportExact.LostIff` | src/conv_leia/leia_conv_d3d11.cpp:674-860 | over any run the device is lost exactly when some call noticed it removed, and from then on no call does anything or succeeds |
| `ImportCache.SignalConserves` | src/conv_leia/leia_conv_d3d11.cpp:350-363 | with no signal failing a pass leaves acquired equal to released |
| `ImportCache.FenceReopens` | src/conv_leia/leia_conv_d3d11.cpp:263-326 | the fence an acquire opened is found again when its release is queued |
| `ImportCache.PairConserves` | src/conv_leia/leia_conv_d3d11.cpp:286-326 | acquire then queue keeps the balance; a failed acquire takes nothing |
| `ImportCache.WriteConserves` | src/conv_leia/leia_conv_d3d11.cpp:764-833 | a write, succeeding or failing, keeps the balance |
| `ImportCache.ImportConserves` | src/conv_leia/leia_conv_d3d11.cpp:692-762 | so does an import |
| `ImportCache.ForgottenIff` | src/conv_leia/leia_conv_d3d11.cpp:674-690 | the clears of a run forget nothing exactly when none of them found a queued release that names a mutex |
| `ImportCache.RunConserves` | src/conv_leia/leia_conv_d3d11.cpp:692-860 | over any run with no signal failing every mutex acquired is released, queued, or among those its clears forgot, as often as it was acquired |
| `ImportCache.FinishBalances` | src/conv_leia/leia_conv_d3d11.cpp:692-860 | so at every finish acquired equals released exactly when no clear of the run found a mutex queued, and else differs by what the clears forgot |
| `ImportCache.Provider.AgeCache` | src/conv_leia/leia_conv_d3d11.cpp:208-229 | the two in-place erase loops age the cache as specified |
| `ImportCache.Provider.Open` | src/conv_leia/leia_conv_d3d11.cpp:231-261 | the search and open have the specified effect and answer |
| `ImportCache.Provider.OpenTheFence` | src/conv_leia/leia_conv_d3d11.cpp:263-284 | likewise for fences |
| `ImportCache.Provider.AcquireImage` | src/conv_leia/leia_conv_d3d11.cpp:286-310 | acquiring has the specified effect and answer |
| `ImportCache.Provider.QueueTheRelease` | src/conv_leia/leia_conv_d3d11.cpp:312-326 | queueing has the specified effect |
| `ImportCache.Provider.SignalPending` | src/conv_leia/leia_conv_d3d11.cpp:350-363 | the loop stops signalling at its first failure and clears the queue |
| `ImportCache.Provider.ImportImage` | src/conv_leia/leia_conv_d3d11.cpp:692-762 | an import has the specified effect and answer |
| `ImportCache.Provider.WriteTarget` | src/conv_leia/leia_conv_d3d11.cpp:764-833 | a write has the specified effect and answer |
| `ImportCache.Provider.FinishConvert` | src/conv_leia/leia_conv_d3d11.cpp:835-860 | a finish has the specified effect and answer |
| `ImportCache.Provider.Clear` | src/conv_leia/leia_conv_d3d11.cpp:674-690 | a clear forgets the queue and both caches |
| `LiftDepth.NearestIsLeast` | src/drv_leia/leia_lift_depth.c:170-175 | the loop's minimum is the least of the nominal distance and the eyes' distances |
| `LiftDepth.EveryEyeIsInFront` | src/drv_leia/leia_lift_depth.c:128-217 | a camera is built exactly for a usable rectangle; then, whatever the eyes and knobs are, NaN and infinities included, 0 <= C <= 0.9 z for every eye and the nominal camera, C strictly in front of none, D >= 1 mm, 0 <= zero_h <= 1, and the plane wanted is shown exactly when it needs no limiting, else a nearer one |
| `LiftDepth.Limited` | src/drv_leia/leia_lift_depth.c:205-216 | limiting moves the convergence plane exactly when the wanted one is past the limit |
| `LiftDepth.RigEyesAreReproduced` | src/drv_leia/leia_lift_depth.c:145-160 | an application's rig is reproduced exactly |
| `LiftExact.EyeIs` | src/drv_leia/leia_lift_depth.c:145-157 | each eye, number by number: scaled by the gains unless a rig's, centred where not finite, at the nominal distance where it has none |
| `LiftExact.DefaultPairIs` | src/drv_leia/leia_lift_depth.c:158-166 | without eyes, one half a baseline left and one half a baseline right |
| `LiftExact.WantedIs` | src/drv_leia/leia_lift_depth.c:173-183 | the h wanted on the screen: the convergence, else the automatic one, else one half |
| `LiftExact.ReliefThicknessIs` | src/drv_leia/leia_lift_depth.c:184-201 | a relief in metres is scaled by the strength and at least a millimetre |
| `LiftExact.MetricThicknessIs` | src/drv_leia/leia_lift_depth.c:184-201 | a metric one is N / h0 scaled by the strength, at most the cap and at least a millimetre |
| `LiftExact.CameraIs` | src/drv_leia/leia_lift_depth.c:203-216 | the convergence depth is the lesser of (1 - h0) D and nine tenths of the nearest distance, and zero_h is what that plane has |
| `LiftDepth.ReliefMatchesTheRenderer` | src/drv_leia/leia_lift_depth.c:35-71 | under the relief map the depth of h is presented at C - (1 - h) D, for both unit kinds |
| `LiftDepth.MetricRoundTrip` | src/drv_leia/leia_lift_depth.c:35-80 | depth and h are each other's inverse in metric units |
| `LiftDepth.TexelsLandWhereRendered` | src/drv_leia/leia_lift_depth.c:35-126 | a texel decoded by the metadata and mapped by the relief lands where the renderer presents it, for relative and metric maps |
| `LiftDepth.ConvergenceIsOnTheScreen` | src/drv_leia/leia_lift_depth.c:35-126 | the convergence depth reported for a camera is presented at z = 0, only zero_h is there, and it is reported unknown exactly for zero_h = 0 |
| `LiftExact.SamplesAre` | src/drv_leia/leia_lift_depth.c:82-105 | units, encoding, scale and range of the metadata |
| `LiftExact.IntrinsicsAreNominal` | src/drv_leia/leia_lift_depth.c:107-122 | without intrinsics they are the nominal pinhole's, scaled per axis, the principal point half way |
| `LiftExact.ReliefIff` | src/drv_leia/leia_lift_depth.c:50-71 | the relief map exists exactly for a usable thickness and, in metric units, a usable scale |
| `LiftDepth.MetricReliefIsTheTangent` | src/drv_leia/leia_lift_depth.c:177-216 | the uncapped, unlimited metric relief at strength 1 differs from the metric scene by N (h - h0)^2 / (h h0): it touches it at the screen and never lies behind it |
| `LiftDepth.MapEyes` | src/drv_leia/leia_lift_depth.c:145-169 | the eye loop writes exactly the mapped eyes and nothing behind them |
| `LiftDepth.FindNearest` | src/drv_leia/leia_lift_depth.c:170-175 | the loop computes the specified minimum |
| `LiftDepth.ReliefThickness` | src/drv_leia/leia_lift_depth.c:177-203 | the reassigned D is the specified thickness |
| `LiftDepth.OaBuild` | src/drv_leia/leia_lift_depth.c:128-217 | leia_lift_oa_build writes exactly the specified camera, and nothing for an unusable rectangle |
| `Viewpoint.MapIsBounded` | src/drv_leia/leia_lift_viewpoint.c:22-72 | whatever comes in, NaN and infinities included, every axis of the mapped view stays within the limit that the policy and the gains give it, or within the default one, and an axis the runtime masked is exactly 0 |
| `Viewpoint.LimitIsNotNegative` | src/drv_leia/leia_lift_viewpoint.c:46-57 | the limits are not negative |
| `Viewpoint.LegacyViewIsBounded` | src/drv_leia/leia_lift_viewpoint.c:32-42 | without a policy x stays within 3 and y and z are 0 |
| `Viewpoint.ClampedIff` | src/drv_leia/leia_lift_viewpoint.c:48-57 | an eye is clamped exactly when it stands further out than the midpoint limit and half the pair's separation together |
| `Viewpoint.PairSurvives` | src/drv_leia/leia_lift_viewpoint.c:44-57 | a pair whose midpoint the runtime let through keeps its separation, scaled by the gain |
| `Viewpoint.OrderAndMirror` | src/drv_leia/leia_lift_viewpoint.c:57-61 | eyes keep their order, come no further apart than the gain says, and mirrored eyes map to mirrored views |
| `Viewpoint.OnlyTheReferenceIsNeutral` | src/drv_leia/leia_lift_viewpoint.c:63-72 | the depth offset is 0 exactly at the reference distance |
| `ViewExact.LegacyIs` | src/drv_leia/leia_lift_viewpoint.c:32-42 | without a policy: x alone, in units of 63 mm under the view gain, held within 3 |
| `ViewExact.PolicyIs` | src/drv_leia/leia_lift_viewpoint.c:44-57 | under one: x held within the gain's share of the midpoint limit and half the pair |
| `ViewExact.PolicyHeightIs` | src/drv_leia/leia_lift_viewpoint.c:59-61 | y under both gains, within the limit scaled likewise, exactly when the axis mode lets it through |
| `ViewExact.PolicyDepthIs` | src/drv_leia/leia_lift_viewpoint.c:63-72 | z, the fractional change of the distance under its gain, held within 1, exactly when that lets it through |
| `TraceSpans.ReopensIff` | tools/predict_trace_score.py:270-280 | for sorted events, a loss reopens an open span exactly when the list holds two losses at different times with no find between them and an event of another kind right before the second |
| `TraceSpans.SpansAreExactIff` | tools/predict_trace_score.py:258-290 | for sorted events, every instant that is no event time is in a lost span exactly when the latest earlier found or lost event is a loss, if and only if the list holds no two such losses |
| `TraceSpans.FoundLostIsExact` | tools/predict_trace_score.py:258-290 | streams of found and lost events only are always exact |
| `TraceSpans.AnotherEventResetsTheState` | tools/predict_trace_score.py:270-280 | with another kind of event the property fails: a concrete stream |
| `TraceSpans.ScanIsOk` | tools/predict_trace_score.py:258-283 | spans end before the open one starts, and one is open exactly after a loss |
| `TraceSpans.LostSpans` | tools/predict_trace_score.py:258-283 | the loop computes exactly those spans |
| `TraceSpans.InAnySpan` | tools/predict_trace_score.py:286-290 | the search loop answers membership in some span, ends included |
| `TraceSpans.IsLostAt` | tools/predict_trace_score.py:258-290 | both together answer whether the latest earlier event of a found/lost stream is a loss |
| `TraceScore.BracketIsTheInterval` | tools/predict_trace_score.py:293-308 | from a hint at or before the instant the answer is the one interval that holds it |
| `TraceScore.HintIsExactIff` | tools/predict_trace_score.py:293-308 | for sorted rows a hinted search equals one from 0 exactly when the hinted row is not past the instant or the first row is |
| `TraceScore.HintedRunIsExact` | tools/predict_trace_score.py:480-507 | for rows in order and weaves in order the carried hint changes no verdict of the run |
| `TraceScore.BracketIsPositive` | tools/predict_trace_score.py:311-319 | a bracket's interval is positive, so interpolation never fails after one |
| `TraceScore.InterpolationStaysBetween` | tools/predict_trace_score.py:311-319 | interpolated coordinates stay between the two rows' and start at the first's |
| `TraceExact.ErrorIsAgainstTheMotion` | tools/predict_trace_score.py:311-319 | for the uniform motion that joins the bracketing rows, and there always is one, a sample's errors are the predictions minus where that motion has the eyes at the scanout; the midpoint's is half way between, its magnitude the root of its squares |
| `TraceExact.RowsAreJoined` | tools/predict_trace_score.py:311-319 | any two rows in order are joined by one |
| `TraceExact.SpeedIsTheMotions` | tools/predict_trace_score.py:322-336 | the speed is that of the midpoint in this motion, in millimetres a second |
| `TraceExact.VerdictIff` | tools/predict_trace_score.py:480-514 | each of the five reasons to drop a weave, and keeping it, exactly by the rows, the spans, the tolerance and the weave |
| `TraceExact.SampleIsCounted` | tools/predict_trace_score.py:516-545 | where one more sample is counted, by the numbers of the bins' edges |
| `TraceScore.MidpointIgnoresTheSwap` | tools/predict_trace_score.py:516-527 | the midpoint error does not see left and right swapped |
| `TraceScore.EveryWeaveIsCounted` | tools/predict_trace_score.py:480-514 | kept plus the five drop counters are the weaves |
| `TraceScore.BinIsUnique` | tools/predict_trace_score.py:91-95 | ascending edges put a value in exactly one bin if it reaches the lowest edge, else in none |
| `TraceScore.BinsPartition` | tools/predict_trace_score.py:536-545 | bins that every sample falls in together hold exactly the samples' magnitudes |
| `TraceScore.HorizonsPartition` | tools/predict_trace_score.py:536-540 | the horizon bins partition the kept magnitudes, for positive pushes |
| `TraceScore.SpeedsPartition` | tools/predict_trace_score.py:531-535 | so do the speed bins of edges as main prepares them |
| `TraceScore.CellsPartition` | tools/predict_trace_score.py:541-545 | each horizon bin is partitioned by its own joint cells |
| `TraceScore.HorizonBinIff` | tools/predict_trace_score.py:536-540 | a kept weave is in a horizon bin exactly when its push is positive |
| `TraceScore.EyesAreSplit` | tools/predict_trace_score.py:523-529 | the two swap populations are all the kept |
| `TraceScore.Bracket` | tools/predict_trace_score.py:293-308 | the scan loop computes the specified bracket |
| `TraceScore.BinIndex` | tools/predict_trace_score.py:91-95 | the loop answers the specified bin |
| `TraceScore.AddToBin` | tools/predict_trace_score.py:531-540 | the loop appends to the one bin that holds the value |
| `TraceScore.JudgeOne` | tools/predict_trace_score.py:481-508 | one weave is judged as specified, in the order of the five reasons |
| `TraceScore.ScoreTrace` | tools/predict_trace_score.py:428-552 | the scoring loop's counters, bins and cells are those of the verdicts |
| `TraceScore.ScoreAll` | tools/predict_trace_score.py:428-552 | so every weave is counted once and the bins hold exactly the kept magnitudes |
| `TraceStats.MeanSquareSplits` | tools/predict_trace_score.py:344-351 | the mean square is the squared mean plus the population variance |
| `TraceStats.RmsSplits` | tools/predict_trace_score.py:344-351 | rms^2 = mean^2 + sd^2, rms >= |mean|, with equality exactly when nothing deviates |
| `TraceStats.CauchySchwarz` | tools/predict_trace_score.py:354-365 | sxy^2 <= sxx syy |
| `TraceStats.PearsonIsBounded` | tools/predict_trace_score.py:354-365 | a correlation is between -1 and 1, and there is one exactly for three or more pairs that vary in both coordinates |
| `TraceStats.PearsonOfLinear` | tools/predict_trace_score.py:354-365 | a series and its stretched and shifted copy correlate at 1 or -1, by the sign of the stretch |
| `Platform.ReadyIff` | src/drv_leia/leia_platform_state.c:121-152 | ready means exactly installed, bound, running and a panel matched, or identified before any match; the hint is empty exactly then |
| `Platform.StatusIff` | src/drv_leia/leia_platform_state.c:121-152 | each other state and each hint exactly by the first thing that stands in the way |
| `Platform.RefreshProbesIff` | src/drv_leia/leia_platform_state.c:195-218 | a refresh runs the probe exactly on the first call, on a changed topology, or when the last one is as old as the limit; else the last match stands |
| `Platform.RefreshIsFresh` | src/drv_leia/leia_platform_state.c:195-218 | so after a refresh the match is of this topology, and of this instant or younger than the limit |
| `Platform.ReusedReadyIff` | src/drv_leia/leia_platform_state.c:208-215 | a refresh without a probe answers for the last match with the two signals read now |
| `Platform.EvaluateKeeps` | src/drv_leia/leia_platform_state.c:180-193 | an evaluation leaves the probe's panel matched and keeps the state coherent |
| `Platform.ReuseKeeps` | src/drv_leia/leia_platform_state.c:208-215 | a refresh without a probe leaves panel and geometry as they were |
| `Platform.RunIsCoherent` | src/drv_leia/leia_platform_state.c:96-218 | over any run of evaluations, refreshes and geometry queries: once a panel was matched ready means one is, the hint is empty exactly when ready or not yet known, the panel is the last probe's, and every stamp of the current tenure, cached or in flight, names the panel matched now |
| `Platform.ReadyAfterAHitIsAMatch` | src/drv_leia/leia_platform_state.c:96-218 | from the start, once some probe matched, ready means the current one does |
| `Platform.GeometryStep` | src/drv_leia/leia_platform_state.c:100-119 | after one event geometry is cached exactly when this event answered a query, or it was cached before and no matched panel was lost or replaced |
| `Platform.ResolvesIff` | src/drv_leia/leia_sr_ready.cpp:487-512 | a thread is in a resolve exactly from an ask that finds nothing cached and no gate shut to its answer or its giving up |
| `Platform.GeometryIsCachedIff` | src/drv_leia/leia_platform_state.c:96-218 | over every run geometry is cached at the end exactly when some answered query was followed by no loss and no replacement of a matched panel |
| `Platform.TenureEndsIff` | src/drv_leia/leia_platform_state.c:100-119 | over every run the tenure is the one it began with exactly when the matched identity never changed |
| `Platform.CachedTenure` | src/drv_leia/leia_platform_state.c:100-119 | while geometry stays cached and no query answers, the matched identity changes only by a first match |
| `Platform.CachedGeometryIsCurrentIff` | src/drv_leia/leia_sr_ready.cpp:487-512 | geometry whose query began, ran beside any other events and answered is the current tenure's exactly when no loss, first match or replacement fell between the query's start and its answer and no panel was first matched since; and it is of the panel matched now exactly when that is the one matched when the query began |
| `Platform.CurrentGeometryIsThePanels` | src/drv_leia/leia_sr_ready.cpp:161-179 | geometry of the current tenure is that of the panel matched now, over every run |
| `Platform.ReplacedDuringTheQuery` | src/drv_leia/leia_sr_ready.cpp:487-512 | a concrete run that ends ready, with panel B matched and geometry of panel A cached: B replaced A while the query ran |
| `Platform.Monitor.TrackPanel` | src/drv_leia/leia_platform_state.c:100-119 | the panel fields and the geometry change as specified |
| `Platform.Monitor.EvaluateLocked` | src/drv_leia/leia_platform_state.c:96-153 | the ladder answers as specified |
| `Platform.Monitor.EvaluateProbe` | src/drv_leia/leia_platform_state.c:180-193 | an evaluation has the specified effect |
| `Platform.Monitor.RefreshState` | src/drv_leia/leia_platform_state.c:195-218 | a refresh has the specified effect |
| `Platform.Monitor.AskGeometry` | src/drv_leia/leia_sr_ready.cpp:487-505 | asking for geometry answers from the cache, is turned away by a gate, or waits |
| `Platform.Monitor.StartQuery` | src/drv_leia/leia_sr_ready.cpp:505-509 | a query starts on the panel matched then |
| `Platform.Monitor.PublishGeometry` | src/drv_leia/leia_sr_ready.cpp:161-179 | its answer becomes the cached geometry whatever happened meanwhile |
| `Platform.Monitor.MatchedPanel` | src/drv_leia/leia_platform_state.c:251-271 | the matched panel is that of the last probe |
| `ConvPolicy.ScaleIsLargest` | src/conv_leia/leia_conv_policy.c:147-157 | the per-view scale is the largest that keeps the views side by side and the height within the limit |
| `ConvPolicy.ViewsFitIff` | src/conv_leia/leia_conv_policy.c:135-163 | the height always fits and no view outgrows the input; the width fits exactly when the limit leaves a pixel per view |
| `ConvPolicy.FittingViewsAreKept` | src/conv_leia/leia_conv_policy.c:135-163 | what fits already is kept |
| `ConvPolicy.ViewsExtentIs` | src/conv_leia/leia_conv_policy.c:135-163 | both sides are scaled by the one largest scale that fits |
| `ConvPolicy.ScaledIs` | src/conv_leia/leia_conv_policy.c:135-163 | and rounded down, never to nothing |
| `ConvPolicy.DepthExtentFits` | src/conv_leia/leia_conv_policy.c:165-186 | a limited depth map's longer edge is the limit and its shorter one stays the shorter; else the input's extent is kept |
| `ConvPolicy.DepthExtentIsNearest` | src/conv_leia/leia_conv_policy.c:165-186 | its sides are rounded to the nearest |
| `ConvPolicy.ContainsCi` | src/conv_leia/leia_conv_policy.c:93-112 | the substring search answers whether the needle stands anywhere, whatever the case |
| `ConvPolicy.LicenceClass` | src/conv_leia/leia_conv_policy.c:114-133 | research-only exactly when a restricting word is there, commercial exactly when none is and "commercial" is |
| `ConvPolicy.NonCommercialIsRestricted` | src/conv_leia/leia_conv_policy.c:121-131 | what says "non-commercial" also says "commercial" and is still research-only |

## Left out

- Object creation, barriers, descriptor heaps, shader compilation and resource formats of D3D11, D3D12, Vulkan and WGC: only who owns a handle, what the GPU still uses, and in which order work completes are modelled.
- SR SDK, NeurD, installer, registry, SCM and EDID enumeration calls: their answers are inputs.
- Logging, environment knobs, timing instrumentation, locks and lock-free reads: every call of a model runs to its end before the next, except a geometry query, whose start and answer are events of their own.
- Float rounding, float range and texture-filter precision: finite floats are reals and texel reads exact; NaN and infinities are modelled where the lift code branches on them.
- 64-bit clock and counter wrap-around, except where a difference is taken modulo 2^64 in the watch and the platform refresh.
- Device removal as the value a lost fence completes to.
- ZoneD3D11.RunIsSafe: for runs without a publish that maps a staging texture that is gone, as what Map does with none is not specified; GoneIff and SmallerMaskReturns say when that comes up.
- AuthWatch.RefeedAsks: a list of nine or more enters the watch's own contract only; the one caller hands it at most eight (`src/drv_leia/leia_sr_v2_common.cpp:1028-1031`).
- ImportExpiry.RunIsSound: for images with an import key; a keyless import lives for one call. A second keyed-mutex acquire of one target within a convert enters only as an acquire that fails.
- ClaimOrder.AnyOrderNeedsNoContest: one direction only where one panel has monitors compared by origin and others that are not; MixedPanelsMatter shows that its condition does not suffice there.
- ImportConvert.StreamConvert: what lies between the import and the writes, the lift and the parameters, is whether it succeeds; the outputs and the stream's own record are not modelled.
- ImportExpiry.LateFinishDangles: the calls of the provider, not of the plug-in, whose converts finish within four calls (ImportConvert.SessionsDangleNothing).
- ImportExpiry.QueuedReleaseDanglesIff: no clear after the release is queued, which forgets queued releases by design (ImportCache.ForgottenIff).
- The import cache's scratch render targets, input copy and staging texture, and the pixels they carry.
- Preview pixels: a publication is identified by the frame, crop and reduction it was made from.
- `leia_win_sr_rebind_display_id` and the EDID notes, the claims' struct-size and stride walking, and the truncation of serials by their buffers.
- The Vulkan compositing resources other than the strip framebuffers.
- The trace reader, the median tracker period, the start-up transient dropped from the reference rows, per-axis and per-eye error lists, and the printed reports of the scorer: rows, tolerance and events are inputs.
- Viewpoint.MapIsBounded: gains and policy fields are finite; only the viewpoint itself may be NaN or infinite.
- LiftDepth.OaBuild: eyes are triples, not a flat array of floats.
- The readiness tables, depth kinds and convergence mode of the conversion policy, `leia_device.c`, the EDID table and the CNSDK glue: pure case analysis or data.
- Geometry itself: a query's answer is reduced to the panel matched when it started; the copy kept for a panel that comes back, the head device's update in place and the wait budget are not modelled. Two threads that query at once are.
