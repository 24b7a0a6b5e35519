# Verified models of the RDK browser services

A Dafny model of the parts of the repository that keep state over time or turn data into another form and
back, with proofs of what those parts promise. The project stands by itself; `dafny verify dfyconfig.toml`
checks all of it.

Code that updates objects is modelled by classes whose fields are the source's fields. Each method is proved
to do what a step function on values does, and the theorems are about runs of that step function. Where
several parties act at the same time (the main loop and the page, the calling threads and the receiving
thread) a run is any sequence of their steps, so the theorems hold for every interleaving.

| module | what it models |
|---|---|
| `PageLifecycle` | the six page states, the route a request takes, the calls each step makes on the page |
| `PageLifecycleDelegate` | the logical state with the memory-saving timer |
| `PageLifecycleV1` | the lifecycle that acts on the view backend at once |
| `PageLifecycleV2` | the lifecycle that queues its operations: queue, wake-ups, idle callbacks |
| `PageLifecycleV2Refinement` | the queued lifecycle against the page, against the first version, and its progress |
| `PageLifecycleV2Failures` | when exactly a page is right after failed operations |
| `PageLifecycleV2Progress` | what the queued lifecycle does for a page that cooperates, and that nothing asked for is lost |
| `PageLifecycleV2Queue` | the queued lifecycle as an object updated in place |
| `BrowserController` | application lifecycle and focus events turned into page states |
| `BrowserControllerV2` | the controller on top of the queued lifecycle, in any interleaving |
| `CookieCrc` | the table-driven CRC-16 against the bit-by-bit one, and the errors it detects |
| `CookieText`, `CookieFrame`, `CookieJar` | the cookie lines, the length frame around the compressed text, the packed jar |
| `JsonRpc` | responses matched to requests over a map of promises shared by threads |
| `JsonRpcHistory` | how each request returns and with which answer, from the events of the run alone |
| `Watchdog` | unresponsive replies of the web process counted up to a signal and a deactivation |
| `WatchdogHistory` | when the watchdog acts, in seconds and from the events of the trace alone |
| `SuspendResume` | suspend and resume requests, posted work and client notifications |
| `JavascriptEscape` | escaping for JavaScript string literals by five passes |
| `Base64` | the streaming Base64 encoder |
| `Settings` | the `key=value` settings file |
| `Blink` | the front panel's blink list |
| `TextLines` | splitting a text at its newlines, shared by cookies and settings |
| `Basics` | optional values and bytes as numbers, shared by several modules |

## Where the code does less than it seems to promise

Each of these is proved with its exact condition.

- `CookieFrame.FrameRoundTrip`: the length field has four bytes and is read back through a signed 32-bit
  number. A text comes back as it was exactly when it is shorter than 2^31 bytes, or its size is a power of
  two of at least 2^32. Any other size comes back with zeros appended, or fails.
- `CookieText.ParseSerialize` and `CookieText.SerializeIsFaithful`: a cookie with newlines comes back as its
  non-empty lines, and a list survives exactly when no cookie is empty or has a newline.
- `CookieJar.CorruptDataIsEmptyJar`: data of at most four bytes, and data that cannot be decompressed, passes
  for an empty jar exactly when the checksum that comes with it is zero, unless there are more than four
  bytes and the header has its top bit set: that raises a length error.
- `Watchdog.RecoveryIsHarmlessExactly`: a reply that reports recovery triggers nothing exactly when the hang
  threshold is at least the check interval; with a shorter threshold it sends the signal.
- `Watchdog.CounterFollowsPolicy`: the watchdog answers every event of a trace with what is due exactly when
  no reply misfires. A reply misfires when it comes so late in an episode that the count no longer fits the
  32-bit counter, and the wrapped counter is at most the limit while suspended, or equal to the limit or
  twice the limit otherwise. `Watchdog.HangSignalsAgain`: in a hang that lasts long enough the signal is
  sent again.
- `JsonRpc.SecondFulfilmentExactly`: a promise is fulfilled twice exactly when a second response arrives under
  an id that is still waited for; the library then throws on the receiving thread.
  `JsonRpc.DoubleFulfilmentHappens` is a run in which that happens.
- `Settings.FileRoundTrip`: a settings file reads back as written exactly when no key or value has a newline
  and no value has an equals sign.
- `BrowserController.PageFollowsController` and `BrowserController.PageIsAsTold`: once termination was reported
  or requested, a later application state is remembered but the page stays terminated, so the two agree only
  if the last state is terminating.
- `PageLifecycleV2Failures.DrainedPageHeals`: after failed operations, once the queue is empty, the page is
  right in a flag exactly when the last write that took effect sets the same value as the last write.
  `PageLifecycleV2Failures.RefusedHideStaysVisible` is a run that ends with a visible, focused page whose
  logical state is Hidden.

## Model

| member | source | states |
|---|---|---|
| PageLifecycle.NextStateApproaches | BrowserLauncher/src/wpewebkit/wpewebkitview.cpp:57-130 | every step towards an accepted target is an edge of the documented diagram and brings the target exactly one step nearer |
| PageLifecycle.DistanceIsShortest | BrowserLauncher/src/wpewebkit/wpewebkitview.cpp:59-70 | no walk along the documented diagram is shorter than the distance |
| PageLifecycle.RouteIsShortestPath | BrowserLauncher/src/wpewebkit/wpewebkitview.cpp:1093-1097 | the loop of a request ends after one to three steps, all of them edges of the diagram, and no walk is shorter |
| PageLifecycle.RequestDrives | BrowserLauncher/src/wpewebkit/wpewebkitview.cpp:199-271 | the calls that a request makes turn the page flags of the old state into those of the new one, and a flag they leave alone has the same value in both |
| PageLifecycle.LastWriteWins | BrowserLauncher/src/wpewebkit/wpewebkitview.cpp:366-451 | whatever the page was, the last operation that writes a flag decides it |
| PageLifecycle.FirstRequestHides | BrowserLauncher/src/wpewebkit/wpewebkitview.cpp:240-251 | the first request blurs and hides a page of unknown visibility and focus |
| PageLifecycle.FirstRequestCalls | BrowserLauncher/src/wpewebkit/wpewebkitview.cpp:213-269 | the calls of the first request for each other target, in order |
| PageLifecycle.FirstRequestPage | BrowserLauncher/src/wpewebkit/wpewebkitview.cpp:213-269 | they turn a page of unknown visibility and focus into that of the target; only Passive keeps the focus as it was |
| PageLifecycle.RequestCallsMatter | BrowserLauncher/src/wpewebkit/wpewebkitview.cpp:199-271 | every call of a request changes a flag at its turn, and there are no more calls than steps |
| PageLifecycle.RequestLeadsToTarget | BrowserLauncher/src/wpewebkit/wpewebkitview.cpp:1071-1099 | a request leads to its target unless that is Initializing or the page is terminated |
| PageLifecycleDelegate.ChangeKeepsSaving | BrowserLauncher/src/wpewebkit/wpewebkitview.cpp:199-271 | a step along the diagram keeps the timer invariant: armed only out of sight or terminated, iteration equal to the events since enabling and below the limit, events of the stretch accounted for |
| PageLifecycleDelegate.RequestKeepsSaving | BrowserLauncher/src/wpewebkit/wpewebkitview.cpp:1064-1100 | a whole request keeps the timer invariant, also the first one out of Initializing, and ends in the requested state when it is accepted |
| PageLifecycleDelegate.TimerStaysBounded | BrowserLauncher/src/wpewebkit/wpewebkitview.cpp:225-364 | under every interleaving of requests and timeouts the timer invariant holds and a hidden or frozen stretch has had at most the limit of pressure events |
| PageLifecycleDelegate.StretchIsBounded | BrowserLauncher/src/wpewebkit/wpewebkitview.cpp:328-364 | from every reachable state, the events sent while the page stays out of sight, counted over the run itself, are at most the limit |
| PageLifecycleDelegate.HiddenPageIsSentAll | BrowserLauncher/src/wpewebkit/wpewebkitview.cpp:347-362 | while the page stays out of sight every firing below the limit sends an event, and the timer stops with the last one |
| PageLifecycleDelegate.TerminatedTimerStops | BrowserLauncher/src/wpewebkit/wpewebkitview.cpp:330-338 | after termination nothing is sent, and a firing stops the timer for the rest of the run |
| PageLifecycleDelegate.Delegate.EnableMemorySaving | BrowserLauncher/src/wpewebkit/wpewebkitview.cpp:278-299 | arms a stopped timer with a fresh count if the limit is not zero, and leaves a running one alone |
| PageLifecycleDelegate.Delegate.DisableMemorySaving | BrowserLauncher/src/wpewebkit/wpewebkitview.cpp:308-319 | stops the timer and changes nothing else |
| PageLifecycleDelegate.Delegate.OnMemorySavingTimerTimeout | BrowserLauncher/src/wpewebkit/wpewebkitview.cpp:328-364 | sends an event exactly when the page is hidden or frozen and arms the timer again exactly below the limit; otherwise stops and clears the count |
| PageLifecycleDelegate.Delegate.ChangeState | BrowserLauncher/src/wpewebkit/wpewebkitview.cpp:199-271 | the new logical state and timer, and the calls made on the page in order |
| PageLifecycleDelegate.Delegate.Advance | BrowserLauncher/src/wpewebkit/wpewebkitview.cpp:1093-1097 | one turn of the request loop comes nearer to the target and leaves the outcome of the request and its remaining calls unchanged |
| PageLifecycleDelegate.Delegate.SetState | BrowserLauncher/src/wpewebkit/wpewebkitview.cpp:1064-1100 | terminates, reports success exactly when the page is in the requested state afterwards, and makes exactly the calls along the route |
| PageLifecycleV1.BackendFollowsState | BrowserLauncher/src/wpewebkit/wpewebkitview.cpp:366-451 | in every run of requests the backend is visible exactly in Active and Passive, focused exactly in Active, suspended exactly in Frozen; no freeze finds the page visible; Terminated is absorbing |
| PageLifecycleV1.RequestInStep | BrowserLauncher/src/wpewebkit/wpewebkitview.cpp:1064-1100 | a request keeps the backend in step with the logical state, through every step of its route |
| PageLifecycleV1.CreatedInStep | BrowserLauncher/src/wpewebkit/wpewebkitview.cpp:973-982 | view creation leaves the backend in step |
| PageLifecycleV1.TerminatedStays | BrowserLauncher/src/wpewebkit/wpewebkitview.cpp:1084-1090 | no run of requests leaves Terminated |
| PageLifecycleV1.FreezeAlwaysHides | BrowserLauncher/src/wpewebkit/wpewebkitview.cpp:400-417 | freezing suspends and hides whatever page it finds, and warns exactly about one it had to hide |
| PageLifecycleV1.LifecycleV1.CreateView | BrowserLauncher/src/wpewebkit/wpewebkitview.cpp:973-985 | sets the backend flags, hides the page and ends in step |
| PageLifecycleV1.LifecycleV1.FreezePage | BrowserLauncher/src/wpewebkit/wpewebkitview.cpp:400-417 | hides a page that is still visible or focused, with a warning, and suspends it |
| PageLifecycleV1.LifecycleV1.PerformCall | BrowserLauncher/src/wpewebkit/wpewebkitview.cpp:376-451 | the effect of each call on the backend and on nothing else |
| PageLifecycleV1.LifecycleV1.SetState | BrowserLauncher/src/wpewebkit/wpewebkitview.cpp:1064-1100 | all calls of the request reach the backend in order, and a page that was in step is in step again |
| PageLifecycleV2.CallEffect | BrowserLauncher/src/wpewebkit/wpewebkitview.cpp:582-640 | a call from outside appends its operations or one callback, schedules the source, and touches neither the page nor what has finished |
| PageLifecycleV2.StepKeepsEngine | BrowserLauncher/src/wpewebkit/wpewebkitview.cpp:529-587 | every step, whatever the page answers and the callbacks call, keeps the queue, wake-up and callback invariants |
| PageLifecycleV2.CreatedEngine | BrowserLauncher/src/wpewebkit/wpewebkitview.cpp:982-985 | view creation queues blur and hide and registers the view-ready callback behind both |
| PageLifecycleV2.QueueIsFifo | BrowserLauncher/src/wpewebkit/wpewebkitview.cpp:529-587 | at most one operation is in flight and it is the front of the queue; what was enqueued is what finished followed by the queue; operations are started once each in that order |
| PageLifecycleV2.NoLostWakeup | BrowserLauncher/src/wpewebkit/wpewebkitview.cpp:529-580 | with nothing in flight the source is scheduled exactly when work waits; with an operation in flight only for work behind it |
| PageLifecycleV2.CallbacksWaitTheirTurn | BrowserLauncher/src/wpewebkit/wpewebkitview.cpp:548-563 | callbacks run in registration order, at most once, after everything enqueued before them has finished; the view is not reported ready before the first blur and hide have |
| PageLifecycleV2Refinement.StepKeepsPage | BrowserLauncher/src/wpewebkit/wpewebkitview.cpp:548-587 | every step, failures included, keeps each accounted-for flag on its way to what the logical state stands for |
| PageLifecycleV2Refinement.PendingReachesState | BrowserLauncher/src/wpewebkit/wpewebkitview.cpp:199-271 | in every reachable state without failures, the pending operations applied to the page as it is give the flags of the logical state, also after an operation took effect but before it reports |
| PageLifecycleV2Failures.StepKeepsHistories | BrowserLauncher/src/wpewebkit/wpewebkitview.cpp:548-587 | in every step the page is what the operations that took effect made of the initial one, and the logical state what all enqueued operations would have made of it |
| PageLifecycleV2Failures.DrainedPageHeals | BrowserLauncher/src/wpewebkit/wpewebkitview.cpp:565-579 | after every run that empties the queue, failures included, a flag agrees with the logical state exactly when the last write that took effect and the last write set the same value, so in particular when the last write reported success |
| PageLifecycleV2Failures.DrainedPageIsRightExactly | BrowserLauncher/src/wpewebkit/wpewebkitview.cpp:565-579 | when the page changes only with a report, the same with the last write that reported success |
| PageLifecycleV2Failures.RefusedHideStaysVisible | BrowserLauncher/src/wpewebkit/wpewebkitview.cpp:575-579 | a run in which blur and hide are refused ends with nothing queued, logical state Hidden, and a visible, focused page |
| PageLifecycleV2Refinement.DrainedAgreesWithV1 | BrowserLauncher/src/wpewebkit/wpewebkitview.cpp:366-640 | once the queue has drained successfully, state and page are those that the first version reaches with the same requests |
| PageLifecycleV2Refinement.QuietStepDecreases | BrowserLauncher/src/wpewebkit/wpewebkitview.cpp:548-580 | every dispatch and completion without new work decreases a measure, and the page changing leaves it as it is |
| PageLifecycleV2Refinement.QuietRunDrains | BrowserLauncher/src/wpewebkit/wpewebkitview.cpp:529-580 | without new work a run has no more dispatches and completions than the measure, however often the page changes in between, and where it can go no further the queue is empty, no callback waits and everything enqueued has finished |
| PageLifecycleV2Progress.AcceptedIsInFlight | BrowserLauncher/src/wpewebkit/wpewebkitview.cpp:565-579 | an accepted operation is in flight at the front of the queue, with nothing finished and the page untouched, until its report, which takes it off and on success gives the page its effect |
| PageLifecycleV2Progress.CooperativePageFollows | BrowserLauncher/src/wpewebkit/wpewebkitview.cpp:548-587 | with a page that accepts and carries out everything no operation of any run fails, and the run can be continued until the queue is empty, all callbacks have run, and the page is what the logical state stands for |
| PageLifecycleV2Progress.RunDid | BrowserLauncher/src/wpewebkit/wpewebkitview.cpp:582-640 | over every run, the operations enqueued are exactly those that all calls ask for, in order, calls of idle callbacks included, and every callback handed in is registered |
| PageLifecycleV2Queue.LifecycleV2.CreateView | BrowserLauncher/src/wpewebkit/wpewebkitview.cpp:982-985 | the object starts in the modelled initial state with its invariants |
| PageLifecycleV2Queue.LifecycleV2.ScheduleNextItemProcessing | BrowserLauncher/src/wpewebkit/wpewebkitview.cpp:529-546 | schedules at most one source, and only for work |
| PageLifecycleV2Queue.LifecycleV2.EnqueueAsyncChange | BrowserLauncher/src/wpewebkit/wpewebkitview.cpp:582-587 | appends the operation and schedules the source |
| PageLifecycleV2Queue.LifecycleV2.WhenIdle | BrowserLauncher/src/wpewebkit/wpewebkitview.cpp:636-640 | appends the callback and schedules the source |
| PageLifecycleV2Queue.LifecycleV2.SetState | BrowserLauncher/src/wpewebkit/wpewebkitview.cpp:1064-1100 | queues the calls of the request in order while the logical state runs ahead |
| PageLifecycleV2Queue.LifecycleV2.Make | BrowserLauncher/src/wpewebkit/wpewebkitview.cpp:1064-1120 | a call from outside does what the step says and keeps the invariants |
| PageLifecycleV2Queue.LifecycleV2.ProcessNextItem | BrowserLauncher/src/wpewebkit/wpewebkitview.cpp:548-580 | runs the batch of callbacks taken before any of them runs, or starts the front operation and drops it if it is not accepted |
| PageLifecycleV2Queue.LifecycleV2.FinishFront | BrowserLauncher/src/wpewebkit/wpewebkitview.cpp:570-572 | the front operation leaves the queue with its outcome and the next item is scheduled |
| PageLifecycleV2Queue.LifecycleV2.OnIdleSource | BrowserLauncher/src/wpewebkit/wpewebkitview.cpp:538-543 | a dispatch of the source is the step of the model and keeps queue, callback and page invariants |
| PageLifecycleV2Queue.LifecycleV2.OnCompleted | BrowserLauncher/src/wpewebkit/wpewebkitview.cpp:567-573 | a completion is the step of the model and keeps queue, callback and page invariants |
| BrowserController.ChangesKeepControl | BrowserLauncher/src/browsercontroller.cpp:212-219 | a list of changes keeps page and controller in line, and terminates the page exactly when one of them is terminating |
| BrowserController.PageFollowsController | BrowserLauncher/src/browsercontroller.cpp:188-235 | over every run of lifecycle, focus and close events, when exactly the page is terminated and when exactly it is the image of the remembered state and focus |
| BrowserController.ControllerRemembers | BrowserLauncher/src/browsercontroller.cpp:78-86 | the controller remembers the focus last reported and the application state last reported, closing counting as terminating |
| BrowserController.PageIsAsTold | BrowserLauncher/src/browsercontroller.cpp:192-235 | the page state is visible exactly while the application is active, focused exactly while it is also focused, frozen exactly while it is suspended or hibernated, hidden when paused, terminated when terminating |
| BrowserControllerV2.StepKeepsInStep | BrowserLauncher/src/browsercontroller.cpp:188-235 | every controller event, dispatch and completion keeps the logical state of the queued engine equal to the controller's page |
| BrowserControllerV2.DrainedPageFollowsController | BrowserLauncher/src/browsercontroller.cpp:188-235 | in every interleaving of application events with the engine's steps, a successfully drained page has the controller's page state, and is visible, focused and frozen exactly as the application state and focus last reported demand, unless none was reported or one was after the end |
| BrowserControllerV2.CooperativePageFollowsController | BrowserLauncher/src/browsercontroller.cpp:188-235 | with a cooperative page every such run can be continued by the engine alone until the page is as demanded |
| BrowserController.Controller.Close | BrowserLauncher/src/browsercontroller.cpp:78-86 | terminates the page once, keeping the invariant |
| BrowserController.Controller.OnLifecycleStateChanged | BrowserLauncher/src/browsercontroller.cpp:188-220 | applies every change in order, keeping the invariant |
| BrowserController.Controller.OnFocusedChanged | BrowserLauncher/src/browsercontroller.cpp:222-235 | moves between Active and Passive only while the application is active, keeping the invariant |
| CookieCrc.TableIsFourBitSteps | WebKitBrowser/CookieJar.cpp:165-170 | each table entry is four bit steps of its index in the reflected CRC |
| CookieCrc.NibbleIsFourBits | WebKitBrowser/CookieJar.cpp:178 | from any register, one lookup is four bit steps of the low nibble |
| CookieCrc.ByteIsEightBits | WebKitBrowser/CookieJar.cpp:177-180 | the two lookups of a byte are eight bit steps, least significant bit first |
| CookieCrc.Checksum | WebKitBrowser/CookieJar.cpp:163-183 | the table loop computes the 16-bit frame check sequence of section C.2 of RFC 1662 for every byte string |
| CookieCrc.CheckValue | WebKitBrowser/CookieJar.cpp:163-183 | the checksum of "123456789" is 0x906e, the check value of this CRC |
| CookieCrc.ShiftBitsInvertible | WebKitBrowser/CookieJar.cpp:178-180 | the same data never brings different registers together |
| CookieCrc.WindowIsInjective | WebKitBrowser/CookieJar.cpp:178-180 | from one register, sixteen bits or fewer of different data never lead to the same register |
| CookieCrc.BurstChangesChecksum | WebKitBrowser/CookieJar.cpp:163-183 | strings of equal length that differ only within sixteen consecutive bits, aligned or not, have different checksums |
| CookieCrc.TwoByteDamageDetected | WebKitBrowser/CookieJar.cpp:163-183 | strings of equal length that differ only within two adjacent bytes have different checksums |
| CookieText.SerializeCookies | WebKitBrowser/CookieJar.cpp:40-45 | every cookie in order, each followed by a newline |
| CookieText.Deserialize | WebKitBrowser/CookieJar.cpp:47-57 | appends the non-empty lines of the text in order, the last line with or without its newline |
| CookieText.ParseSerialize | WebKitBrowser/CookieJar.cpp:40-57 | for every cookie list, reading back gives the non-empty lines of its cookies |
| CookieText.ParseSerializeAndMore | WebKitBrowser/CookieJar.cpp:40-57 | the same with any text behind the serialized cookies |
| CookieText.ParseLine | WebKitBrowser/CookieJar.cpp:47-57 | a last line without its newline is a cookie too, unless it is empty |
| CookieText.SerializeIsFaithful | WebKitBrowser/CookieJar.cpp:40-57 | a list comes back unchanged exactly when no cookie is empty or has a newline |
| CookieFrame.Compress | WebKitBrowser/CookieJar.cpp:82-119 | whatever number of buffer retries, the result is the big-endian length followed by the compressed text, or four zeros for no text |
| CookieFrame.Uncompress | WebKitBrowser/CookieJar.cpp:121-160 | the retry loop ends with the text in the first doubled buffer that holds it, padded with zeros to the buffer's size; nothing for corrupt data |
| CookieFrame.HeaderRoundTrip | WebKitBrowser/CookieJar.cpp:103-106 | the four header bytes read back give the size modulo 2^32 |
| CookieFrame.HeaderIsBigEndian | WebKitBrowser/CookieJar.cpp:103-106 | the header has the most significant byte first |
| CookieFrame.BufferFits | WebKitBrowser/CookieJar.cpp:135-147 | doubling from the size in the header ends exactly at the size of the text exactly for recoverable sizes |
| CookieFrame.FrameRoundTrip | WebKitBrowser/CookieJar.cpp:82-160 | with a lossless compressor, unpacking a frame gives the text back exactly when its size is below 2^31 or a power of two from 2^32 on; sizes with the top bit of the header set fail, and other sizes fail or come back with zeros behind the text |
| CookieJar.UnpackPacked | WebKitBrowser/CookieJar.cpp:191-244 | with lossless libraries, unpacking a packed jar gives the non-empty lines of its cookies, for every recoverable size |
| CookieJar.JarRoundTrip | WebKitBrowser/CookieJar.cpp:191-244 | cookies without newlines come back in order but for empty ones, the empty jar included |
| CookieJar.DamageIsRefused | WebKitBrowser/CookieJar.cpp:231-236 | a text damaged within sixteen consecutive bits is refused |
| CookieJar.CorruptDataIsEmptyJar | WebKitBrowser/CookieJar.cpp:121-158 | what all data without readable content unpacks to: the length error for more than four bytes with the top header bit set, otherwise an empty jar exactly when the expected checksum is zero |
| CookieJar.UnpackSucceedsExactly | WebKitBrowser/CookieJar.cpp:214-244 | unpacking gives cookies exactly when the payload decrypts, the data has a text and the text has the given checksum; a failed decryption passes its code on |
| CookieJar.PackFailsExactly | WebKitBrowser/CookieJar.cpp:200-211 | packing fails exactly when encryption does, with its code |
| CookieJar.ChecksumIsReference | WebKitBrowser/CookieJar.cpp:182 | the checksum is the 16-bit one, widened |
| CookieJar.Jar.Pack | WebKitBrowser/CookieJar.cpp:191-212 | the checksum is that of the text before compression; a failed encryption passes its code on |
| CookieJar.Jar.Unpack | WebKitBrowser/CookieJar.cpp:259-272 | success, exactly when decryption, decompression and checksum are right, replaces the cookies and marks them stale; a failed decryption returns its code, and every failure leaves cookies and freshness as they were |
| CookieJar.Jar.SetCookies | WebKitBrowser/CookieJar.cpp:274-278 | replaces the cookies and marks them fresh |
| CookieJar.Jar.MarkAsStale | WebKitBrowser/CookieJar.h:38 | marks the cookies stale and keeps them |
| JsonRpc.StepKeepsInv | helpers/WebSockets/CommunicationInterface/JsonRpcInterface.h:72-225 | every atomic step of any caller or of the receiving thread keeps the invariant over map, promises, callers and history |
| JsonRpc.KeysAreWaitingCallers | helpers/WebSockets/CommunicationInterface/JsonRpcInterface.h:168-186 | in every reachable state the keys of the map are exactly the ids of callers between insertion and removal, and those ids are distinct |
| JsonRpc.ReturnedCallersCleanedUp | helpers/WebSockets/CommunicationInterface/JsonRpcInterface.h:72-166 | on every exit path a caller that inserted an entry has erased it exactly once, and only a rejected one inserted none |
| JsonRpc.RemoveTakesOwnEntry | helpers/WebSockets/CommunicationInterface/JsonRpcInterface.h:181-186 | removal takes the caller's own entry and leaves every other |
| JsonRpc.StrayTrafficChangesNothing | helpers/WebSockets/CommunicationInterface/JsonRpcInterface.h:72-225 | a duplicate request, whether rejected at the check or at the insertion, and a response nobody waits for leave no trace: everybody else can go on in exactly the same ways, to the same shared state and callers |
| JsonRpc.AnswersAreOwn | helpers/WebSockets/CommunicationInterface/JsonRpcInterface.h:148-261 | an answer is the first that arrived under the caller's id after its promise was made, and success is reported exactly for a valid, successful result with that id |
| JsonRpcHistory.ResultFollowsEvents | helpers/WebSockets/CommunicationInterface/JsonRpcInterface.h:72-166 | a request returns rejected exactly when it never came to sending, as not sent exactly when sending failed, unanswered exactly when the wait timed out, and answered exactly when its promise became ready |
| JsonRpcHistory.ReadyCallerGetsFirstReply | helpers/WebSockets/CommunicationInterface/JsonRpcInterface.h:148-166 | a caller whose promise became ready returns the first response under its id after its insertion, with the success that this response reports |
| JsonRpcHistory.ReadyExactlyWhenAnswered | helpers/WebSockets/CommunicationInterface/JsonRpcInterface.h:151-155 | a waiting caller can be handed its answer exactly when a response under its id has arrived since its insertion |
| JsonRpcHistory.RejectedExactly | helpers/WebSockets/CommunicationInterface/JsonRpcInterface.h:75-87 | a request is turned away, at the check or at the insertion, exactly when another caller holds the entry of its id; otherwise it goes on with a fresh promise |
| JsonRpcHistory.CallerKeepsId | helpers/WebSockets/CommunicationInterface/JsonRpcInterface.h:73 | the id of a caller is the one it began with |
| JsonRpcHistory.AnsweredRequestReturns | helpers/WebSockets/CommunicationInterface/JsonRpcInterface.h:72-166 | a request answered in time is a run: it returns its answer and leaves the map empty |
| JsonRpc.SecondFulfilmentExactly | helpers/WebSockets/CommunicationInterface/JsonRpcInterface.h:214-225 | a response meets an already fulfilled promise, and is recorded as doing so, exactly when its id is waited for and was answered since the entry was made |
| JsonRpc.DoubleFulfilmentHappens | helpers/WebSockets/CommunicationInterface/JsonRpcInterface.h:214-225 | a reachable run in which two responses under a waiting id fulfil its promise twice |
| JsonRpc.NoDoubleFulfilment | helpers/WebSockets/CommunicationInterface/JsonRpcInterface.h:214-225 | if every id is answered at most once, no promise is ever fulfilled twice |
| JsonRpc.CallersCanMove | helpers/WebSockets/CommunicationInterface/JsonRpcInterface.h:72-166 | a caller that has not returned can always move, whatever the others do |
| JsonRpc.MovesApproachReturn | helpers/WebSockets/CommunicationInterface/JsonRpcInterface.h:72-166 | each of its moves brings it nearer to returning, and nobody else's step changes it |
| JsonRpc.JsonRpcInterface.IsRequestProcessingOngoing | helpers/WebSockets/CommunicationInterface/JsonRpcInterface.h:188-193 | whether the id has an entry |
| JsonRpc.JsonRpcInterface.CreateFutureResponse | helpers/WebSockets/CommunicationInterface/JsonRpcInterface.h:168-179 | inserts a fresh promise, or none and no change for an id that is there |
| JsonRpc.JsonRpcInterface.RemovePromise | helpers/WebSockets/CommunicationInterface/JsonRpcInterface.h:181-186 | erases the id's entry only |
| JsonRpc.JsonRpcInterface.HandleResponse | helpers/WebSockets/CommunicationInterface/JsonRpcInterface.h:214-225 | drops a response nobody waits for, refuses a second one, stores the first |
| JsonRpc.JsonRpcInterface.SendRequest | helpers/WebSockets/CommunicationInterface/JsonRpcInterface.h:72-103 | whatever other threads insert, erase and deliver while it waits, the map has exactly what they left in it on return, and success means the request was sent and the first response under its id is a successful result with that id |
| JsonRpc.JsonRpcInterface.GetAsyncResponse | helpers/WebSockets/CommunicationInterface/JsonRpcInterface.h:148-166 | erases the entry whether or not the answer came in time, and succeeds exactly for a successful first answer |
| Watchdog.CountTracks | WebKitBrowser/WebKitImplementation.cpp:3332-3396 | the action taken for a counted reply is the one due in the episode exactly when the reply does not misfire, and then the counter stays in line |
| Watchdog.CounterFollowsPolicy | WebKitBrowser/WebKitImplementation.cpp:3304-3411 | on every trace, however long, all actions are the ones due in terms of episodes if and only if no reply misfires |
| Watchdog.LimitInSeconds | WebKitBrowser/WebKitImplementation.cpp:3338-3339 | the number of tolerated replies is how many check intervals the threshold has room for |
| Watchdog.SignalThenDeactivate | WebKitBrowser/WebKitImplementation.cpp:3371-3396 | up to the first misfire, an episode has at most one signal, deactivation is asked for only at a later reply of the same episode, and a report of recovery triggers neither |
| WatchdogHistory.UnsuspendedEpisode | WebKitBrowser/WebKitImplementation.cpp:3338-3395 | on every trace, the j-th unresponsive reply without suspension, j counted modulo 2^32, is answered with the signal exactly when j * interval <= threshold < (j + 1) * interval, with expiry exactly when j is twice such a number, and otherwise with nothing |
| WatchdogHistory.SuspendedReply | WebKitBrowser/WebKitImplementation.cpp:3371-3385 | up to the first misfire, a reply while suspended signals when there was no signal since the process last responded and asks for deactivation when there was one |
| WatchdogHistory.ExpiryAfterSignal | WebKitBrowser/WebKitImplementation.cpp:3387-3395 | up to the first misfire, after a signal, early or not, expiry comes with exactly the unresponsive reply as many replies later as the threshold has check intervals |
| WatchdogHistory.NothingWithoutSettings | WebKitBrowser/WebKitImplementation.cpp:3334-3335 | without a threshold or an interval nothing is ever done |
| Watchdog.HangSignalsAgain | WebKitBrowser/WebKitImplementation.cpp:3477 | in an endless hang the signal is sent with exactly the replies whose number modulo 2^32 is the number of intervals in the threshold |
| Watchdog.RecoveryIsHarmlessExactly | WebKitBrowser/WebKitImplementation.cpp:3338-3391 | a recovery reply triggers nothing exactly when the threshold is at least the interval |
| Watchdog.WebProcessWatchdog.CheckWebProcess | WebKitBrowser/WebKitImplementation.cpp:3304-3330 | asks the process unless a check is running |
| Watchdog.WebProcessWatchdog.DidReceiveWebProcessResponsivenessReply | WebKitBrowser/WebKitImplementation.cpp:3332-3396 | the new counter and the action, as the step of the model |
| Watchdog.WebProcessWatchdog.IsWebProcessResponsiveCallback | WebKitBrowser/WebKitImplementation.cpp:3399-3411 | a report that the process responds clears the counter |
| SuspendResume.StepKeepsInv | WebKitBrowser/WebKitImplementation.cpp:1670-1703 | every step keeps posted work in order and notifications in line with the state |
| SuspendResume.NotificationsAlternate | WebKitBrowser/WebKitImplementation.cpp:2072-2088 | in every interleaving the notified states strictly alternate from start-up on, and the last one is the present state |
| SuspendResume.LastPostedCommandWins | WebKitBrowser/WebKitImplementation.cpp:2502-2558 | posted commands are dispatched once each in order, and once all have been the state is that of the last one |
| SuspendResume.DrainedStateIsLastCommand | WebKitBrowser/WebKitImplementation.cpp:2502-2558 | once all posted work is dispatched, the browser is suspended if the last posted command was suspend and resumed if it was resume, and no other command is ever posted |
| SuspendResume.RequestDoes | WebKitBrowser/WebKitImplementation.cpp:1670-1703 | what every request does in every state: which commands are accepted, and whether they act at once, are posted, or change nothing |
| SuspendResume.CommandTakesEffect | WebKitBrowser/WebKitImplementation.cpp:2502-2558 | on a running browser an accepted command, once dispatched, reaches its state and tells the clients |
| SuspendResume.DispatchReachesState | WebKitBrowser/WebKitImplementation.cpp:2512-2556 | dispatching suspend leaves the browser suspended, dispatching resume leaves it resumed |
| SuspendResume.StartUpDoesAsWanted | WebKitBrowser/WebKitImplementation.cpp:2942-2954 | start-up moves into the state that the commands before it ask for, suspended without any, and tells the clients once |
| SuspendResume.StateControl.RequestCommand | WebKitBrowser/WebKitImplementation.cpp:1670-1703 | when a command is accepted, and whether it takes effect at once or is posted |
| SuspendResume.StateControl.Suspend | WebKitBrowser/WebKitImplementation.cpp:2502-2533 | at once without a context, posted with one |
| SuspendResume.StateControl.Resume | WebKitBrowser/WebKitImplementation.cpp:2534-2558 | at once without a context, posted with one |
| SuspendResume.StateControl.OnStateChange | WebKitBrowser/WebKitImplementation.cpp:2072-2088 | every client is told every change once, and nothing when there is none |
| SuspendResume.StateControl.BeginLoop | WebKitBrowser/WebKitImplementation.cpp:2942-2954 | start-up moves into the state asked for so far and always notifies |
| SuspendResume.StateControl.DispatchNext | WebKitBrowser/WebKitImplementation.cpp:2502-2558 | the oldest posted command changes the state and notifies if it is a change |
| JavascriptEscape.ReplaceAll | BrowserLauncher/src/wpewebkit/wpewebkitconfig.cpp:626-632 | the find-and-replace loop ends and replaces every occurrence in the original text once, not in what it put there |
| JavascriptEscape.PassOnText | BrowserLauncher/src/wpewebkit/wpewebkitconfig.cpp:634-639 | each pass over the text of the passes before it is one more rule of the character-wise escape |
| JavascriptEscape.EscapeJavascriptString | BrowserLauncher/src/wpewebkit/wpewebkitconfig.cpp:624-641 | the five passes together equal one left-to-right escape of each character |
| JavascriptEscape.LiteralRoundTrip | BrowserLauncher/src/wpewebkit/wpewebkitconfig.cpp:624-641 | between quotes of either kind a literal reader recovers the original and stops exactly at the closing quote, whatever follows |
| JavascriptEscape.NoRawLineEnds | BrowserLauncher/src/wpewebkit/wpewebkitconfig.cpp:638-639 | the escaped text has no newline and no carriage return |
| JavascriptEscape.OnlySpecialGrows | BrowserLauncher/src/wpewebkit/wpewebkitconfig.cpp:634-640 | the text grows by one for each of the five special characters and is unchanged exactly when there is none |
| JavascriptEscape.EscapeIsInjective | BrowserLauncher/src/wpewebkit/wpewebkitconfig.cpp:624-641 | different texts are never escaped to the same |
| Base64.TableIsAlphabet | helpers/UtilsString.h:157-159 | the table is the alphabet of section 4 of RFC 4648 |
| Base64.StreamIsEncode | helpers/UtilsString.h:162-196 | three states and their left-over bits produce the text of whole 24-bit groups, for every input |
| Base64.ImageEncoder | helpers/UtilsString.h:162-196 | keeps what the result held and appends the Base64 text of section 4 of RFC 4648, padded or not |
| Base64.EncodedLength | helpers/UtilsString.h:184-194 | 4 * ceil(n / 3) letters with padding, ceil(4 n / 3) without |
| Base64.DecodeEncoded | helpers/UtilsString.h:162-196 | decoding what was encoded, padded or not, gives the bytes back |
| Base64.EncodeIsInjective | helpers/UtilsString.h:162-196 | different byte strings never have the same text |
| Base64.TestVectors | helpers/UtilsString.h:157-196 | the reference encoding gives the test vectors of section 10 of RFC 4648 |
| Settings.LastEquals | helpers/cSettings.h:200 | where the last equals sign of a line is, or that there is none |
| Settings.FileRoundTrip | helpers/cSettings.h:160-210 | in whatever order entries are written, reading back gives exactly the entries with values if and only if those have no newline and no value has an equals sign |
| Settings.EntryReadsBack | helpers/cSettings.h:199-203 | an entry's line sets exactly its key to its value, also when the key has equals signs |
| Settings.LineWithoutEqualsSetsNothing | helpers/cSettings.h:198-203 | a line without an equals sign leaves the data as it was, wherever it stands in the file |
| Settings.ReadIsWritable | helpers/cSettings.h:198-203 | nothing that reading can produce has a newline or an equals sign in a value |
| Settings.SettingsFile.constructor | helpers/cSettings.h:41-55 | loads an existing file, or creates an empty one |
| Settings.SettingsFile.ReadFromFile | helpers/cSettings.h:189-210 | adds what every line sets to the data, line by line to the end; no change without a file |
| Settings.SettingsFile.WriteToFile | helpers/cSettings.h:160-183 | the file holds the line of each entry with a value exactly once, in some order, and so reads back as proved; no change without a file |
| Settings.SettingsFile.SetValue | helpers/cSettings.h:79-83 | sets one key, and the file holds the new entries once each |
| Settings.SettingsFile.Contains | helpers/cSettings.h:114-127 | exactly the keys with a value |
| Settings.SettingsFile.Remove | helpers/cSettings.h:134-154 | removes one key, and the file holds the remaining entries once each |
| Blink.FireInRound | helpers/frontpanel.cpp:639-662 | a firing shows the next item of the cyclic list, or ends the run after the last round |
| Blink.RunShowsList | helpers/frontpanel.cpp:585-662 | after k firings exactly the first k + 1 items of the cyclic list are shown, never more than n * (R + 1), and the timer runs exactly until then |
| Blink.RunEndsOnLastItem | helpers/frontpanel.cpp:643-661 | the run ends by itself after n * (R + 1) items and leaves the last item of the list shown |
| Blink.EndlessRun | helpers/frontpanel.cpp:648-651 | with a negative repeat count the cyclic list is shown for ever |
| Blink.ShownIsCyclic | helpers/frontpanel.cpp:585-662 | however firings and stops interleave, what is shown is a beginning of the cyclic list within the asked-for rounds |
| Blink.StoppedShowsNothing | helpers/frontpanel.cpp:602-606 | a stopped player shows nothing more, whatever happens next |
| Blink.EmptyListShowsNothing | helpers/frontpanel.cpp:593-599 | a player with an empty list shows nothing at all |
| Blink.BlinkPlayer.StartBlinkTimer | helpers/frontpanel.cpp:585-600 | resets the counters, shows the first item and starts the timer; nothing is shown for an empty list |
| Blink.BlinkPlayer.StopBlinkTimer | helpers/frontpanel.cpp:602-606 | stops the timer and keeps what is shown |
| Blink.BlinkPlayer.OnBlinkTimer | helpers/frontpanel.cpp:639-662 | one firing, never with an index outside the list |

## Left out

- PageLifecycleDelegate.Delegate.SetState: the calls on the page are returned as a list in the order they are made, and `LifecycleV1` and `LifecycleV2` hold a delegate and carry the list out, where the source has abstract methods that the two versions override.
- JsonRpc.JsonRpcInterface.SendRequest: what other threads do is a list of steps that happen between inserting the entry and the end of the wait; that they never erase this caller's entry is `JsonRpc.RemoveTakesOwnEntry`, proved over all interleavings.
- CookieFrame.FrameRoundTrip: zlib is a parameter with an assumed round trip; its out-of-memory error, which leaves an empty result, is not modelled.
- Blink.BlinkPlayer.OnBlinkTimer: the repeat counter is unbounded, so its overflow in an endless run is not modelled, nor are a callback already running when the timer is revoked, the shown durations and the device calls.
- Settings.SettingsFile.WriteToFile: data is a map of strings written in any order; the quoting of JSON variants, integer and boolean values, and a file that exists but cannot be opened are not modelled.
- JavascriptEscape.LiteralRoundTrip: the literal reader knows the escapes for backslash, quotes, newline, carriage return and tab, and the line ends newline and carriage return; other escapes and the Unicode line separators are not modelled.
- Base64.EncodeByte: masks and shifts are written as division and remainder.
- SuspendResume.StateControl.RequestCommand: requests made on the main-loop thread itself run at once in the source; here posted work always waits for a dispatch. Loading a blank page and the watchdog check after suspending are left out.
- Watchdog.WebProcessWatchdog.CheckWebProcess: the timer thread that starts checks, process identifiers, log output and the dumped system files are not modelled; starting a check is an event of the trace.
- PageLifecycleV2Queue.LifecycleV2.OnCompleted: destruction of the view, with the token that silences late completions, is not modelled.
- WebKit, GLib, Thunder, Firebolt, WebSocket and cipher internals: parameters or steps of the environment. An operation never completes while it is being started, and posted work is dispatched in order.
- The back-off interval of the memory-saving timer and all wall-clock times: a timeout is a step that may happen at any moment.
- The visibility of the view widget beside the backend flags in the first lifecycle version, and its idle callbacks, which run at once.
- The launch without an application lifecycle endpoint, which requests Active directly, and closing by the browser itself.
- Parsing of JSON messages, notifications, and the deferred status of a future, which the source itself never expects.
- Header bytes of the cookie frame are numbers from 0 to 255, text bytes are bit vectors; the demonstration cipher's padding is not modelled.
- Launch configuration, environment, user scripts, logging, telemetry, memory limits, file-system helpers, input validators and reference-counted client lists: easy members that would add no property across functions.
