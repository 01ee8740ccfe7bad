# AL Object ID Ninja: polling engine, range nodes and messages

A Dafny model of three parts of the AL Object ID Ninja VS Code extension:

- **PollingHandler** (`polling.dfy`, `backoff.dfy`).
  - It polls the back end on a self-rearming timer, and each check runs in three steps.
  - First, it builds a payload with one `{appId, authKey}` per AL folder, and records `id -> name` on the way.
  - Second, it sends the payload and splits the combined answer. The news slice goes to the news sink. Each app's consumption slice and log slice go to their sinks, and the `_ranges` member is dropped.
  - Third, it folds the sinks' booleans into `anyUpdates` and `consumptionUpdates`. Any update resets the interval to 15 000 ms. No update, or no answer, backs the interval off by ×1.25 within [15 000, 900 000] ms. A consumption change refreshes the range explorer.
  - The handler is a class with the source's fields: `pollingInterval`, `disposed`, `timeout` and `appName`. Its constructor runs `Initialize`, as `new PollingHandler()` does. Its methods are `Initialize`, `Check`, `BackOff`, `ScheduleNext`, `Fire` (the timer's callback) and `Dispose`.
  - `CheckOutcome` is a reference function that states a whole check. `Check` is proved to agree with it, and the properties of a check are lemmas about it.
  - `Cycles` states a run of timer expiries.
- **RangeNode** (`range_node.dfy`).
  - This is the tree node for one range `from..to` of an app. Its label, tooltip and URI part are built from the bounds.
  - It has one child per object type, in the enumeration's order. Each child holds the type's consumed ids that lie inside the range.
  - A node without children is marked "no consumption".
  - The class computes its children in a loop (`CalculateChildren`), proved against the reference function `ChildrenFor`. `CompleteItem` states how the tree item's label and description are completed.
- **UI messages** (`ui.dfy`).
  - The back-end error texts, the authorization notices, and the message `log.showMessage` builds for an event of an app's log.
  - Only the text is modelled, not its display.

Shared pieces:

- `wrappers.dfy` holds `Option`.
- `text.dfy` holds decimal rendering and reading of naturals, and `String.prototype.trim` over the ECMAScript whitespace set.

Collaborators are parameters of the model, bundled in an `Environment`:

- the workspace's AL folders with their manifests;
- the back end, as a function from payload to `Option<Response>`;
- the three sinks, as functions returning booleans.

The calls a check makes are recorded as a sequence of `Effect`s. The object-type enumeration, the extension's name and the authorization file's name are not part of this model, so they are parameters as well. Intervals are exact reals. The model never relies on floating point.

Two behaviours of the code that the model keeps:

- **Empty payload.** When the workspace has folders but none is an AL folder, `check` still calls `Backend.check([])`: an empty array is truthy at PollingHandler.ts:35, and nothing tests the payload's length. See `Polling.EmptyPayloadIsSent`. With no folders at all, `workspaceFolders` is undefined and the check returns without a call (`Polling.NoWorkspaceFoldersIsNoOp`).
- **Rearming.** The timer's callback rearms even on a disposed handler and after a check that threw. `initialize` catches nothing, so when the first check throws, `scheduleNext` is never reached. Both are recorded under Findings.

## Model

| member | source | states |
|---|---|---|
| Backoff.BackedOff | vscode-extension/src/features/PollingHandler.ts:77-87 | one back-off step (×1.25, then clamp) always yields an interval within [15 000, 900 000] ms, whatever the previous interval |
| Backoff.BackedOffGrows | vscode-extension/src/features/PollingHandler.ts:77-78 | from at least the default and below the ceiling's reach, a step is exactly ×1.25, a strict increase |
| Backoff.BackedOffMonotone | vscode-extension/src/features/PollingHandler.ts:77-87 | a longer interval never backs off to a shorter one than a shorter interval does |
| Backoff.BackedOffSaturates | vscode-extension/src/features/PollingHandler.ts:84-86 | once ×1.25 reaches 900 000 ms the result is exactly 900 000 ms (the ceiling is a fixed point) |
| Backoff.IdleInterval | vscode-extension/src/features/PollingHandler.ts:77-87 | one or more back-off steps from any interval end inside the range |
| Backoff.IdleIntervalClosedForm | vscode-extension/src/features/PollingHandler.ts:13-14 | n steps from the default give min(15 000 · 1.25ⁿ, 900 000) ms |
| Backoff.IdleIntervalSaturation | vscode-extension/src/features/PollingHandler.ts:13-14 | n steps from the default reach 900 000 ms exactly when n ≥ 19 |
| Backoff.FirstIdleIntervals | vscode-extension/src/features/PollingHandler.ts:77-87 | the first two steps from the default give 18 750 ms and 23 437.5 ms |
| Polling.ConsumptionOf | vscode-extension/src/features/PollingHandler.ts:56 | an app's consumption slice has every member except `_log` and `_ranges`, with its value unchanged |
| Polling.AppSlicesRecompose | vscode-extension/src/features/PollingHandler.ts:56 | consumption, `_log` and `_ranges` put back together give the app's object: the split loses and duplicates nothing |
| Polling.BuildPayload | vscode-extension/src/features/PollingHandler.ts:37-43 | the folder loop, folder by folder; its properties are PayloadOnePerFolder, PayloadNameKeys, PayloadKeepsOtherNames, PayloadRecordsNames and MissingManifestStopsBuild |
| Polling.AppCalls | vscode-extension/src/features/PollingHandler.ts:55-64 | the sink calls of the per-app loop; SinksCalledForEveryApp and AppCallsAreSinkCalls state what they are |
| Polling.LogOf | vscode-extension/src/features/PollingHandler.ts:55-64 | an app's `_log` slice, or none; AppSlicesRecompose states that with the other slices it rebuilds the app's object |
| Polling.PayloadOnePerFolder | vscode-extension/src/features/PollingHandler.ts:37-43 | the build completes iff every AL folder has a manifest; then the payload has exactly one `{appId, authKey}` per folder, in folder order |
| Polling.PayloadNameKeys | vscode-extension/src/features/PollingHandler.ts:40 | after a complete build the names map's keys are the earlier keys plus the manifests' ids |
| Polling.PayloadKeepsOtherNames | vscode-extension/src/features/PollingHandler.ts:40 | an earlier `appName` entry whose id no manifest carries keeps its name |
| Polling.PayloadRecordsNames | vscode-extension/src/features/PollingHandler.ts:40 | each manifest's id maps to its name, the last folder with that id winning |
| Polling.MissingManifestStopsBuild | vscode-extension/src/features/PollingHandler.ts:39 | a folder without a manifest makes the loop throw: the names recorded before it stay, nothing after it is recorded |
| Polling.SinksCalledForEveryApp | vscode-extension/src/features/PollingHandler.ts:55-64 | with no short-circuit, both the consumption and the log sink are called for every app, consumption first, app after app (2·n calls) |
| Polling.AppCallsAreSinkCalls | vscode-extension/src/features/PollingHandler.ts:55-64 | the per-app loop calls only the consumption and log sinks |
| Polling.Demultiplex | vscode-extension/src/features/PollingHandler.ts:51-64 | `consumptionUpdates` iff some app's consumption sink answered true; `anyUpdates` iff the news sink, some consumption sink or some log sink did; the calls are the news call then each app's pair, in order |
| Polling.CheckOutcome | vscode-extension/src/features/PollingHandler.ts:31-75 | a check never changes `disposed` and keeps an in-range interval in range |
| Polling.DisposedCheckIsNoOp | vscode-extension/src/features/PollingHandler.ts:32 | a disposed handler's check makes no call and changes nothing |
| Polling.NoWorkspaceFoldersIsNoOp | vscode-extension/src/features/PollingHandler.ts:34-35 | with `workspaceFolders` undefined the check returns at once: interval and names unchanged, no call |
| Polling.EmptyPayloadIsSent | vscode-extension/src/features/PollingHandler.ts:37-45 | with no AL folder the empty payload is still sent to the back end |
| Polling.FailedCallBacksOff | vscode-extension/src/features/PollingHandler.ts:45-49 | no answer from the back end: the interval backs off and the back-end call is the only call; no sink is consulted and no refresh happens |
| Polling.FailureIsNoChange | vscode-extension/src/features/PollingHandler.ts:45-70 | a failed call and an answer in which every sink says "unchanged" leave the same state, the backed-off interval |
| Polling.AnswerSetsInterval | vscode-extension/src/features/PollingHandler.ts:66-70 | with an answer, the interval becomes exactly 15 000 ms if any update was observed and is backed off otherwise |
| Polling.RefreshAtMostOnce | vscode-extension/src/features/PollingHandler.ts:72-74 | the tree is refreshed at most once per check, and exactly once iff an answer came and some app reported a consumption change |
| Polling.NewsOrLogOnlyResetsWithoutRefresh | vscode-extension/src/features/PollingHandler.ts:53-74 | a change seen only by the news sink or log sinks resets the interval to the default without refreshing the tree |
| Polling.Cycles | vscode-extension/src/features/PollingHandler.ts:89-100 | over any run of timer expiries `disposed` is unchanged and the interval stays in range |
| Polling.QuietChecksBackOff | vscode-extension/src/features/PollingHandler.ts:45-70 | n consecutive checks that observe nothing back the interval off n times |
| Polling.QuietChecksFromDefault | vscode-extension/src/features/PollingHandler.ts:77-100 | from the default, n quiet expiries give min(15 000 · 1.25ⁿ, 900 000) ms, and 900 000 ms exactly from the 19th on |
| Polling.DisposedCyclesAreSilent | vscode-extension/src/features/PollingHandler.ts:32 | once disposed, no expiry makes any call and the state never changes |
| Polling.PollingHandler.constructor | vscode-extension/src/features/PollingHandler.ts:17-29 | from the field initializers (default interval, not disposed, no names, no timeout), the first check runs: the state and calls are `CheckOutcome`'s, and the timeout is armed with the new interval unless that check threw |
| Polling.PollingHandler.Guarded | vscode-extension/src/features/PollingHandler.ts:17-29 | construction with the first check guarded: state and calls are one step of `Cycles`, and the timeout is always armed |
| Polling.PollingHandler.Initialize | vscode-extension/src/features/PollingHandler.ts:26-29 | the first check's outcome is `CheckOutcome`'s; the timeout is armed with the new interval unless that check threw |
| Polling.PollingHandler.Check | vscode-extension/src/features/PollingHandler.ts:31-75 | the new interval and names, the calls made and whether it threw are exactly those of `CheckOutcome` on the old state |
| Polling.PollingHandler.BackOff | vscode-extension/src/features/PollingHandler.ts:77-87 | the new interval is `BackedOff` of the old one |
| Polling.PollingHandler.ScheduleNext | vscode-extension/src/features/PollingHandler.ts:89-100 | the timeout is armed with the current interval |
| Polling.PollingHandler.GuardedCheck | vscode-extension/src/features/PollingHandler.ts:90-96 | the check with its error caught and logged: state and calls are one step of `Cycles` |
| Polling.PollingHandler.Fire | vscode-extension/src/features/PollingHandler.ts:90-99 | an expiry is one step of `Cycles`, and the timeout is re-armed with the new interval even if the check threw or the handler is disposed |
| Polling.PollingHandler.InitializeIntended | vscode-extension/src/features/PollingHandler.ts:26-29 | the first check guarded like the timer's: one step of `Cycles`, after which the timeout is always armed |
| Polling.PollingHandler.Dispose | vscode-extension/src/features/PollingHandler.ts:102-107 | as written: `disposed` never changes, and the timeout is cleared only on an already disposed handler |
| Polling.PollingHandler.DisposeIntended | vscode-extension/src/features/PollingHandler.ts:102-107 | the handler is disposed and no timeout is pending |
| Polling.DisposeDoesNotStopPolling | vscode-extension/src/features/PollingHandler.ts:102-107 | after creation and `dispose`, the next expiry still calls the back end, and the handler is still undisposed and armed |
| Polling.DisposeIntendedStopsPolling | vscode-extension/src/features/PollingHandler.ts:102-107 | with the corrected dispose, nothing is armed and a check makes no call |
| Polling.FailedFirstCheckNeverPolls | vscode-extension/src/features/PollingHandler.ts:26-29 | when the first check throws (a folder without a manifest), no timeout is ever armed |
| Polling.FailedFirstCheckIntendedPolls | vscode-extension/src/features/PollingHandler.ts:26-29 | guarded, the same failure is logged and polling starts at 15 000 ms |
| RangeNode.Label | vscode-extension/src/features/treeView/rangeExplorer/RangeNode.ts:33 | the label `{from}..{to}`; LabelNamesRange states that it reads back as the bounds |
| RangeNode.Tooltip | vscode-extension/src/features/treeView/rangeExplorer/RangeNode.ts:34 | the tooltip `From {from} to {to}`; TooltipNamesRange states that it reads back as the bounds |
| RangeNode.UriPathPart | vscode-extension/src/features/treeView/rangeExplorer/RangeNode.ts:35 | the URI part `{from}-{to}`; UriPathPartNamesRange states that it reads back as the bounds |
| RangeNode.Size | vscode-extension/src/features/treeView/rangeExplorer/RangeNode.ts:95-97 | `to - from + 1`; SizeCountsIds states that it counts the range's ids and DistinctIdsFitSize that no child exceeds it |
| RangeNode.ChildrenFor | vscode-extension/src/features/treeView/rangeExplorer/RangeNode.ts:40-52 | the children a node computes; ChildrenCarryTheirIds, ChildForEveryTypeWithIds, ChildrenInEnumerationOrder, AtMostOneChildPerType and NoCachedConsumptionNoChildren state what they are |
| RangeNode.CompleteItem | vscode-extension/src/features/treeView/rangeExplorer/RangeNode.ts:69-85 | how the tree item is completed; CompletedLabel, ConsumedDescription and NoConsumptionDescription state the label and the description |
| RangeNode.RangeNode.CompleteTreeItem | vscode-extension/src/features/treeView/rangeExplorer/RangeNode.ts:69-85 | `CompleteItem` on the node's range and its no-consumption mark, so the same lemmas state its label and description |
| RangeNode.ParseBoundsOfJoin | vscode-extension/src/features/treeView/rangeExplorer/RangeNode.ts:33-35 | two bounds rendered in decimal around a separator that starts with a non-digit read back as those bounds |
| RangeNode.LabelNamesRange | vscode-extension/src/features/treeView/rangeExplorer/RangeNode.ts:33 | the label `{from}..{to}` reads back as the range's bounds |
| RangeNode.TooltipNamesRange | vscode-extension/src/features/treeView/rangeExplorer/RangeNode.ts:34 | the tooltip is `From ` then the bounds around ` to `, which read back |
| RangeNode.UriPathPartNamesRange | vscode-extension/src/features/treeView/rangeExplorer/RangeNode.ts:35 | the URI part `{from}-{to}` reads back as the range's bounds |
| RangeNode.SizeCountsIds | vscode-extension/src/features/treeView/rangeExplorer/RangeNode.ts:95-97 | a positive `to - from + 1` is the number of ids from `from` to `to` |
| RangeNode.IdsInRange | vscode-extension/src/features/treeView/rangeExplorer/RangeNode.ts:47 | the filter keeps exactly the ids with `from ≤ id ≤ to` and never lengthens the list |
| RangeNode.IdsInRangeAppend | vscode-extension/src/features/treeView/rangeExplorer/RangeNode.ts:47 | the filter preserves order: filtering a concatenation concatenates the filtered parts |
| RangeNode.IdsInRangeCounts | vscode-extension/src/features/treeView/rangeExplorer/RangeNode.ts:47 | an id inside the range is kept as often as it occurs; an id outside is dropped |
| RangeNode.IdsInRangeDistinct | vscode-extension/src/features/treeView/rangeExplorer/RangeNode.ts:47 | distinct ids stay distinct |
| RangeNode.DistinctIdsFitSize | vscode-extension/src/features/treeView/rangeExplorer/RangeNode.ts:47-51 | a child's distinct ids never outnumber the size it is given |
| RangeNode.ChildrenCarryTheirIds | vscode-extension/src/features/treeView/rangeExplorer/RangeNode.ts:42-51 | every child is for an enumerated type and holds that type's consumed ids inside the range (never none), with the range's size |
| RangeNode.ChildForEveryTypeWithIds | vscode-extension/src/features/treeView/rangeExplorer/RangeNode.ts:44-50 | an enumerated type has a child iff some of its consumed ids lie in the range; missing or empty consumption gives none |
| RangeNode.ChildrenInEnumerationOrder | vscode-extension/src/features/treeView/rangeExplorer/RangeNode.ts:42-52 | an earlier child's type comes strictly earlier in the enumeration |
| RangeNode.AtMostOneChildPerType | vscode-extension/src/features/treeView/rangeExplorer/RangeNode.ts:42-52 | with an enumeration of distinct types, no two children share a type |
| RangeNode.NoCachedConsumptionNoChildren | vscode-extension/src/features/treeView/rangeExplorer/RangeNode.ts:36 | missing cached consumption, read as the empty map, gives no children |
| RangeNode.CompletedLabel | vscode-extension/src/features/treeView/rangeExplorer/RangeNode.ts:73-79 | the label gains ` (description)` iff the range has a description and the label flag is set |
| RangeNode.ConsumedDescription | vscode-extension/src/features/treeView/rangeExplorer/RangeNode.ts:72-80 | with consumption, the description is the range's when it has one and the flag is set, and is otherwise left as it was |
| RangeNode.TrimNoConsumptionNote | vscode-extension/src/features/treeView/rangeExplorer/RangeNode.ts:83 | trimming `{before} (no consumption)` removes only the leading whitespace of `before`, and the space before the note when `before` is blank |
| RangeNode.NoConsumptionDescription | vscode-extension/src/features/treeView/rangeExplorer/RangeNode.ts:72-84 | without consumption the description is `(no consumption)` when the earlier description is blank, and otherwise that description, stripped at its start, followed by ` (no consumption)` |
| RangeNode.RangeNode.constructor | vscode-extension/src/features/treeView/rangeExplorer/RangeNode.ts:30-38 | label, tooltip and URI part come from the range; missing cached consumption is the empty map; the children are `ChildrenFor`; no children iff "no consumption", collapsible state None and decoration `-` |
| RangeNode.RangeNode.CalculateChildren | vscode-extension/src/features/treeView/rangeExplorer/RangeNode.ts:40-67 | the children pushed are exactly `ChildrenFor`; with none, the node is marked without consumption, not collapsible and decorated `-`, and otherwise its decoration is cleared |
| UI.NotFoundAdvice | vscode-extension/src/lib/UI.ts:35-37 | the advice chosen by `isDefault`; NotFoundMarker states that the two choices differ at their start and EndpointNotFoundMessageDetermines that the message determines the choice |
| UI.UnauthorizedAdvice | vscode-extension/src/lib/UI.ts:44-46 | the advice chosen by `isDefault`; EndpointUnauthorizedMessage and EndpointUnauthorizedMessageDetermines state where it sits in the message and that the two choices differ |
| UI.Opening | vscode-extension/src/lib/UI.ts:99-118 | the text before the app name in each notice; AuthorizationText and AuthorizationTextDeterminesApp state that the name follows it and is determined by the text |
| UI.Closing | vscode-extension/src/lib/UI.ts:99-118 | the text after the app name in each notice; AuthorizationTextDeterminesApp relies on it to frame the name |
| UI.EventText | vscode-extension/src/lib/UI.ts:126-141 | the message text per event type, as written; EventTextStartsWithUser, GetNextMessageNamesObject and DeauthorizeReadsAsAuthorize state its properties |
| UI.EventTextIntended | vscode-extension/src/lib/UI.ts:126-141 | the same texts with the deauthorize text corrected; EventTextIntendedListed, MarkerChars and IntendedMessageTellsEventsApart state its properties |
| UI.ShowMessage | vscode-extension/src/lib/UI.ts:121-145 | the message shown for a log event, or none; MessageShownIffKnown states when there is one |
| UI.ShowMessageIntended | vscode-extension/src/lib/UI.ts:121-145 | the same with the corrected texts; IntendedMessageTellsEventsApart states that equal messages mean the same event type |
| UI.EndpointNotFoundMessage | vscode-extension/src/lib/UI.ts:33-39 | the message starts with CANNOT_COMMUNICATE and ends with `\n\nEndpoint: ` and the endpoint |
| UI.NotFoundMarker | vscode-extension/src/lib/UI.ts:35-37 | the advice after CANNOT_COMMUNICATE is chosen by `isDefault` (it reads "you are…" or "the API…") |
| UI.EndpointNotFoundMessageDetermines | vscode-extension/src/lib/UI.ts:33-39 | the message determines both the endpoint and whether it was the default one |
| UI.EndpointUnauthorizedMessage | vscode-extension/src/lib/UI.ts:42-46 | the message is CANNOT_COMMUNICATE, a space, and the advice chosen by `isDefault` |
| UI.EndpointUnauthorizedMessageDetermines | vscode-extension/src/lib/UI.ts:42-46 | the two unauthorized messages differ |
| UI.IncorrectKeyMessage | vscode-extension/src/lib/UI.ts:102-103 | the warning is INCORRECT_KEY, a space, CANNOT_DEAUTHORIZE, ` "`, the app name and `".` |
| UI.IncorrectKeyMessageDeterminesApp | vscode-extension/src/lib/UI.ts:102-103 | equal warnings name the same app |
| UI.AuthorizationText | vscode-extension/src/lib/UI.ts:99-118 | every authorization notice names the app from its manifest |
| UI.IncorrectKeyNoticeText | vscode-extension/src/lib/UI.ts:102-103 | the incorrect-key notice is the incorrect-key message |
| UI.AuthorizationTextDeterminesApp | vscode-extension/src/lib/UI.ts:99-118 | two notices of one kind with equal texts are about the same app |
| UI.EventTextStartsWithUser | vscode-extension/src/lib/UI.ts:126-141 | every listed event's message starts with the user's name |
| UI.EventTextIntendedListed | vscode-extension/src/lib/UI.ts:126-145 | the corrected texts exist for exactly the same event types |
| UI.MessageShownIffKnown | vscode-extension/src/lib/UI.ts:121-145 | a message is shown iff there is an event with a non-empty user and an event type the switch lists; an unlisted type shows nothing |
| UI.GetNextMessageNamesObject | vscode-extension/src/lib/UI.ts:133-134 | a getNext message contains `{type} {id}` and the app's name |
| UI.MarkerChars | vscode-extension/src/lib/UI.ts:126-141 | with the deauthorize text corrected, each listed message carries its type's distinguishing character after the user's name |
| UI.IntendedMessageTellsEventsApart | vscode-extension/src/lib/UI.ts:126-141 | with the deauthorize text corrected, equal messages for the same user and app mean the same event type |
| UI.DeauthorizeReadsAsAuthorize | vscode-extension/src/lib/UI.ts:127-132 | as written, a deauthorize event gives exactly the message of an authorize event |

## Left out

- vscode-extension/src/commands/deauthorize-app.ts is not part of this model. It orchestrates Git, a back-end call and telemetry, and has no logic of its own to state.
- Displaying and logging are not modelled: `window.show*`, `Output.instance.log` and `output.log`. The model states only the texts. A caught error is recorded as a `LogError` effect, without its text.
- Timing is not modelled: `setTimeout`, `clearTimeout` and `await`. The timeout is an armed/unarmed value, and an expiry is the `Fire` step. A `dispose` that arrives while a check is awaiting the back end is not modelled, because steps never interleave in the model.
- The sinks' internals are not modelled: `NewsHandler`, `ConsumptionCache` and `NotificationsFromLog`. Each sink is a function returning a boolean, so the sinks' own state is not tracked.
- Transport and I/O are inputs of the model: `Backend.check` is a function returning an optional answer, and `workspace.workspaceFolders`, `ALWorkspace.isALWorkspace` and `getManifest` give the list of AL folders with their manifests.
- The only exception modelled is a folder without a manifest, where `getManifest(...)!` gives undefined. Other exceptions are left out: a manifest without `ninja.config`, and the back end or a sink that throws.
- `authKey` is always a string. An undefined `authKey` is not modelled.
- The JSON values of the answer are opaque. Its apps are a sequence in the order `Object.keys` yields them, and that order is not modelled.
- The `ALObjectType` enumeration, `EXTENSION_NAME` and `CONFIG_FILE_NAME` are defined outside the modelled files, so they are parameters.
- JavaScript numbers are not modelled. Intervals are exact reals, so there is no rounding of ×1.25. Range bounds are naturals rendered in plain decimal, which differs from JavaScript's exponent form at 10²¹ and above.
- `ObjectTypeConsumptionNode` is only a record of its three arguments, and the rest of the tree node is not modelled: the icon, `getChildren` and the base class's `completeTreeItem`.
- The UI groups `general`, `sync`, `nextId` and `git` are fixed texts that are not part of this model.
- A getNext event without `data` is not modelled. In the code it would throw; in the model `data` is always present.
- UI.AuthorizationText: its contract states only that each notice names the app. Together with AuthorizationTextDeterminesApp, it also states that the text determines the app. The exact template texts are the definition and are not restated in the contract.

## Findings

| source | as written | input that shows it | evidently intended | confidence | as-written member | corrected member |
|---|---|---|---|---|---|---|
| vscode-extension/src/features/PollingHandler.ts:103 | `if (!this._disposed) return;` makes `dispose` return at once on a live handler, so `_disposed` never becomes true and the pending timeout is never cleared | a new handler, then `dispose()`, then the timer expires: the back end is still called | a live handler is disposed: the guard should return only when already disposed | high, not executed | Polling.DisposeDoesNotStopPolling | Polling.DisposeIntendedStopsPolling |
| vscode-extension/src/features/PollingHandler.ts:26-29 | `initialize` awaits the first check with no `catch`, so when that check throws, `scheduleNext` is never reached | a workspace with an AL folder whose manifest is missing when the handler is created: no timeout is ever armed | the first check is guarded like the timer's callback, so the error is logged and polling starts anyway | medium, not executed | Polling.FailedFirstCheckNeverPolls | Polling.FailedFirstCheckIntendedPolls |
| vscode-extension/src/lib/UI.ts:130-131 | the `deauthorize` case builds `${event.user} authorized ${appName}.` | a deauthorize event: its message is exactly the message of an authorize event by the same user | `${event.user} deauthorized ${appName}.` | high, not executed | UI.DeauthorizeReadsAsAuthorize | UI.IntendedMessageTellsEventsApart |
