/**
 * PollingHandler: the self-rearming check loop of the extension. Every
 * check collects one {appId, authKey} pair per AL folder, sends them to the
 * back end in one call, hands the news slice and each app's log and
 * consumption slices to their owners, and adapts the polling interval.
 *
 * The back end and the three owners of the slices (news, consumption cache,
 * notifications from the log) are oracles supplied in an Environment; what
 * the handler asks of them is recorded as a trace of Effects.
 */
module Polling {
  import opened Wrappers
  import opened Backoff

  /** A JSON value as the back end delivers it. */
  datatype Json =
    | JNull
    | JBool(b: bool)
    | JNumber(n: int)
    | JString(s: string)
    | JArray(items: seq<Json>)
    | JObject(members: map<string, Json>)

  /** What the manifest of an AL folder provides: the app id, its name and the authKey of its configuration. */
  datatype Manifest = Manifest(id: string, name: string, authKey: string)

  /** One entry of the payload sent to the back end. */
  datatype FolderAuthorization = FolderAuthorization(appId: string, authKey: string)

  /** One app's member of the response: the raw object holding `_log`, `_ranges` and the consumption per object type. */
  datatype AppUpdate = AppUpdate(appId: string, members: map<string, Json>)

  /** The back end's answer: its `_news` member (None when absent) and the remaining members, one per app, in key order. */
  datatype Response = Response(news: Option<Json>, apps: seq<AppUpdate>)

  /** The owners of the slices; each reports whether the slice changed what it holds. */
  datatype Sinks = Sinks(
    updateNews: Option<Json> -> bool,
    updateConsumption: (string, map<string, Json>) -> bool,
    updateLog: (string, Option<Json>, Option<string>) -> bool)

  /**
   * What one check sees of the world: the AL folders of the workspace with
   * the manifest found for each (None for `workspaceFolders` undefined; a
   * folder whose manifest is missing holds None), the back end, and the sinks.
   */
  datatype Environment = Environment(
    folders: Option<seq<Option<Manifest>>>,
    backend: seq<FolderAuthorization> -> Option<Response>,
    sinks: Sinks)

  /** The calls a check makes to its collaborators, in order. */
  datatype Effect =
    | BackendCheck(payload: seq<FolderAuthorization>)
    | UpdateNews(news: Option<Json>)
    | UpdateConsumption(appId: string, consumption: map<string, Json>)
    | UpdateLog(appId: string, log: Option<Json>, appName: Option<string>)
    | RefreshTree
    | LogError

  /** The pending timeout: none, or one that fires after `interval` milliseconds. */
  datatype Timer = Unarmed | Armed(interval: real)

  // ---------------------------------------------------------------------
  // Splitting one app's object into its slices
  // ---------------------------------------------------------------------

  function LogOf(u: AppUpdate): Option<Json> {
    if "_log" in u.members then Some(u.members["_log"]) else None
  }

  function RangesOf(u: AppUpdate): Option<Json> {
    if "_ranges" in u.members then Some(u.members["_ranges"]) else None
  }

  /** The consumption slice: every member except `_log` and `_ranges`, unchanged. */
  function ConsumptionOf(u: AppUpdate): (c: map<string, Json>)
    ensures c.Keys == u.members.Keys - {"_log", "_ranges"}
    ensures forall k :: k in c ==> c[k] == u.members[k]
  {
    u.members - {"_log", "_ranges"}
  }

  function Member(key: string, v: Option<Json>): map<string, Json> {
    if v.Some? then map[key := v.value] else map[]
  }

  /**
   * The three slices put back together give the app's object: nothing is
   * lost or duplicated by the split, and only `_ranges` is left unused.
   */
  lemma AppSlicesRecompose(u: AppUpdate)
    ensures ConsumptionOf(u) + Member("_log", LogOf(u)) + Member("_ranges", RangesOf(u)) == u.members
    ensures "_log" !in ConsumptionOf(u) && "_ranges" !in ConsumptionOf(u)
  {
    var r := ConsumptionOf(u) + Member("_log", LogOf(u)) + Member("_ranges", RangesOf(u));
    assert forall k :: k in r <==> k in u.members;
    assert forall k :: k in r ==> r[k] == u.members[k];
  }

  // ---------------------------------------------------------------------
  // Building the payload
  // ---------------------------------------------------------------------

  /** The payload built so far, the app names recorded so far, and whether every manifest was found. */
  datatype PayloadBuild = PayloadBuild(payload: seq<FolderAuthorization>, appName: map<string, string>, complete: bool)

  /**
   * The folder loop of a check, folder by folder: record `id -> name` and
   * append `{appId, authKey}`. A folder without a manifest makes the loop
   * throw (reading the id of an undefined manifest is a TypeError): the
   * names recorded before it stay and nothing is sent.
   */
  function BuildPayload(folders: seq<Option<Manifest>>, appName: map<string, string>): PayloadBuild
    decreases |folders|
  {
    if folders == [] then PayloadBuild([], appName, true)
    else
      var b := BuildPayload(folders[..|folders| - 1], appName);
      if !b.complete then b
      else match folders[|folders| - 1]
        case None => b.(complete := false)
        case Some(m) => PayloadBuild(b.payload + [FolderAuthorization(m.id, m.authKey)], b.appName[m.id := m.name], true)
  }

  /** The payload holds exactly one {appId, authKey} per AL folder, in folder order, when every manifest is found. */
  lemma {:induction false} PayloadOnePerFolder(folders: seq<Option<Manifest>>, appName: map<string, string>)
    ensures BuildPayload(folders, appName).complete <==> forall i :: 0 <= i < |folders| ==> folders[i].Some?
    ensures var b := BuildPayload(folders, appName);
      b.complete ==>
        |b.payload| == |folders| &&
        forall i :: 0 <= i < |folders| ==>
          b.payload[i] == FolderAuthorization(folders[i].value.id, folders[i].value.authKey)
    decreases |folders|
  {
    if folders != [] {
      var init := folders[..|folders| - 1];
      PayloadOnePerFolder(init, appName);
      assert forall i :: 0 <= i < |init| ==> init[i] == folders[i];
    }
  }

  /** The ids of the manifests found among `folders`. */
  function ManifestIds(folders: seq<Option<Manifest>>): set<string> {
    set i | 0 <= i < |folders| && folders[i].Some? :: folders[i].value.id
  }

  /** Folder `i` is the last one whose manifest carries its id. */
  predicate LastWithId(folders: seq<Option<Manifest>>, i: int)
    requires 0 <= i < |folders| && folders[i].Some?
  {
    forall j :: i < j < |folders| && folders[j].Some? ==> folders[j].value.id != folders[i].value.id
  }

  /** A complete build records exactly the ids of the manifests, on top of the earlier entries. */
  lemma {:induction false} PayloadNameKeys(folders: seq<Option<Manifest>>, appName: map<string, string>)
    requires BuildPayload(folders, appName).complete
    ensures BuildPayload(folders, appName).appName.Keys == appName.Keys + ManifestIds(folders)
    decreases |folders|
  {
    if folders != [] {
      var n := |folders| - 1;
      var init := folders[..n];
      PayloadNameKeys(init, appName);
      ManifestIdsOfSnoc(folders);
    }
  }

  lemma ManifestIdsOfSnoc(folders: seq<Option<Manifest>>)
    requires folders != [] && folders[|folders| - 1].Some?
    ensures ManifestIds(folders) == ManifestIds(folders[..|folders| - 1]) + {folders[|folders| - 1].value.id}
  {
    var n := |folders| - 1;
    var init := folders[..n];
    forall k | k in ManifestIds(folders) ensures k in ManifestIds(init) + {folders[n].value.id} {
      var i :| 0 <= i < |folders| && folders[i].Some? && folders[i].value.id == k;
      if i < n {
        assert init[i] == folders[i];
      }
    }
    forall k | k in ManifestIds(init) ensures k in ManifestIds(folders) {
      var i :| 0 <= i < |init| && init[i].Some? && init[i].value.id == k;
      assert folders[i] == init[i];
    }
  }

  /** A complete build keeps every earlier entry whose id no manifest carries. */
  lemma {:induction false} PayloadKeepsOtherNames(folders: seq<Option<Manifest>>, appName: map<string, string>, k: string)
    requires BuildPayload(folders, appName).complete
    requires k in appName && k !in ManifestIds(folders)
    ensures k in BuildPayload(folders, appName).appName
    ensures BuildPayload(folders, appName).appName[k] == appName[k]
    decreases |folders|
  {
    if folders != [] {
      ManifestIdsOfSnoc(folders);
      PayloadKeepsOtherNames(folders[..|folders| - 1], appName, k);
    }
  }

  /** After a complete build, each manifest's id maps to its name; when two share an id, the later folder wins. */
  lemma {:induction false} PayloadRecordsNames(folders: seq<Option<Manifest>>, appName: map<string, string>, i: nat)
    requires BuildPayload(folders, appName).complete
    requires i < |folders| && folders[i].Some? && LastWithId(folders, i)
    ensures folders[i].value.id in BuildPayload(folders, appName).appName
    ensures BuildPayload(folders, appName).appName[folders[i].value.id] == folders[i].value.name
    decreases |folders|
  {
    var n := |folders| - 1;
    if i < n {
      var init := folders[..n];
      assert init[i] == folders[i];
      assert LastWithId(init, i);
      PayloadRecordsNames(init, appName, i);
    }
  }

  /** A missing manifest stops the build: nothing after it is recorded and the build is incomplete. */
  lemma {:induction false} MissingManifestStopsBuild(folders: seq<Option<Manifest>>, i: nat, appName: map<string, string>)
    requires i < |folders| && folders[i].None?
    requires BuildPayload(folders[..i], appName).complete
    ensures BuildPayload(folders, appName) == BuildPayload(folders[..i], appName).(complete := false)
    decreases |folders|
  {
    var n := |folders| - 1;
    if n > i {
      assert folders[..n][..i] == folders[..i];
      MissingManifestStopsBuild(folders[..n], i, appName);
    } else {
      assert folders[..n] == folders[..i];
    }
  }

  // ---------------------------------------------------------------------
  // Routing the response
  // ---------------------------------------------------------------------

  function NameOf(appName: map<string, string>, appId: string): Option<string> {
    if appId in appName then Some(appName[appId]) else None
  }

  predicate ConsumptionChanged(u: AppUpdate, sinks: Sinks) {
    sinks.updateConsumption(u.appId, ConsumptionOf(u))
  }

  predicate LogChanged(u: AppUpdate, appName: map<string, string>, sinks: Sinks) {
    sinks.updateLog(u.appId, LogOf(u), NameOf(appName, u.appId))
  }

  /** Some app's consumption sink reported a change. */
  predicate AnyConsumption(apps: seq<AppUpdate>, sinks: Sinks) {
    exists i :: 0 <= i < |apps| && ConsumptionChanged(apps[i], sinks)
  }

  /** Some app's log sink reported a change. */
  predicate AnyLog(apps: seq<AppUpdate>, appName: map<string, string>, sinks: Sinks) {
    exists i :: 0 <= i < |apps| && LogChanged(apps[i], appName, sinks)
  }

  /** The news sink, or some app's consumption or log sink, reported a change. */
  predicate AnyUpdates(r: Response, appName: map<string, string>, sinks: Sinks) {
    sinks.updateNews(r.news) || AnyConsumption(r.apps, sinks) || AnyLog(r.apps, appName, sinks)
  }

  /** The sink calls made for the apps: first its consumption, then its log, app after app. */
  function AppCalls(apps: seq<AppUpdate>, appName: map<string, string>): seq<Effect>
    decreases |apps|
  {
    if apps == [] then []
    else
      var u := apps[|apps| - 1];
      AppCalls(apps[..|apps| - 1], appName)
        + [UpdateConsumption(u.appId, ConsumptionOf(u)), UpdateLog(u.appId, LogOf(u), NameOf(appName, u.appId))]
  }

  /**
   * No short-circuit: both the consumption sink and the log sink are
   * called for every app, the consumption sink first, in the apps' order.
   */
  lemma {:induction false} SinksCalledForEveryApp(apps: seq<AppUpdate>, appName: map<string, string>)
    ensures |AppCalls(apps, appName)| == 2 * |apps|
    ensures forall i :: 0 <= i < |apps| ==>
      && AppCalls(apps, appName)[2 * i] == UpdateConsumption(apps[i].appId, ConsumptionOf(apps[i]))
      && AppCalls(apps, appName)[2 * i + 1] == UpdateLog(apps[i].appId, LogOf(apps[i]), NameOf(appName, apps[i].appId))
    decreases |apps|
  {
    if apps != [] {
      var init := apps[..|apps| - 1];
      SinksCalledForEveryApp(init, appName);
      assert forall i :: 0 <= i < |init| ==> init[i] == apps[i];
    }
  }

  /** The app calls contain no back-end call, news call, tree refresh or error log. */
  lemma {:induction false} AppCallsAreSinkCalls(apps: seq<AppUpdate>, appName: map<string, string>)
    ensures forall e :: e in AppCalls(apps, appName) ==> e.UpdateConsumption? || e.UpdateLog?
    decreases |apps|
  {
    if apps != [] {
      AppCallsAreSinkCalls(apps[..|apps| - 1], appName);
    }
  }

  /** Extending the apps by one: some app's consumption changed iff it did before or the new one's did. */
  lemma AnySnoc(apps: seq<AppUpdate>, i: int, appName: map<string, string>, sinks: Sinks)
    requires 0 <= i < |apps|
    ensures AnyConsumption(apps[..i + 1], sinks) <==> AnyConsumption(apps[..i], sinks) || ConsumptionChanged(apps[i], sinks)
    ensures AnyLog(apps[..i + 1], appName, sinks) <==> AnyLog(apps[..i], appName, sinks) || LogChanged(apps[i], appName, sinks)
    ensures AppCalls(apps[..i + 1], appName) == AppCalls(apps[..i], appName)
      + [UpdateConsumption(apps[i].appId, ConsumptionOf(apps[i])), UpdateLog(apps[i].appId, LogOf(apps[i]), NameOf(appName, apps[i].appId))]
  {
    var pre, ext := apps[..i], apps[..i + 1];
    assert forall j :: 0 <= j < i ==> ext[j] == pre[j];
    assert ext[i] == apps[i];
    assert ext[..i] == pre;
  }

  /**
   * The demultiplexer: the news slice to the news sink, then for each app
   * its consumption slice and its log slice to their sinks. `anyUpdates`
   * folds all the sinks' answers, `consumptionUpdates` only the
   * consumption sink's.
   */
  method Demultiplex(response: Response, appName: map<string, string>, sinks: Sinks)
    returns (anyUpdates: bool, consumptionUpdates: bool, calls: seq<Effect>)
    ensures consumptionUpdates <==> exists i :: 0 <= i < |response.apps| && ConsumptionChanged(response.apps[i], sinks)
    ensures anyUpdates <==>
      || sinks.updateNews(response.news)
      || consumptionUpdates
      || exists i :: 0 <= i < |response.apps| && LogChanged(response.apps[i], appName, sinks)
    ensures calls == [UpdateNews(response.news)] + AppCalls(response.apps, appName)
  {
    var apps := response.apps;
    anyUpdates := sinks.updateNews(response.news);
    calls := [UpdateNews(response.news)];
    consumptionUpdates := false;
    var i := 0;
    while i < |apps|
      invariant 0 <= i <= |apps|
      invariant consumptionUpdates == AnyConsumption(apps[..i], sinks)
      invariant anyUpdates == AnyUpdates(Response(response.news, apps[..i]), appName, sinks)
      invariant calls == [UpdateNews(response.news)] + AppCalls(apps[..i], appName)
    {
      var app := apps[i];
      var log, consumptions := LogOf(app), ConsumptionOf(app);
      AnySnoc(apps, i, appName, sinks);
      calls := calls + [UpdateConsumption(app.appId, consumptions)];
      if sinks.updateConsumption(app.appId, consumptions) {
        anyUpdates := true;
        consumptionUpdates := true;
      }
      calls := calls + [UpdateLog(app.appId, log, NameOf(appName, app.appId))];
      if sinks.updateLog(app.appId, log, NameOf(appName, app.appId)) {
        anyUpdates := true;
      }
      i := i + 1;
    }
    assert apps[..i] == apps;
  }

  // ---------------------------------------------------------------------
  // One check, as a function of the state and the environment
  // ---------------------------------------------------------------------

  /** The fields of the handler that a check reads and writes. */
  datatype HandlerState = HandlerState(pollingInterval: real, disposed: bool, appName: map<string, string>)

  /** The state after a check, the calls it made, and whether it threw. */
  datatype CheckStep = CheckStep(state: HandlerState, effects: seq<Effect>, threw: bool)

  /**
   * One check. Disposed, or no workspace folders: nothing at all. A missing
   * manifest: throws after recording the names before it. No answer from
   * the back end: back off. Otherwise route the slices, reset the interval
   * if anything changed and back off if not, and refresh the tree once if
   * some consumption changed.
   */
  function CheckOutcome(s: HandlerState, env: Environment): (r: CheckStep)
    ensures r.state.disposed == s.disposed
    ensures InRange(s.pollingInterval) ==> InRange(r.state.pollingInterval)
  {
    if s.disposed || env.folders.None? then CheckStep(s, [], false)
    else
      var b := BuildPayload(env.folders.value, s.appName);
      if !b.complete then CheckStep(s.(appName := b.appName), [], true)
      else
        var sent := [BackendCheck(b.payload)];
        match env.backend(b.payload)
        case None =>
          CheckStep(s.(pollingInterval := BackedOff(s.pollingInterval), appName := b.appName), sent, false)
        case Some(resp) =>
          var interval := if AnyUpdates(resp, b.appName, env.sinks) then DefaultPollingInterval
                          else BackedOff(s.pollingInterval);
          var refresh := if AnyConsumption(resp.apps, env.sinks) then [RefreshTree] else [];
          CheckStep(s.(pollingInterval := interval, appName := b.appName),
                    sent + [UpdateNews(resp.news)] + AppCalls(resp.apps, b.appName) + refresh, false)
  }

  /** A disposed handler's check does nothing: no call, no change. */
  lemma DisposedCheckIsNoOp(s: HandlerState, env: Environment)
    requires s.disposed
    ensures CheckOutcome(s, env) == CheckStep(s, [], false)
  {
  }

  /** With `workspaceFolders` undefined the check returns at once: the interval and the names are unchanged. */
  lemma NoWorkspaceFoldersIsNoOp(s: HandlerState, env: Environment)
    requires env.folders.None?
    ensures CheckOutcome(s, env) == CheckStep(s, [], false)
  {
  }

  /**
   * The payload is sent even when it is empty (no AL folder open): the
   * back end is called exactly once per undisposed check with folders.
   */
  lemma EmptyPayloadIsSent(s: HandlerState, env: Environment)
    requires !s.disposed && env.folders == Some([])
    ensures CheckOutcome(s, env).effects[..1] == [BackendCheck([])]
  {
  }

  /**
   * When the back end returns nothing, the check backs off and returns:
   * the only call made is the one to the back end; no sink is consulted and
   * no refresh happens.
   */
  lemma FailedCallBacksOff(s: HandlerState, env: Environment)
    requires !s.disposed && env.folders.Some?
    requires BuildPayload(env.folders.value, s.appName).complete
    requires env.backend(BuildPayload(env.folders.value, s.appName).payload).None?
    ensures var r := CheckOutcome(s, env);
      && r.state.pollingInterval == BackedOff(s.pollingInterval)
      && r.effects == [BackendCheck(BuildPayload(env.folders.value, s.appName).payload)]
      && forall e :: e in r.effects ==> !e.UpdateNews? && !e.UpdateConsumption? && !e.UpdateLog? && !e.RefreshTree?
  {
  }

  /** Every sink answers false for every part of `resp`. */
  predicate NothingChanged(resp: Response, appName: map<string, string>, sinks: Sinks) {
    && !sinks.updateNews(resp.news)
    && (forall i :: 0 <= i < |resp.apps| ==> !ConsumptionChanged(resp.apps[i], sinks))
    && (forall i :: 0 <= i < |resp.apps| ==> !LogChanged(resp.apps[i], appName, sinks))
  }

  /**
   * A failed back-end call and an answer in which nothing changed lead to
   * the same state: the same backed-off interval and the same names.
   */
  lemma FailureIsNoChange(s: HandlerState, failing: Environment, quiet: Environment)
    requires !s.disposed && failing.folders.Some? && quiet.folders == failing.folders
    requires BuildPayload(failing.folders.value, s.appName).complete
    requires var p := BuildPayload(failing.folders.value, s.appName);
      && failing.backend(p.payload).None?
      && quiet.backend(p.payload).Some?
      && NothingChanged(quiet.backend(p.payload).value, p.appName, quiet.sinks)
    ensures CheckOutcome(s, failing).state == CheckOutcome(s, quiet).state
    ensures CheckOutcome(s, quiet).state.pollingInterval == BackedOff(s.pollingInterval)
  {
  }

  /**
   * Any observed update resets the interval to exactly the default; a
   * successful answer with nothing observed backs off.
   */
  lemma AnswerSetsInterval(s: HandlerState, env: Environment)
    requires !s.disposed && env.folders.Some?
    requires BuildPayload(env.folders.value, s.appName).complete
    requires env.backend(BuildPayload(env.folders.value, s.appName).payload).Some?
    ensures var b := BuildPayload(env.folders.value, s.appName);
      var resp := env.backend(b.payload).value;
      CheckOutcome(s, env).state.pollingInterval
        == if AnyUpdates(resp, b.appName, env.sinks) then DefaultPollingInterval else BackedOff(s.pollingInterval)
  {
  }

  /**
   * The tree is refreshed at most once per check, and exactly once when some
   * app reported a consumption change, however many did.
   */
  lemma RefreshAtMostOnce(s: HandlerState, env: Environment)
    ensures multiset(CheckOutcome(s, env).effects)[RefreshTree] <= 1
    ensures multiset(CheckOutcome(s, env).effects)[RefreshTree] == 1 <==>
      && !s.disposed && env.folders.Some?
      && BuildPayload(env.folders.value, s.appName).complete
      && var b := BuildPayload(env.folders.value, s.appName);
         env.backend(b.payload).Some? && AnyConsumption(env.backend(b.payload).value.apps, env.sinks)
  {
    if !s.disposed && env.folders.Some? {
      var b := BuildPayload(env.folders.value, s.appName);
      if b.complete && env.backend(b.payload).Some? {
        var resp := env.backend(b.payload).value;
        AppCallsAreSinkCalls(resp.apps, b.appName);
        assert RefreshTree !in AppCalls(resp.apps, b.appName);
        assert multiset(AppCalls(resp.apps, b.appName))[RefreshTree] == 0;
      }
    }
  }

  /**
   * A change reported only by the news sink or only by log sinks resets the
   * interval but does not refresh the tree.
   */
  lemma NewsOrLogOnlyResetsWithoutRefresh(s: HandlerState, env: Environment)
    requires !s.disposed && env.folders.Some?
    requires BuildPayload(env.folders.value, s.appName).complete
    requires var b := BuildPayload(env.folders.value, s.appName);
      && env.backend(b.payload).Some?
      && var resp := env.backend(b.payload).value;
         && (env.sinks.updateNews(resp.news) || AnyLog(resp.apps, b.appName, env.sinks))
         && forall i :: 0 <= i < |resp.apps| ==> !ConsumptionChanged(resp.apps[i], env.sinks)
    ensures CheckOutcome(s, env).state.pollingInterval == DefaultPollingInterval
    ensures RefreshTree !in CheckOutcome(s, env).effects
  {
    RefreshAtMostOnce(s, env);
  }

  // ---------------------------------------------------------------------
  // Successive timer expiries
  // ---------------------------------------------------------------------

  /** The result of several checks in a row: the final state and all calls made. */
  datatype Trace = Trace(state: HandlerState, effects: seq<Effect>)

  /**
   * The effects of one timer expiry: the check, with the error logged when
   * it threw (the catch around the check in scheduleNext).
   */
  function FiredEffects(step: CheckStep): seq<Effect> {
    step.effects + if step.threw then [LogError] else []
  }

  /** The timer firing once per environment in `envs`. */
  function Cycles(s: HandlerState, envs: seq<Environment>): (t: Trace)
    ensures t.state.disposed == s.disposed
    ensures InRange(s.pollingInterval) ==> InRange(t.state.pollingInterval)
    decreases |envs|
  {
    if envs == [] then Trace(s, [])
    else
      var step := CheckOutcome(s, envs[0]);
      var rest := Cycles(step.state, envs[1..]);
      Trace(rest.state, FiredEffects(step) + rest.effects)
  }

  /** A check that observes no update: the call fails or every sink answers false. */
  predicate QuietCheck(s: HandlerState, env: Environment) {
    && !s.disposed && env.folders.Some?
    && var b := BuildPayload(env.folders.value, s.appName);
       && b.complete
       && match env.backend(b.payload)
          case None => true
          case Some(resp) => !AnyUpdates(resp, b.appName, env.sinks)
  }

  /** Every check of the run observes no update. */
  predicate AllQuiet(s: HandlerState, envs: seq<Environment>)
    decreases |envs|
  {
    envs == [] || (QuietCheck(s, envs[0]) && AllQuiet(CheckOutcome(s, envs[0]).state, envs[1..]))
  }

  /** N quiet checks in a row back off N times. */
  lemma {:induction false} QuietChecksBackOff(s: HandlerState, envs: seq<Environment>)
    requires AllQuiet(s, envs)
    ensures Cycles(s, envs).state.pollingInterval == IdleInterval(s.pollingInterval, |envs|)
    decreases |envs|
  {
    if envs != [] {
      var step := CheckOutcome(s, envs[0]);
      assert step.state.pollingInterval == BackedOff(s.pollingInterval);
      QuietChecksBackOff(step.state, envs[1..]);
      IdleIntervalShift(s.pollingInterval, |envs| - 1);
    }
  }

  lemma {:induction false} IdleIntervalShift(interval: real, n: nat)
    ensures IdleInterval(BackedOff(interval), n) == IdleInterval(interval, n + 1)
  {
    if n > 0 {
      IdleIntervalShift(interval, n - 1);
    }
  }

  /**
   * From the default interval, N quiet checks give min(15000 * 1.25^N, 900000) ms;
   * from the 19th on the interval is exactly 900000 ms.
   */
  lemma QuietChecksFromDefault(s: HandlerState, envs: seq<Environment>)
    requires s.pollingInterval == DefaultPollingInterval
    requires AllQuiet(s, envs)
    ensures Cycles(s, envs).state.pollingInterval
         == Min(DefaultPollingInterval * Pow(Growth, |envs|), MaxPollingInterval)
    ensures Cycles(s, envs).state.pollingInterval == MaxPollingInterval <==> |envs| >= 19
  {
    QuietChecksBackOff(s, envs);
    IdleIntervalClosedForm(|envs|);
    IdleIntervalSaturation(|envs|);
  }

  /** Once disposed, no expiry calls the back end or any sink, and the state never changes. */
  lemma {:induction false} DisposedCyclesAreSilent(s: HandlerState, envs: seq<Environment>)
    requires s.disposed
    ensures Cycles(s, envs) == Trace(s, [])
    decreases |envs|
  {
    if envs != [] {
      DisposedCyclesAreSilent(s, envs[1..]);
    }
  }

  // ---------------------------------------------------------------------
  // The handler object
  // ---------------------------------------------------------------------

  class PollingHandler {
    var pollingInterval: real
    var disposed: bool
    var timeout: Timer
    var appName: map<string, string>

    /** The interval stays within [15 000, 900 000] ms. */
    ghost predicate Valid()
      reads this
    {
      InRange(pollingInterval)
    }

    function State(): HandlerState
      reads this
    {
      HandlerState(pollingInterval, disposed, appName)
    }

    /** The calls made by the first check, which construction runs. */
    ghost var startup: seq<Effect>

    /**
     * `new PollingHandler()`: the field initializers (default interval, not
     * disposed, no names, no pending timeout), then initialize, whose first
     * check runs at once; the timeout is armed unless that check threw.
     */
    constructor (env: Environment)
      ensures Valid()
      ensures var step := CheckOutcome(HandlerState(DefaultPollingInterval, false, map[]), env);
        && State() == step.state && startup == step.effects
        && timeout == if step.threw then Unarmed else Armed(pollingInterval)
    {
      pollingInterval := DefaultPollingInterval;
      disposed := false;
      appName := map[];
      timeout := Unarmed;
      startup := [];
      new;
      var effects := Initialize(env);
      startup := effects;
    }

    /** Construction with initialize as evidently intended: the first check is guarded, so the timeout is always armed. */
    constructor Guarded(env: Environment)
      ensures Valid()
      ensures var t := Cycles(HandlerState(DefaultPollingInterval, false, map[]), [env]);
        && State() == t.state && startup == t.effects
        && timeout == Armed(pollingInterval)
    {
      pollingInterval := DefaultPollingInterval;
      disposed := false;
      appName := map[];
      timeout := Unarmed;
      startup := [];
      new;
      var effects := InitializeIntended(env);
      startup := effects;
    }

    /**
     * The first check and the first arming. A check that throws here is not
     * caught, so the timeout is then never armed.
     */
    method Initialize(env: Environment) returns (effects: seq<Effect>)
      requires Valid()
      modifies this
      ensures Valid()
      ensures var step := CheckOutcome(old(State()), env);
        && State() == step.state && effects == step.effects
        && timeout == if step.threw then old(timeout) else Armed(pollingInterval)
    {
      var threw;
      effects, threw := Check(env);
      if threw {
        return;
      }
      ScheduleNext();
    }

    /** The check of PollingHandler, step by step; its outcome is CheckOutcome's. */
    method Check(env: Environment) returns (effects: seq<Effect>, threw: bool)
      requires Valid()
      modifies this`pollingInterval, this`appName
      ensures Valid()
      ensures CheckStep(State(), effects, threw) == CheckOutcome(old(State()), env)
    {
      effects, threw := [], false;
      if disposed {
        return;
      }
      if env.folders.None? {
        return;
      }
      var folders := env.folders.value;
      var payload: seq<FolderAuthorization> := [];
      var i := 0;
      while i < |folders|
        invariant 0 <= i <= |folders|
        invariant BuildPayload(folders[..i], old(appName)) == PayloadBuild(payload, appName, true)
        invariant pollingInterval == old(pollingInterval) && disposed == old(disposed)
      {
        assert folders[..i + 1][..i] == folders[..i];
        match folders[i] {
          case None =>
            MissingManifestStopsBuild(folders, i, old(appName));
            threw := true;
            return;
          case Some(manifest) =>
            appName := appName[manifest.id := manifest.name];
            payload := payload + [FolderAuthorization(manifest.id, manifest.authKey)];
        }
        i := i + 1;
      }
      assert folders[..i] == folders;
      effects := [BackendCheck(payload)];
      var updates := env.backend(payload);
      if updates.None? {
        BackOff();
        return;
      }
      var anyUpdates, consumptionUpdates, calls := Demultiplex(updates.value, appName, env.sinks);
      effects := effects + calls;
      if !anyUpdates {
        BackOff();
      } else {
        pollingInterval := DefaultPollingInterval;
      }
      if consumptionUpdates {
        effects := effects + [RefreshTree];
      }
    }

    /** Grow the interval by 1.25, then raise it to the default and cap it at the maximum. */
    method BackOff()
      modifies this`pollingInterval
      ensures pollingInterval == BackedOff(old(pollingInterval))
    {
      pollingInterval := pollingInterval * Growth;
      if pollingInterval < DefaultPollingInterval {
        pollingInterval := DefaultPollingInterval;
      }
      if pollingInterval > MaxPollingInterval {
        pollingInterval := MaxPollingInterval;
      }
    }

    /** Arm the timeout with the current interval, whatever the state. */
    method ScheduleNext()
      modifies this`timeout
      ensures timeout == Armed(pollingInterval)
    {
      timeout := Armed(pollingInterval);
    }

    /** The timer's callback: run the check and log the error when it throws. */
    method GuardedCheck(env: Environment) returns (effects: seq<Effect>)
      requires Valid()
      modifies this`pollingInterval, this`appName
      ensures Valid()
      ensures Trace(State(), effects) == Cycles(old(State()), [env])
    {
      var threw;
      effects, threw := Check(env);
      if threw {
        effects := effects + [LogError];
      }
    }

    /**
     * The armed timeout expires: run the guarded check and re-arm
     * unconditionally, even when disposed.
     */
    method Fire(env: Environment) returns (effects: seq<Effect>)
      requires Valid() && timeout.Armed?
      modifies this
      ensures Valid()
      ensures Trace(State(), effects) == Cycles(old(State()), [env])
      ensures timeout == Armed(pollingInterval)
    {
      effects := GuardedCheck(env);
      ScheduleNext();
    }

    /**
     * initialize as evidently intended: the first check is guarded like the
     * timer's, so polling starts even when that check throws.
     */
    method InitializeIntended(env: Environment) returns (effects: seq<Effect>)
      requires Valid()
      modifies this
      ensures Valid()
      ensures Trace(State(), effects) == Cycles(old(State()), [env])
      ensures timeout == Armed(pollingInterval)
    {
      effects := GuardedCheck(env);
      ScheduleNext();
    }

    /**
     * dispose as written: it returns at once unless already disposed, so on
     * a live handler it changes nothing and `disposed` never becomes true
     * through it.
     */
    method Dispose()
      modifies this`disposed, this`timeout
      ensures disposed == old(disposed)
      ensures timeout == if old(disposed) then Unarmed else old(timeout)
    {
      if !disposed {
        return;
      }
      disposed := true;
      timeout := Unarmed;
    }

    /** dispose as evidently intended: cancel the pending timeout and mark the handler disposed. */
    method DisposeIntended()
      modifies this`disposed, this`timeout
      ensures disposed && timeout == Unarmed
    {
      disposed := true;
      timeout := Unarmed;
    }
  }

  // -----------------------------------------------------------------------
  // Handlers in use: the two defects of the lifecycle
  // -----------------------------------------------------------------------

  /** A workspace with the given folders, a back end that never answers, and sinks that report nothing. */
  function SilentEnvironment(folders: seq<Option<Manifest>>): Environment {
    Environment(
      Some(folders),
      (p: seq<FolderAuthorization>) => None,
      Sinks(
        (n: Option<Json>) => false,
        (id: string, c: map<string, Json>) => false,
        (id: string, l: Option<Json>, n: Option<string>) => false))
  }

  /**
   * As written, disposing a live handler leaves it polling: after creation
   * (which runs initialize) and dispose, the next expiry still calls the back
   * end, and the handler is still not disposed.
   */
  method DisposeDoesNotStopPolling() returns (disposedAfter: bool, armedAfter: bool, effects: seq<Effect>)
    ensures !disposedAfter && armedAfter
    ensures effects == [BackendCheck([])]
  {
    var env := SilentEnvironment([]);
    var h := new PollingHandler(env);
    h.Dispose();
    effects := h.Fire(env);
    disposedAfter, armedAfter := h.disposed, h.timeout.Armed?;
  }

  /**
   * With the corrected dispose, the timeout is cancelled, so nothing fires
   * any more, and a check that still ran would do nothing.
   */
  method DisposeIntendedStopsPolling() returns (disposedAfter: bool, armedAfter: bool, effects: seq<Effect>)
    ensures disposedAfter && !armedAfter
    ensures effects == []
  {
    var env := SilentEnvironment([]);
    var h := new PollingHandler(env);
    h.DisposeIntended();
    disposedAfter, armedAfter := h.disposed, h.timeout.Armed?;
    var threw;
    effects, threw := h.Check(env);
  }

  /**
   * As written, a first check that throws (here: a folder whose manifest
   * is missing) leaves the timeout unarmed, so the handler never polls.
   */
  method FailedFirstCheckNeverPolls() returns (armedAfter: bool)
    ensures !armedAfter
  {
    var h := new PollingHandler(SilentEnvironment([None]));
    armedAfter := h.timeout.Armed?;
  }

  /** With the first check guarded, the same failure is logged and polling starts at the default interval. */
  method FailedFirstCheckIntendedPolls() returns (armedAfter: bool, interval: real)
    ensures armedAfter && interval == DefaultPollingInterval
  {
    var h := new PollingHandler.Guarded(SilentEnvironment([None]));
    armedAfter := h.timeout.Armed?;
    interval := h.timeout.interval;
  }
}
