/**
 * The texts of UI.ts that carry logic: the message `log.showMessage` shows
 * for an event of the back end's log, the two back-end error messages, and
 * the authorization notices. Displaying them is not modelled.
 */
module UI {
  import opened Wrappers
  import opened Text

  // Texts that proofs look into are written as concatenations of short
  // literals, which the verifier unfolds far more cheaply than long ones.

  const CannotCommunicate: string := "Cannot communicate" + " with the back-end API."
  const IncorrectKey: string := "The authorization key" + " you have provided" + " is incorrect."
  const CannotDeauthorize: string := "You cannot deauthorize" + " app"

  /** `s` occurs in `t` at some position. */
  ghost predicate Occurs(s: string, t: string) {
    exists i | 0 <= i <= |t| :: OccursAt(s, t, i)
  }

  predicate OccursAt(s: string, t: string, i: int) {
    0 <= i <= |t| - |s| && t[i..i + |s|] == s
  }

  /** Text framed by the same opening and closing determines what was framed. */
  lemma FramedInjective(opening: string, a: string, b: string, closing: string)
    requires opening + a + closing == opening + b + closing
    ensures a == b
  {
    var x, y := opening + a + closing, opening + b + closing;
    assert x[|opening|..|opening| + |a|] == a;
    assert y[|opening|..|opening| + |b|] == b;
  }

  lemma FramedOccurs(opening: string, a: string, closing: string)
    ensures Occurs(a, opening + a + closing)
  {
    var t := opening + a + closing;
    assert OccursAt(a, t, |opening|);
  }

  /** The character at position |u| + k of `u + t + rest` is t[k]. */
  lemma CharAfter(u: string, t: string, rest: string, k: nat)
    requires k < |t|
    ensures |u + t + rest| > |u| + k && (u + t + rest)[|u| + k] == t[k]
  {
    assert (u + t + rest)[|u| + k] == (u + t)[|u| + k];
  }

  // ---------------------------------------------------------------------
  // Back-end errors
  // ---------------------------------------------------------------------

  /** The advice of the not-found message after its common " Make sure ". */
  function NotFoundAdvice(isDefault: bool, extensionName: string): string {
    if isDefault then "you are using the latest" + " version of " + extensionName + " extension or manually" + " configure the API endpoint."
    else "the API is available" + " at the configured endpoint."
  }

  /**
   * backend.showEndpointNotFoundError: CANNOT_COMMUNICATE, the advice for the
   * default or the configured endpoint, then the endpoint on its own line.
   */
  function EndpointNotFoundMessage(endpoint: string, isDefault: bool, extensionName: string): (m: string)
    ensures CannotCommunicate <= m
    ensures |m| >= |endpoint| + 12 && m[|m| - |endpoint| - 12..] == "\n\nEndpoint: " + endpoint
  {
    var opening := CannotCommunicate + " Make sure " + NotFoundAdvice(isDefault, extensionName);
    var m := opening + "\n\nEndpoint: " + endpoint;
    assert m == opening + ("\n\nEndpoint: " + endpoint);
    m
  }

  lemma NotFoundAdviceMarker(isDefault: bool, extensionName: string)
    ensures |NotFoundAdvice(isDefault, extensionName)| > 0
    ensures NotFoundAdvice(isDefault, extensionName)[0] == (if isDefault then 'y' else 't')
  {
  }

  /** The first character of the advice: 'y' ("you are using") for the default endpoint, 't' ("the API") otherwise. */
  lemma NotFoundMarker(endpoint: string, isDefault: bool, extensionName: string)
    ensures var m := EndpointNotFoundMessage(endpoint, isDefault, extensionName);
      |m| > |CannotCommunicate| + 11 && m[|CannotCommunicate| + 11] == (if isDefault then 'y' else 't')
  {
    var opening := CannotCommunicate + " Make sure ";
    var advice := NotFoundAdvice(isDefault, extensionName);
    NotFoundAdviceMarker(isDefault, extensionName);
    var m := EndpointNotFoundMessage(endpoint, isDefault, extensionName);
    assert m == opening + advice + ("\n\nEndpoint: " + endpoint);
    CharAfter(opening, advice, "\n\nEndpoint: " + endpoint, 0);
  }

  /** The not-found message tells which endpoint failed and whether it was the default one. */
  lemma EndpointNotFoundMessageDetermines(e1: string, d1: bool, e2: string, d2: bool, extensionName: string)
    requires EndpointNotFoundMessage(e1, d1, extensionName) == EndpointNotFoundMessage(e2, d2, extensionName)
    ensures e1 == e2 && d1 == d2
  {
    NotFoundMarker(e1, d1, extensionName);
    NotFoundMarker(e2, d2, extensionName);
    FramedInjective(CannotCommunicate + " Make sure " + NotFoundAdvice(d1, extensionName) + "\n\nEndpoint: ", e1, e2, "");
  }

  function UnauthorizedAdvice(isDefault: bool): string {
    if isDefault then "Your app authorization key" + " may be missing or wrong," + " or your API key" + " may be misconfigured."
    else "Make sure your API key" + " is valid."
  }

  /** backend.showEndpointUnauthorizedError: CANNOT_COMMUNICATE and the advice for the default or a custom back end. */
  function EndpointUnauthorizedMessage(isDefault: bool): (m: string)
    ensures CannotCommunicate + " " <= m
    ensures m[|CannotCommunicate| + 1..] == UnauthorizedAdvice(isDefault)
  {
    var opening := CannotCommunicate + " ";
    var m := opening + UnauthorizedAdvice(isDefault);
    assert m[|opening|..] == UnauthorizedAdvice(isDefault);
    m
  }

  /** The two unauthorized messages differ, so the text tells which back end was used. */
  lemma EndpointUnauthorizedMessageDetermines(d1: bool, d2: bool)
    requires EndpointUnauthorizedMessage(d1) == EndpointUnauthorizedMessage(d2)
    ensures d1 == d2
  {
    assert UnauthorizedAdvice(d1) == UnauthorizedAdvice(d2);
    assert |UnauthorizedAdvice(true)| != |UnauthorizedAdvice(false)|;
  }

  // ---------------------------------------------------------------------
  // Authorization notices
  // ---------------------------------------------------------------------

  /** The notices of `UI.authorization`, with the arguments other than the app name. */
  datatype NoticeKind =
    | AlreadyAuthorized
    | IncorrectKeyWarning
    | NotAuthorized
    | NoKey
    | AuthorizationSuccessful
    | DeauthorizationSuccessful
    | DeauthorizationFailed(error: string)
    | DeletedAuthorization
    | UnauthorizedBranch(branch: string)

  /** A notice about the app whose manifest names it `appName`. */
  datatype AuthorizationNotice = AuthorizationNotice(kind: NoticeKind, appName: string)

  /** The incorrect-key warning: INCORRECT_KEY, CANNOT_DEAUTHORIZE, then the app name in quotes. */
  function IncorrectKeyMessage(appName: string): (m: string)
    ensures IncorrectKey + " " + CannotDeauthorize + " \"" <= m
    ensures |m| == |IncorrectKey| + |CannotDeauthorize| + 5 + |appName|
    ensures m[|IncorrectKey| + |CannotDeauthorize| + 3..|m| - 2] == appName
    ensures m[|m| - 2..] == "\"."
  {
    var opening := IncorrectKey + " " + CannotDeauthorize + " \"";
    var m := opening + appName + "\".";
    assert m == opening + (appName + "\".");
    assert m[|opening|..|m| - 2] == appName;
    m
  }

  /** The text of a template before the app name. */
  function Opening(k: NoticeKind): string {
    match k
    case AlreadyAuthorized => "Application \""
    case IncorrectKeyWarning => IncorrectKey + " " + CannotDeauthorize + " \""
    case NotAuthorized => CannotDeauthorize + " \""
    case NoKey => "You do not have an authorization key configured for app \""
    case AuthorizationSuccessful => "You have successfully authorized app \""
    case DeauthorizationSuccessful => "You have successfully deauthorized app \""
    case DeauthorizationFailed(_) => "An error occurred while deleting the authorization file for app \""
    case DeletedAuthorization => "Authorization file for "
    case UnauthorizedBranch(branch) => "The " + branch + " branch of "
  }

  /** The text of a template after the app name; `configFileName` is the name of the authorization file. */
  function Closing(k: NoticeKind, configFileName: string): string {
    match k
    case AlreadyAuthorized => "\" is already authorized. You must first deauthorize it if you want to authorize it again."
    case IncorrectKeyWarning => "\"."
    case NotAuthorized => "\" because it is not authorized."
    case NoKey => "\". Please make sure that " + configFileName + " file is present in the root folder of your app."
    case AuthorizationSuccessful => "\" and we have committed it to your local Git repository. Please, push your changes to remote and create a pull request (if necessary) to share the authorization key with other developers on your team."
    case DeauthorizationSuccessful => "\". Please make sure that " + configFileName + " file is present in the root folder of your app."
    case DeauthorizationFailed(error) => "\": " + error
    case DeletedAuthorization => " was just deleted, and the app is still authorized. Please, make sure you understand the consequences."
    case UnauthorizedBranch(_) => " does not contain authorization file and you won't be able to assign new object IDs."
  }

  /** The text of an authorization notice; it names the app. */
  function AuthorizationText(n: AuthorizationNotice, configFileName: string): (t: string)
    ensures Occurs(n.appName, t)
  {
    FramedOccurs(Opening(n.kind), n.appName, Closing(n.kind, configFileName));
    Opening(n.kind) + n.appName + Closing(n.kind, configFileName)
  }

  /** The incorrect-key notice is the incorrect-key message. */
  lemma IncorrectKeyNoticeText(appName: string, configFileName: string)
    ensures AuthorizationText(AuthorizationNotice(IncorrectKeyWarning, appName), configFileName) == IncorrectKeyMessage(appName)
  {
  }

  /** Every notice names its app unambiguously: equal texts of one kind mean the same app. */
  lemma AuthorizationTextDeterminesApp(k: NoticeKind, a: string, b: string, configFileName: string)
    requires AuthorizationText(AuthorizationNotice(k, a), configFileName) == AuthorizationText(AuthorizationNotice(k, b), configFileName)
    ensures a == b
  {
    FramedInjective(Opening(k), a, b, Closing(k, configFileName));
  }

  /** The incorrect-key warning names the app unambiguously. */
  lemma IncorrectKeyMessageDeterminesApp(a: string, b: string)
    requires IncorrectKeyMessage(a) == IncorrectKeyMessage(b)
    ensures a == b
  {
    FramedInjective(IncorrectKey + " " + CannotDeauthorize + " \"", a, b, "\".");
  }

  // ---------------------------------------------------------------------
  // Messages for the back end's event log
  // ---------------------------------------------------------------------

  /** The `data` of a log entry: the object type and id a getNext event assigned. */
  datatype EventData = EventData(objectType: string, id: nat)

  /** An entry of an app's event log; `user` is None when the entry carries no user. */
  datatype EventLogEntry = EventLogEntry(eventType: string, user: Option<string>, data: EventData)

  predicate KnownEventType(t: string) {
    t == "authorize" || t == "deauthorize" || t == "getNext" || t == "syncFull" || t == "syncMerge"
  }

  /** The text chosen by the switch of log.showMessage, as written; "" for an event type it does not list. */
  function EventText(e: EventLogEntry, user: string, appName: string): string {
    match e.eventType
    case "authorize" => user + " authorized " + appName + "."
    case "deauthorize" => user + " authorized " + appName + "."
    case "getNext" => user + " created " + e.data.objectType + " " + NatToString(e.data.id) + " in " + appName + "."
    case "syncFull" => user + " performed full" + " synchronization for " + appName + "."
    case "syncMerge" => user + " performed update" + " synchronization for " + appName + "."
    case _ => ""
  }

  /** The text the deauthorize case evidently means: "deauthorized". */
  function EventTextIntended(e: EventLogEntry, user: string, appName: string): string {
    if e.eventType == "deauthorize" then user + " deauthorized " + appName + "." else EventText(e, user, appName)
  }

  /** A present, non-empty user (JavaScript's `event.user` being truthy). */
  predicate HasUser(event: Option<EventLogEntry>) {
    event.Some? && event.value.user.Some? && event.value.user.value != ""
  }

  /** log.showMessage as written: the message logged and shown for `event`, or None when nothing is. */
  function ShowMessage(event: Option<EventLogEntry>, appName: string): Option<string> {
    if !HasUser(event) then None
    else
      var message := EventText(event.value, event.value.user.value, appName);
      if message == "" then None else Some(message)
  }

  /** log.showMessage with the deauthorize text corrected. */
  function ShowMessageIntended(event: Option<EventLogEntry>, appName: string): Option<string> {
    if !HasUser(event) then None
    else
      var message := EventTextIntended(event.value, event.value.user.value, appName);
      if message == "" then None else Some(message)
  }

  /** Every listed message starts with the user's name. */
  lemma EventTextStartsWithUser(e: EventLogEntry, u: string, appName: string)
    requires KnownEventType(e.eventType)
    ensures |EventText(e, u, appName)| > |u| && EventText(e, u, appName)[..|u|] == u
  {
    var m := EventText(e, u, appName);
    match e.eventType
    case "authorize" => assert m == u + (" authorized " + appName + ".");
    case "deauthorize" => assert m == u + (" authorized " + appName + ".");
    case "getNext" => assert m == u + (" created " + e.data.objectType + " " + NatToString(e.data.id) + " in " + appName + ".");
    case "syncFull" => assert m == u + (" performed full" + " synchronization for " + appName + ".");
    case "syncMerge" => assert m == u + (" performed update" + " synchronization for " + appName + ".");
  }

  /** The corrected text is listed for exactly the same event types. */
  lemma EventTextIntendedListed(e: EventLogEntry, u: string, appName: string)
    ensures EventTextIntended(e, u, appName) == "" <==> EventText(e, u, appName) == ""
  {
    if KnownEventType(e.eventType) {
      EventTextStartsWithUser(e, u, appName);
    }
  }

  /**
   * A message is shown exactly when there is an event with a user and of a
   * listed type; it then starts with the user's name.
   */
  lemma MessageShownIffKnown(event: Option<EventLogEntry>, appName: string)
    ensures ShowMessage(event, appName).Some? <==> HasUser(event) && KnownEventType(event.value.eventType)
    ensures ShowMessage(event, appName).Some? ==>
      var u := event.value.user.value;
      ShowMessage(event, appName).value[..|u|] == u
    ensures ShowMessageIntended(event, appName).Some? <==> ShowMessage(event, appName).Some?
  {
    if HasUser(event) {
      var e := event.value;
      EventTextIntendedListed(e, e.user.value, appName);
      if KnownEventType(e.eventType) {
        EventTextStartsWithUser(e, e.user.value, appName);
      }
    }
  }

  /** A getNext message names the object type and the id that was assigned, and the app. */
  lemma GetNextMessageNamesObject(e: EventLogEntry, appName: string)
    requires e.eventType == "getNext" && e.user.Some? && e.user.value != ""
    ensures Occurs(e.data.objectType + " " + NatToString(e.data.id), ShowMessage(Some(e), appName).value)
    ensures Occurs(appName, ShowMessage(Some(e), appName).value)
  {
    var u := e.user.value;
    var obj := e.data.objectType + " " + NatToString(e.data.id);
    var m := u + " created " + e.data.objectType + " " + NatToString(e.data.id) + " in " + appName + ".";
    assert m == (u + " created ") + obj + (" in " + appName + ".");
    FramedOccurs(u + " created ", obj, " in " + appName + ".");
    assert m == (u + " created " + obj + " in ") + appName + ".";
    FramedOccurs(u + " created " + obj + " in ", appName, ".");
  }

  /** The character that tells the listed messages apart after the user's name: position |u| + 1, or |u| + 11 for the two synchronizations. */
  function Marker(eventType: string): char {
    match eventType
    case "authorize" => 'a'
    case "deauthorize" => 'd'
    case "getNext" => 'c'
    case "syncFull" => 'f'
    case _ => 'u'
  }

  function MarkerPosition(eventType: string, u: string): nat {
    if eventType == "syncFull" || eventType == "syncMerge" then |u| + 11 else |u| + 1
  }

  /** The marker of a message `u + t + rest` lies in its template part `t`. */
  lemma TemplateMarker(m: string, u: string, t: string, rest: string, k: nat, c: char)
    requires m == u + t + rest && k < |t| && t[k] == c
    ensures |m| > |u| + k && m[|u| + k] == c
  {
    CharAfter(u, t, rest, k);
  }

  lemma SyncMarker(e: EventLogEntry, u: string, appName: string)
    requires e.eventType == "syncFull" || e.eventType == "syncMerge"
    ensures var m := EventTextIntended(e, u, appName);
      |m| > MarkerPosition(e.eventType, u) && m[MarkerPosition(e.eventType, u)] == Marker(e.eventType)
  {
    var m := EventTextIntended(e, u, appName);
    var rest := " synchronization for " + appName + ".";
    if e.eventType == "syncFull" {
      TemplateMarker(m, u, " performed full", rest, 11, 'f');
    } else {
      TemplateMarker(m, u, " performed update", rest, 11, 'u');
    }
  }

  lemma AuthorizationMarker(e: EventLogEntry, u: string, appName: string)
    requires e.eventType == "authorize" || e.eventType == "deauthorize"
    ensures var m := EventTextIntended(e, u, appName);
      |m| > MarkerPosition(e.eventType, u) && m[MarkerPosition(e.eventType, u)] == Marker(e.eventType)
  {
    var m := EventTextIntended(e, u, appName);
    if e.eventType == "authorize" {
      TemplateMarker(m, u, " authorized ", appName + ".", 1, 'a');
    } else {
      TemplateMarker(m, u, " deauthorized ", appName + ".", 1, 'd');
    }
  }

  lemma GetNextMarker(e: EventLogEntry, u: string, appName: string)
    requires e.eventType == "getNext"
    ensures var m := EventTextIntended(e, u, appName);
      |m| > MarkerPosition(e.eventType, u) && m[MarkerPosition(e.eventType, u)] == Marker(e.eventType)
  {
    var rest := e.data.objectType + " " + NatToString(e.data.id) + " in " + appName + ".";
    TemplateMarker(EventTextIntended(e, u, appName), u, " created ", rest, 1, 'c');
  }

  /** Every listed message carries its type's marker. */
  lemma MarkerChars(e: EventLogEntry, u: string, appName: string)
    requires KnownEventType(e.eventType)
    ensures var m := EventTextIntended(e, u, appName);
      |m| > MarkerPosition(e.eventType, u) && m[MarkerPosition(e.eventType, u)] == Marker(e.eventType)
  {
    if e.eventType == "syncFull" || e.eventType == "syncMerge" {
      SyncMarker(e, u, appName);
    } else if e.eventType == "getNext" {
      GetNextMarker(e, u, appName);
    } else {
      AuthorizationMarker(e, u, appName);
    }
  }

  /** At position |u| + 1, the synchronizations share 'p' and every other listed message has its own marker. */
  lemma SyncSharesFirstMarker(e: EventLogEntry, u: string, appName: string)
    requires e.eventType == "syncFull" || e.eventType == "syncMerge"
    ensures var m := EventTextIntended(e, u, appName); |m| > |u| + 1 && m[|u| + 1] == 'p'
  {
    var m := EventTextIntended(e, u, appName);
    var rest := " synchronization for " + appName + ".";
    if e.eventType == "syncFull" {
      TemplateMarker(m, u, " performed full", rest, 1, 'p');
    } else {
      TemplateMarker(m, u, " performed update", rest, 1, 'p');
    }
  }

  /**
   * With the deauthorize text corrected, the message tells the listed event
   * types apart: for the same user and app, equal messages mean the same type.
   */
  lemma IntendedMessageTellsEventsApart(e1: EventLogEntry, e2: EventLogEntry, appName: string)
    requires e1.user == e2.user
    requires ShowMessageIntended(Some(e1), appName).Some?
    requires ShowMessageIntended(Some(e1), appName) == ShowMessageIntended(Some(e2), appName)
    ensures e1.eventType == e2.eventType
  {
    MessageShownIffKnown(Some(e1), appName);
    MessageShownIffKnown(Some(e2), appName);
    var u := e1.user.value;
    MarkerChars(e1, u, appName);
    MarkerChars(e2, u, appName);
    if e1.eventType == "syncFull" || e1.eventType == "syncMerge" {
      SyncSharesFirstMarker(e1, u, appName);
    }
    if e2.eventType == "syncFull" || e2.eventType == "syncMerge" {
      SyncSharesFirstMarker(e2, u, appName);
    }
  }

  /** As written, a deauthorize event is reported with exactly the text of an authorize event. */
  lemma DeauthorizeReadsAsAuthorize(e: EventLogEntry, appName: string)
    requires e.eventType == "deauthorize"
    ensures ShowMessage(Some(e), appName) == ShowMessage(Some(e.(eventType := "authorize")), appName)
  {
  }
}
