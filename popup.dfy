/**
 * The popup controller of popup.js (class AzurePIMHelper): its theme
 * cycle, the retrying `sendMessage` to the service worker, the role lists
 * filled by loadRoles, and the in-flight sets that disable a role's button
 * while its activation or extension is pending.
 *
 * Each message to the service worker is represented by what it came back
 * with (an Attempt per try, or the settled outcome of `sendMessage`).
 */
module Popup {
  import opened Wrappers
  import opened Text
  import Graph
  import Background
  import RoleView

  // ------------------------------------------------------------- theme

  const Themes := ["light", "dark", "system"]

  /** `xs.indexOf(x)`: the first position of `x`, or -1. */
  function IndexIn(xs: seq<string>, x: string): (r: int)
    ensures r == -1 <==> x !in xs
    ensures r != -1 ==> 0 <= r < |xs| && xs[r] == x && forall j | 0 <= j < r :: xs[j] != x
  {
    if xs == [] then -1
    else if xs[0] == x then 0
    else
      var r := IndexIn(xs[1..], x);
      if r == -1 then -1 else r + 1
  }

  /** The theme after `cycleTheme`. */
  function NextTheme(theme: string): (t: string)
    ensures t in Themes && t != theme
  {
    Themes[(IndexIn(Themes, theme) + 1) % |Themes|]
  }

  /**
   * The cycle is light, dark, system and back to light; any other stored
   * value moves to light, and three steps from a known theme return to it.
   */
  lemma ThemeCycle(theme: string)
    ensures NextTheme("light") == "dark" && NextTheme("dark") == "system" && NextTheme("system") == "light"
    ensures theme !in Themes ==> NextTheme(theme) == "light"
    ensures NextTheme(theme) in Themes
    ensures theme in Themes ==> NextTheme(NextTheme(NextTheme(theme))) == theme
  {
    assert IndexIn(Themes, "light") == 0;
    assert IndexIn(Themes, "dark") == 1;
    assert IndexIn(Themes, "system") == 2;
  }

  // ----------------------------------------------------- sendMessage

  /** One try of `chrome.runtime.sendMessage`: the response it resolved with, or the error it rejected with. */
  datatype Attempt = Delivered(response: Option<Background.Response>) | Failed(message: string)

  const DefaultRetries := 2
  const EmptyResponse := Background.Response(false, None, None, None, Some("Empty response"), None)
  const WorkerNotResponding := "Extension service worker" + " is not responding." + " Please reload the extension."

  /** `response || {success: false, error: 'Empty response'}`. */
  function OrEmpty(response: Option<Background.Response>): Background.Response {
    if response.Some? then response.value else EmptyResponse
  }

  /** The last error, with the two connection failures rewritten into one message. */
  function ConnectionError(message: string): string {
    if Contains(message, "Could not establish connection") || Contains(message, "Receiving end does not exist")
    then WorkerNotResponding else message
  }

  /** What `sendMessage(message, timeout, retries)` settles with, given the outcome of each try. */
  function Sent(attempts: seq<Attempt>, retries: nat): (r: Result<Background.Response, string>)
    requires retries < |attempts|
    ensures r.Err? ==> forall j | 0 <= j <= retries :: attempts[j].Failed?
    decreases retries
  {
    if attempts[0].Delivered? then Ok(OrEmpty(attempts[0].response))
    else if retries == 0 then Err(ConnectionError(attempts[0].message))
    else Sent(attempts[1..], retries - 1)
  }

  /**
   * sendMessage resolves with the first delivered response among its
   * `retries + 1` tries and rejects only when every try failed, with the
   * last try's error: earlier errors are never reported.
   */
  lemma {:induction false} SentOutcome(attempts: seq<Attempt>, retries: nat)
    requires retries < |attempts|
    ensures Sent(attempts, retries).Ok? <==> exists j | 0 <= j <= retries :: attempts[j].Delivered?
    ensures Sent(attempts, retries).Ok? ==>
      exists j | 0 <= j <= retries ::
        && attempts[j].Delivered?
        && (forall i | 0 <= i < j :: attempts[i].Failed?)
        && Sent(attempts, retries).value == OrEmpty(attempts[j].response)
    ensures Sent(attempts, retries).Err? ==>
      attempts[retries].Failed? && Sent(attempts, retries).error == ConnectionError(attempts[retries].message)
    decreases retries
  {
    if attempts[0].Failed? && retries > 0 {
      var rest := attempts[1..];
      SentOutcome(rest, retries - 1);
      assert forall j | 1 <= j <= retries :: attempts[j] == rest[j - 1];
      if Sent(attempts, retries).Ok? {
        var j :| 0 <= j <= retries - 1 && rest[j].Delivered? && (forall i | 0 <= i < j :: rest[i].Failed?)
          && Sent(rest, retries - 1).value == OrEmpty(rest[j].response);
        assert attempts[j + 1] == rest[j];
        assert forall i | 0 <= i < j + 1 :: attempts[i].Failed? by {
          forall i | 0 <= i < j + 1
            ensures attempts[i].Failed?
          {
            if i > 0 {
              assert attempts[i] == rest[i - 1];
            }
          }
        }
      }
    }
  }

  /** A lost connection on the last try is reported as the service worker not responding. */
  lemma ConnectionErrorRewritten(detail: string)
    ensures ConnectionError("Could not establish connection. " + detail) == WorkerNotResponding
  {
    assert ContainsAt("Could not establish connection. " + detail, "Could not establish connection", 0);
  }

  // -------------------------------------------------------- loading

  /** The status line. */
  datatype Status = NoStatus | SuccessStatus(text: string) | ErrorStatus(text: string)

  /** The texts loadRoles shows for a failed load. */
  const ServiceFailureText := "Extension service not responding. Try reloading the extension."
  const SignInText := "Authentication required. Click refresh to sign in."
  const FailurePrefix := "Failed to load roles: "

  /** loadRoles's reading of an error: service problems, then sign-in problems, then anything else. */
  function LoadFailureText(message: string): (t: string)
    ensures || t == ServiceFailureText
            || t == SignInText
            || StartsWith(t, FailurePrefix)
  {
    if Contains(message, "service worker") || Contains(message, "extension service") then
      ServiceFailureText
    else if Contains(message, "authentication") || Contains(message, "token") then
      SignInText
    else
      assert (FailurePrefix + message)[..|FailurePrefix|] == FailurePrefix;
      FailurePrefix + message
  }

  /** The error thrown for a reply that failed or came back without success. */
  function ReplyError(reply: Result<Background.Response, string>, fallback: string): Option<string> {
    match reply
    case Err(e) => Some(e)
    case Ok(response) => if response.success then None else Some(OrElse(response.error, Some(fallback)))
  }

  /** `response.data?.value || []`. */
  function Payload(reply: Result<Background.Response, string>): seq<Graph.ApiRole> {
    if reply.Ok? && reply.value.data.Some? then reply.value.data.value else []
  }

  /** Every role in the reply carries the name the background added. */
  predicate Named(reply: Result<Background.Response, string>) {
    forall i | 0 <= i < |Payload(reply)| :: Payload(reply)[i].roleName.Some?
  }

  /** What loadRoles ends with: the three lists and the number of roles loaded, or the text of the error shown. */
  datatype Load =
    | Loaded(eligible: seq<RoleView.Role>, active: seq<RoleView.Role>, expiring: seq<RoleView.Role>)
    | LoadFailed(text: string)

  /**
   * The error loadRoles throws once both replies have settled. A rejected
   * sendMessage rejects the `Promise.all` before either reply is inspected,
   * so it wins over an unsuccessful response; only then is the eligible
   * reply checked before the active one.
   */
  function LoadError(eligibleReply: Result<Background.Response, string>,
                     activeReply: Result<Background.Response, string>): (e: Option<string>)
    ensures e.None? <==> ReplyError(eligibleReply, "").None? && ReplyError(activeReply, "").None?
    ensures eligibleReply.Err? ==> e == Some(eligibleReply.error)
    ensures eligibleReply.Ok? && activeReply.Err? ==> e == Some(activeReply.error)
    ensures eligibleReply.Ok? && activeReply.Ok? && !eligibleReply.value.success ==>
      e == ReplyError(eligibleReply, "Failed to load eligible roles")
  {
    if eligibleReply.Err? then Some(eligibleReply.error)
    else if activeReply.Err? then Some(activeReply.error)
    else
      var eligibleError := ReplyError(eligibleReply, "Failed to load eligible roles");
      if eligibleError.Some? then eligibleError
      else ReplyError(activeReply, "Failed to load active roles")
  }

  /**
   * loadRoles, with `ready` what ensureBackgroundScript reported and the
   * replies to `listEligibleRoles` and `listActiveRoles`.
   */
  function LoadOutcome(ready: bool, eligibleReply: Result<Background.Response, string>,
                       activeReply: Result<Background.Response, string>, now: int): (o: Load)
    requires Named(eligibleReply) && Named(activeReply)
    ensures !ready ==> o.LoadFailed?
    ensures o.Loaded? ==> forall r | r in o.expiring :: r in o.active
  {
    var error := LoadError(eligibleReply, activeReply);
    if !ready then LoadFailed(LoadFailureText("Extension service is not available"))
    else if error.Some? then LoadFailed(LoadFailureText(error.value))
    else
      var active := RoleView.ConvertAll(Payload(activeReply), RoleView.Active);
      Loaded(RoleView.ConvertAll(Payload(eligibleReply), RoleView.Eligible), active, RoleView.ExpiringRoles(active, now))
  }

  /**
   * A successful load converts every listed role, keeps the order, and
   * lists as expiring exactly the active roles within the hour; a failed
   * load is reported with one of the three texts.
   */
  lemma LoadOutcomeShape(ready: bool, eligibleReply: Result<Background.Response, string>,
                         activeReply: Result<Background.Response, string>, now: int)
    requires Named(eligibleReply) && Named(activeReply)
    ensures var o := LoadOutcome(ready, eligibleReply, activeReply, now);
      o.Loaded? ==>
        && |o.eligible| == |Payload(eligibleReply)| && |o.active| == |Payload(activeReply)|
        && (forall i | 0 <= i < |o.eligible| :: o.eligible[i].details.EligibleDetails?
                                             && o.eligible[i].id == Payload(eligibleReply)[i].id)
        && (forall i | 0 <= i < |o.active| :: o.active[i].details.ActiveDetails?
                                           && o.active[i].id == Payload(activeReply)[i].id)
        && (forall r :: r in o.expiring <==>
              r in o.active && r.details.expiresAt.Some? && r.details.expiresAt.value - now <= 3600000)
    ensures var o := LoadOutcome(ready, eligibleReply, activeReply, now);
      o.LoadFailed? ==>
        || o.text == ServiceFailureText
        || o.text == SignInText
        || StartsWith(o.text, FailurePrefix)
    ensures LoadOutcome(ready, eligibleReply, activeReply, now).Loaded? <==>
      ready && ReplyError(eligibleReply, "").None? && ReplyError(activeReply, "").None?
  {
    var o := LoadOutcome(ready, eligibleReply, activeReply, now);
    if o.Loaded? {
      assert o.eligible == RoleView.ConvertAll(Payload(eligibleReply), RoleView.Eligible);
      assert o.active == RoleView.ConvertAll(Payload(activeReply), RoleView.Active);
      assert o.expiring == RoleView.ExpiringRoles(o.active, now);
      ConvertedCards(Payload(eligibleReply), RoleView.Eligible);
      ConvertedCards(Payload(activeReply), RoleView.Active);
      RoleView.ExpiringRolesExact(o.active, [], now);
    }
  }

  /** Each converted card keeps the id of its reply entry and has details of the requested kind. */
  lemma ConvertedCards(xs: seq<Graph.ApiRole>, kind: RoleView.RoleKind)
    requires forall i | 0 <= i < |xs| :: xs[i].roleName.Some?
    ensures var rs := RoleView.ConvertAll(xs, kind);
      && |rs| == |xs|
      && forall i | 0 <= i < |xs| ::
           (rs[i].details.EligibleDetails? <==> kind == RoleView.Eligible) && rs[i].id == xs[i].id
  {
    var rs := RoleView.ConvertAll(xs, kind);
    forall i | 0 <= i < |xs|
      ensures rs[i].id == xs[i].id
    {
      assert rs[i] == RoleView.ConvertApiRole(xs[i], kind);
    }
  }

  /**
   * An unsuccessful eligible reply does not hide a rejected active request:
   * the load fails with the rejection's message.
   */
  lemma RejectionWinsOverFailedResponse(eligibleReply: Result<Background.Response, string>,
                                        activeReply: Result<Background.Response, string>, now: int)
    requires Named(eligibleReply) && Named(activeReply)
    requires eligibleReply.Ok? && !eligibleReply.value.success && activeReply.Err?
    ensures LoadOutcome(true, eligibleReply, activeReply, now) == LoadFailed(LoadFailureText(activeReply.error))
  {
  }

  /** The rewritten connection error is read as a service problem. */
  lemma WorkerNotRespondingIsServiceFailure()
    ensures LoadFailureText(WorkerNotResponding) == ServiceFailureText
  {
    var head := "Extension service worker";
    assert head[10..24] == "service worker";
    assert WorkerNotResponding[10..24] == head[10..24];
    assert ContainsAt(WorkerNotResponding, "service worker", 10);
  }

  /** The characters `p[k]` and `s[i + k]` differ, so `p` does not occur at `i`. */
  lemma Mismatch(s: string, p: string, i: int, k: nat)
    requires 0 <= i && k < |p| && i + k < |s| && s[i + k] != p[k]
    ensures !ContainsAt(s, p, i)
  {
    if i + |p| <= |s| {
      assert s[i..i + |p|][k] == s[i + k];
    }
  }

  /** The letters of the unavailable-service message that the searched words need. */
  lemma UnavailableServiceLetters(m: string)
    requires m == "Extension service is not available"
    ensures LettersOfUnavailable(m)
  {
  }

  /** No "w" or "u", a lower-case "x" only as the second letter, after "E", and "o" only after "i" or "n". */
  predicate LettersOfUnavailable(m: string) {
    && |m| >= 22 && m[0] == 'E' && m[6] == 'i' && m[21] == 'n'
    && (forall j | 0 <= j < |m| :: m[j] != 'w' && m[j] != 'u')
    && (forall j | 2 <= j < |m| :: m[j] != 'x')
    && (forall j | 0 <= j < |m| && m[j] == 'o' :: j == 7 || j == 22)
  }

  /** None of the words loadRoles searches for occurs in a message with those letters. */
  lemma NoSearchedWord(m: string)
    requires LettersOfUnavailable(m)
    ensures !Contains(m, "service worker") && !Contains(m, "extension service")
    ensures !Contains(m, "authentication") && !Contains(m, "token")
  {
    var worker, service, auth, token := "service worker", "extension service", "authentication", "token";
    forall i | 0 <= i <= |m|
      ensures !ContainsAt(m, worker, i) && !ContainsAt(m, service, i)
      ensures !ContainsAt(m, auth, i) && !ContainsAt(m, token, i)
    {
      if i + 2 <= |m| {
        Mismatch(m, auth, i, 1);
        if m[i + 1] != 'x' {
          Mismatch(m, service, i, 1);
        } else {
          Mismatch(m, service, i, 0);
        }
        if m[i + 1] != 'o' {
          Mismatch(m, token, i, 1);
        } else {
          Mismatch(m, token, i, 0);
        }
      }
      if i + 9 <= |m| {
        Mismatch(m, worker, i, 8);
      }
    }
  }

  /**
   * The check is case-sensitive, so loadRoles's own message for an
   * unavailable service worker, which begins with a capital "Extension",
   * is not read as a service problem.
   */
  lemma UnavailableServiceNotRecognised(m: string)
    requires m == "Extension service is not available"
    ensures LoadFailureText(m) == "Failed to load roles: " + m
  {
    UnavailableServiceLetters(m);
    NoSearchedWord(m);
  }

  // ------------------------------------------------ activate / extend

  const JustificationRequired := "Administrative task" + " requiring elevated privileges" + " - Role activation" + " via PIM Helper extension"
  const JustificationDefault := "Role activation" + " requested" + " via PIM Helper extension"

  function JustificationFor(requiresJustification: bool): string {
    if requiresJustification then JustificationRequired else JustificationDefault
  }

  /** `this.eligibleRoles.find(r => r.id === roleId)`. */
  function FindRole(roles: seq<RoleView.Role>, id: string): (r: Option<RoleView.Role>)
    ensures r.None? <==> forall i | 0 <= i < |roles| :: roles[i].id != id
    ensures r.Some? ==> exists k | 0 <= k < |roles| :: roles[k] == r.value && r.value.id == id
                                                      && forall j | 0 <= j < k :: roles[j].id != id
  {
    if roles == [] then None
    else if roles[0].id == id then Some(roles[0])
    else
      var r := FindRole(roles[1..], id);
      assert forall i | 1 <= i < |roles| :: roles[i] == roles[1..][i - 1];
      r
  }

  /** The `activateRole` message handleActivateRole sends for a card. */
  function ActivationMessage(role: RoleView.Role): Background.Message {
    Background.ActivateRole(
      Graph.Target(Some(role.roleDefinitionId), role.principalId, Some(OrElse(role.directoryScopeId, Some("/"))), None),
      Some("PT1H"), Some(JustificationFor(role.requiresJustification)))
  }

  /** The `extendRole` message handleExtendRole sends: the assignment carries no schedule. */
  function ExtensionMessage(role: RoleView.Role): Background.Message {
    Background.ExtendRole(Graph.Target(Some(role.roleDefinitionId), role.principalId, role.directoryScopeId, None), None, None)
  }

  function ActivationStatus(roleName: string, reply: Result<Background.Response, string>): Status {
    var error := ReplyError(reply, "Activation failed");
    if error.None? then SuccessStatus("Successfully activated " + roleName)
    else ErrorStatus("Failed to activate " + roleName + ": " + error.value)
  }

  function ExtensionStatus(roleName: string, reply: Result<Background.Response, string>): Status {
    var error := ReplyError(reply, "Extension failed");
    if error.None? then SuccessStatus("Extended " + roleName + " for additional time")
    else ErrorStatus("Failed to extend " + roleName + ": " + error.value)
  }

  /**
   * The justification sent depends on the card's `requiresJustification`
   * flag and on nothing else, and the two texts differ; every activation
   * asks for one hour.
   */
  lemma ActivationJustification(a: RoleView.Role, b: RoleView.Role)
    ensures a.requiresJustification == b.requiresJustification ==>
      ActivationMessage(a).justification == ActivationMessage(b).justification
    ensures a.requiresJustification != b.requiresJustification ==>
      ActivationMessage(a).justification != ActivationMessage(b).justification
    ensures ActivationMessage(a).duration == Some("PT1H")
  {
    assert JustificationRequired[0] == 'A' && JustificationDefault[0] == 'R';
  }

  /**
   * The body the service worker posts for a card's activation asks for
   * one hour at the card's scope (the root when it has none) with the
   * chosen justification. It is posted exactly when the service worker
   * obtains a token.
   */
  lemma ActivationRequestPosted(role: RoleView.Role, s: Background.Tokens.Session, c: Graph.Cache, now: int, net: Background.Network)
    requires Truthy(role.principalId)
    ensures var o := Background.Handled(ActivationMessage(role), s, c, now, net);
      o.posted.Some? <==> Graph.TokenLookup(s, now, net.credentials).result.Ok?
    ensures var o := Background.Handled(ActivationMessage(role), s, c, now, net);
      o.posted.Some? ==>
      && o.posted.value.expiration == Graph.Expiration(Some("afterDuration"), Some("PT1H"), None)
      && o.posted.value.justification == JustificationFor(role.requiresJustification)
      && o.posted.value.directoryScopeId == OrElse(role.directoryScopeId, Some("/"))
      && o.posted.value.principalId == role.principalId
  {
  }

  /**
   * Since the popup sends the assignment without its schedule, the
   * extension always ends two hours after the moment of the request, not
   * two hours after the current end. It is posted exactly when the
   * service worker obtains a token.
   */
  lemma ExtensionCountsFromNow(role: RoleView.Role, s: Background.Tokens.Session, c: Graph.Cache, now: int, net: Background.Network)
    ensures var o := Background.Handled(ExtensionMessage(role), s, c, now, net);
      && (o.posted.Some? <==> Graph.TokenLookup(s, now, net.credentials).result.Ok?)
      && (o.posted.Some? ==> o.posted.value.expiration.endDateTime == Some(now + 7200000))
  {
  }

  // ------------------------------------------------------------ class

  class PopupState {
    var theme: string
    var eligibleRoles: seq<RoleView.Role>
    var activeRoles: seq<RoleView.Role>
    var expiringRoles: seq<RoleView.Role>
    var activatingRoles: set<string>
    var extendingRoles: set<string>
    var status: Status

    constructor ()
      ensures theme == "light" && status == NoStatus
      ensures eligibleRoles == [] && activeRoles == [] && expiringRoles == []
      ensures activatingRoles == {} && extendingRoles == {}
    {
      theme := "light";
      eligibleRoles := [];
      activeRoles := [];
      expiringRoles := [];
      activatingRoles := {};
      extendingRoles := {};
      status := NoStatus;
    }

    method CycleTheme()
      modifies this`theme
      ensures theme == NextTheme(old(theme))
    {
      var currentIndex := IndexIn(Themes, theme);
      theme := Themes[(currentIndex + 1) % |Themes|];
    }

    /**
     * sendMessage with `retries` retries; `attempts[j]` is how try j
     * ended. Returns the settled outcome and the number of tries made.
     */
    method SendMessage(attempts: seq<Attempt>, retries: nat) returns (r: Result<Background.Response, string>, tries: nat)
      requires retries < |attempts|
      ensures r == Sent(attempts, retries)
      ensures 1 <= tries <= retries + 1 && forall j | 0 <= j < tries - 1 :: attempts[j].Failed?
      ensures r.Ok? <==> attempts[tries - 1].Delivered?
    {
      var attempt := 0;
      while attempt <= retries
        invariant 0 <= attempt <= retries
        invariant forall j | 0 <= j < attempt :: attempts[j].Failed?
        invariant Sent(attempts, retries) == Sent(attempts[attempt..], retries - attempt)
        decreases retries - attempt
      {
        match attempts[attempt] {
          case Delivered(response) =>
            return Ok(OrEmpty(response)), attempt + 1;
          case Failed(message) =>
            if attempt == retries {
              return Err(ConnectionError(message)), attempt + 1;
            }
        }
        assert attempts[attempt + 1..] == attempts[attempt..][1..];
        attempt := attempt + 1;
      }
    }

    method LoadRoles(ready: bool, eligibleReply: Result<Background.Response, string>,
                     activeReply: Result<Background.Response, string>, now: int)
      requires Named(eligibleReply) && Named(activeReply)
      modifies this`eligibleRoles, this`activeRoles, this`expiringRoles, this`status
      ensures var o := LoadOutcome(ready, eligibleReply, activeReply, now);
        match o
        case LoadFailed(text) =>
          && status == ErrorStatus(text)
          && eligibleRoles == old(eligibleRoles) && activeRoles == old(activeRoles) && expiringRoles == old(expiringRoles)
        case Loaded(eligible, active, expiring) =>
          && eligibleRoles == eligible && activeRoles == active && expiringRoles == expiring
          && status == SuccessStatus("Loaded " + NatToString(|eligible| + |active|) + " roles")
    {
      status := NoStatus;
      var error: Option<string> := None;
      if !ready {
        error := Some("Extension service is not available");
      } else {
        error := LoadError(eligibleReply, activeReply);
      }
      if error.Some? {
        assert LoadOutcome(ready, eligibleReply, activeReply, now) == LoadFailed(LoadFailureText(error.value));
        status := ErrorStatus(LoadFailureText(error.value));
        return;
      }
      var eligible := RoleView.ConvertAll(Payload(eligibleReply), RoleView.Eligible);
      var active := RoleView.ConvertAll(Payload(activeReply), RoleView.Active);
      eligibleRoles := eligible;
      activeRoles := active;
      expiringRoles := RoleView.ExpiringRoles(active, now);
      assert LoadOutcome(ready, eligibleReply, activeReply, now) == Loaded(eligible, active, expiringRoles);
      status := SuccessStatus("Loaded " + NatToString(|eligible| + |active|) + " roles");
    }

    /**
     * handleActivateRole, with `reply` the settled outcome of its
     * sendMessage. `pending` is the in-flight set while the request is out.
     */
    method HandleActivateRole(roleId: string, roleName: string, reply: Result<Background.Response, string>)
      returns (sent: Option<Background.Message>, pending: set<string>)
      modifies this`activatingRoles, this`status
      ensures var found := FindRole(eligibleRoles, roleId);
        found.None? ==>
          sent.None? && activatingRoles == old(activatingRoles) && status == ErrorStatus("Role not found")
    ensures var found := FindRole(eligibleRoles, roleId);
        found.Some? ==>
          && sent == Some(ActivationMessage(found.value))
          && pending == old(activatingRoles) + {roleId}
          && activatingRoles == old(activatingRoles) - {roleId}
          && status == ActivationStatus(roleName, reply)
    {
      var role := FindRole(eligibleRoles, roleId);
      pending := activatingRoles;
      if role.None? {
        status := ErrorStatus("Role not found");
        return None, pending;
      }
      activatingRoles := activatingRoles + {roleId};
      status := NoStatus;
      pending := activatingRoles;
      sent := Some(ActivationMessage(role.value));
      status := ActivationStatus(roleName, reply);
      activatingRoles := activatingRoles - {roleId};
    }

    /**
     * handleExtendRole: the id is marked before the lookup, so it is also
     * unmarked when the role is not found.
     */
    method HandleExtendRole(roleId: string, roleName: string, reply: Result<Background.Response, string>)
      returns (sent: Option<Background.Message>, pending: set<string>)
      modifies this`extendingRoles, this`status
      ensures pending == old(extendingRoles) + {roleId}
      ensures extendingRoles == old(extendingRoles) - {roleId}
      ensures var found := FindRole(activeRoles + expiringRoles, roleId);
        && (found.None? ==> sent.None? && status == ErrorStatus("Failed to extend " + roleName + ": Role not found"))
        && (found.Some? ==> sent == Some(ExtensionMessage(found.value)) && status == ExtensionStatus(roleName, reply))
    {
      extendingRoles := extendingRoles + {roleId};
      status := NoStatus;
      pending := extendingRoles;
      var role := FindRole(activeRoles + expiringRoles, roleId);
      if role.None? {
        sent := None;
        status := ErrorStatus("Failed to extend " + roleName + ": Role not found");
      } else {
        sent := Some(ExtensionMessage(role.value));
        status := ExtensionStatus(roleName, reply);
      }
      extendingRoles := extendingRoles - {roleId};
    }
  }
}
