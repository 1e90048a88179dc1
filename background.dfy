/**
 * AzurePIMManager of background.js: the service worker's message handler,
 * which routes each popup request to the TokenManager or the
 * GraphAPIClient and turns the outcome, or the error thrown, into the
 * response object sent back.
 */
module Background {
  import opened Wrappers
  import opened Text
  import Tokens
  import Graph
  import Pkce

  /** The action names handleMessage dispatches on. */
  const KnownActions := {"getAuthStatus", "listEligibleRoles", "listActiveRoles", "activateRole", "extendRole", "clearAuth"}

  /**
   * The `action` of a runtime message, with the fields each action reads.
   * `Other` stands for a message whose action is not in `KnownActions`.
   */
  datatype Message =
    | GetAuthStatus
    | ListEligibleRoles
    | ListActiveRoles
    | ActivateRole(eligibility: Graph.Target, duration: Option<string>, justification: Option<string>)
    | ExtendRole(assignment: Graph.Target, additionalDuration: Option<string>, justification: Option<string>)
    | ClearAuth
    | Other(action: string)

  /**
   * The object passed to `sendResponse`; None is a field that is not set.
   * `result` is the JSON text Graph answered to a schedule request.
   */
  datatype Response = Response(
    success: bool,
    authenticated: Option<bool>,
    data: Option<seq<Graph.ApiRole>>,
    result: Option<string>,
    error: Option<string>,
    needsAuth: Option<bool>)

  /**
   * What the outside world answers while a message is handled: the token
   * endpoint and sign-in window, met by every token lookup, and the replies
   * of the Graph requests a message may cause: the preload of role
   * definitions, the schedule-instance listing, the batched definition
   * lookup, `/me`, and the POST of a schedule request.
   */
  datatype Network = Network(
    credentials: Graph.Credentials,
    preload: Result<seq<Graph.RoleDefinition>, string>,
    list: Result<seq<Graph.ApiRole>, string>,
    batch: Result<seq<Graph.RoleDefinition>, string>,
    me: Result<Option<string>, string>,
    post: Result<string, string>)

  /** Case-sensitive: a message mentioning "Token" but not "token" does not ask for sign-in. */
  predicate NeedsAuth(error: string) {
    Contains(error, "authentication") || Contains(error, "token")
  }

  /** The response for an error thrown while handling a message. */
  function Failure(error: string): Response {
    Response(false, None, None, None, Some(error), Some(NeedsAuth(error)))
  }

  const UnknownAction := Response(false, None, None, None, Some("Unknown action"), None)

  function Succeeded(authenticated: Option<bool>, data: Option<seq<Graph.ApiRole>>, result: Option<string>): Response {
    Response(true, authenticated, data, result, None, None)
  }

  /** The token session and role cache after a message, the schedule request posted, and the response. */
  datatype Outcome = Outcome(session: Tokens.Session, cache: Graph.Cache, posted: Option<Graph.RequestBody>, response: Response)

  function Listed(s: Tokens.Session, c: Graph.Cache, now: int, net: Network, active: bool): Outcome {
    var l := Graph.ListedWith(Graph.Client(s, c), now, net.credentials, net.preload, net.list, net.batch, active);
    Outcome(l.client.session, l.client.cache, None,
      if l.result.Ok? then Succeeded(None, Some(l.result.value), None) else Failure(l.result.error))
  }

  function Answered(c: Graph.Cache, x: Graph.Submission): Outcome {
    Outcome(x.session, c, x.posted, if x.result.Ok? then Succeeded(None, None, Some(x.result.value)) else Failure(x.result.error))
  }

  /** handleMessage */
  function Handled(msg: Message, s: Tokens.Session, c: Graph.Cache, now: int, net: Network): (o: Outcome)
    ensures o.cache != c ==> msg.ListEligibleRoles? || msg.ListActiveRoles?
  {
    match msg
    case GetAuthStatus => Outcome(s, c, None, Succeeded(Some(!Tokens.Expired(s, now)), None, None))
    case ListEligibleRoles => Listed(s, c, now, net, false)
    case ListActiveRoles => Listed(s, c, now, net, true)
    case ActivateRole(eligibility, duration, justification) =>
      Answered(c, Graph.ActivatedWith(s, eligibility, duration, justification, now, net.credentials, net.me, net.post))
    case ExtendRole(assignment, additionalDuration, justification) =>
      Answered(c, Graph.ExtendedWith(s, assignment, additionalDuration, justification, now, net.credentials, net.post))
    case ClearAuth => Outcome(Tokens.Cleared(s), c, None, Succeeded(None, None, None))
    case Other(_) => Outcome(s, c, None, UnknownAction)
  }

  // ------------------------------------------------------------ lemmas

  /**
   * Every response has one of three shapes: a success without error, an
   * unknown action, or a thrown error with `needsAuth` computed from its
   * message.
   */
  lemma ResponseShape(msg: Message, s: Tokens.Session, c: Graph.Cache, now: int, net: Network)
    ensures var r := Handled(msg, s, c, now, net).response;
      || (r.success && r.error.None? && r.needsAuth.None?)
      || (r == UnknownAction && msg.Other?)
      || (!r.success && r.error.Some? && r.needsAuth == Some(NeedsAuth(r.error.value)))
  {
  }

  /** Only the three actions that read data report `success` with a payload of theirs. */
  lemma ResponsePayloads(msg: Message, s: Tokens.Session, c: Graph.Cache, now: int, net: Network)
    ensures var r := Handled(msg, s, c, now, net).response;
      && (r.authenticated.Some? <==> msg.GetAuthStatus?)
      && (msg.GetAuthStatus? ==> r.authenticated == Some(!Tokens.Expired(s, now)))
      && (r.data.Some? ==> msg.ListEligibleRoles? || msg.ListActiveRoles?)
      && (r.result.Some? ==> msg.ActivateRole? || msg.ExtendRole?)
  {
  }

  /** An unknown action answers `Unknown action` and changes nothing. */
  lemma UnknownActionChangesNothing(action: string, s: Tokens.Session, c: Graph.Cache, now: int, net: Network)
    requires action !in KnownActions
    ensures Handled(Other(action), s, c, now, net) == Outcome(s, c, None, UnknownAction)
  {
  }

  /**
   * `clearAuth` clears the tokens but keeps the role-definition cache, and
   * the next token request must authenticate interactively.
   */
  lemma ClearAuthKeepsCache(s: Tokens.Session, c: Graph.Cache, now: int, net: Network, later: int)
    ensures Handled(ClearAuth, s, c, now, net).cache == c
    ensures Handled(ClearAuth, s, c, now, net).session == Tokens.Cleared(s)
    ensures Tokens.RouteFor(Handled(ClearAuth, s, c, now, net).session, later) == Tokens.Authenticate
  {
  }

  /**
   * A POST is made only by activateRole and extendRole, the posted body is
   * the one the client builds, and with a valid token it is always made
   * (for an activation, whenever `/me` is not needed or answers).
   */
  lemma PostedBodies(msg: Message, s: Tokens.Session, c: Graph.Cache, now: int, net: Network)
    ensures var o := Handled(msg, s, c, now, net);
      && (o.posted.Some? ==> msg.ActivateRole? || msg.ExtendRole?)
      && (msg.ExtendRole? && o.posted.Some? ==>
           o.posted.value == Graph.Extension(msg.assignment, msg.additionalDuration, msg.justification, now))
      && (msg.ExtendRole? && !Tokens.Expired(s, now) ==>
           o.posted == Some(Graph.Extension(msg.assignment, msg.additionalDuration, msg.justification, now)))
      && (msg.ActivateRole? && !Tokens.Expired(s, now) ==>
           o.posted == (var b := Graph.Activation(msg.eligibility, net.me, msg.duration, msg.justification, now);
                        if b.Ok? then Some(b.value) else None))
  {
    match msg
    case ExtendRole(t, d, j) =>
      Graph.SubmissionBodies(s, t, d, j, now, net.credentials, net.me, net.post);
    case ActivateRole(t, d, j) =>
      Graph.SubmissionBodies(s, t, d, j, now, net.credentials, net.me, net.post);
    case _ =>
  }

  /**
   * The token session changes only through `clearAuth` or through a token
   * lookup of a Graph request: the status query and an unknown action leave
   * it as it is, and with a valid token no message but `clearAuth` changes it.
   */
  lemma TokensChangeOnlyByLookupOrClearAuth(msg: Message, s: Tokens.Session, c: Graph.Cache, now: int, net: Network)
    ensures msg.GetAuthStatus? || msg.Other? ==> Handled(msg, s, c, now, net).session == s
    ensures !msg.ClearAuth? && !Tokens.Expired(s, now) ==> Handled(msg, s, c, now, net).session == s
  {
    if !msg.ClearAuth? && !Tokens.Expired(s, now) {
      match msg
      case ListEligibleRoles =>
        Graph.ListingWithValidToken(s, c, now, net.credentials, net.preload, net.list, net.batch, false);
      case ListActiveRoles =>
        Graph.ListingWithValidToken(s, c, now, net.credentials, net.preload, net.list, net.batch, true);
      case ExtendRole(t, d, j) =>
        Graph.SubmissionBodies(s, t, d, j, now, net.credentials, net.me, net.post);
      case ActivateRole(t, d, j) =>
        Graph.SubmissionBodies(s, t, d, j, now, net.credentials, net.me, net.post);
      case _ =>
    }
  }

  /**
   * An expired token whose refresh the endpoint rejects: with a fresh
   * cache, a listing fails with the refresh error and leaves the tokens
   * cleared; an extension fails the same way and posts nothing.
   */
  lemma RejectedRefreshReachesPopup(msg: Message, s: Tokens.Session, c: Graph.Cache, now: int, net: Network)
    requires Tokens.Expired(s, now) && Truthy(s.refreshToken)
    requires net.credentials.refreshReply.Answered? && !net.credentials.refreshReply.ok
    requires (Graph.CacheFresh(c, now) && (msg.ListEligibleRoles? || msg.ListActiveRoles?)) || msg.ExtendRole?
    ensures Handled(msg, s, c, now, net)
      == Outcome(Tokens.Cleared(s), c, None, Failure("Token refresh failed: " + Tokens.ReplyError(net.credentials.refreshReply)))
  {
  }

  /**
   * With a stale cache, the preload swallows a rejected refresh, and the
   * listing request that follows finds the tokens cleared and starts an
   * interactive sign-in; when that fails, its error is the response.
   */
  lemma RejectedRefreshDuringPreload(msg: Message, s: Tokens.Session, c: Graph.Cache, now: int, net: Network)
    requires Tokens.Expired(s, now) && Truthy(s.refreshToken)
    requires net.credentials.refreshReply.Answered? && !net.credentials.refreshReply.ok
    requires !Graph.CacheFresh(c, now) && (msg.ListEligibleRoles? || msg.ListActiveRoles?)
    ensures var cr := net.credentials;
      var a := Tokens.Authenticated(Tokens.Cleared(s), now, Pkce.Picked(cr.choices), cr.redirect, cr.exchangeReply);
      a.result.Err? ==> Handled(msg, s, c, now, net) == Outcome(a.session, c, None, Failure(a.result.error))
  {
    Tokens.ClearedStaysCleared(s, now);
  }

  /**
   * An expired token whose refresh succeeds with a lifetime beyond the
   * one-minute margin is refreshed once: the message is then handled
   * exactly as if it had arrived with the refreshed tokens.
   */
  lemma RefreshHappensOnce(msg: Message, s: Tokens.Session, c: Graph.Cache, now: int, net: Network)
    requires msg.ListEligibleRoles? || msg.ListActiveRoles? || msg.ActivateRole? || msg.ExtendRole?
    requires Tokens.Expired(s, now) && Truthy(s.refreshToken)
    requires var r := net.credentials.refreshReply;
      r.Answered? && r.ok && Truthy(r.accessToken) && r.expiresIn > 60 && now + r.expiresIn * 1000 != 0
    ensures var s1 := Tokens.Refreshed(s, now, net.credentials.refreshReply).session;
      && !Tokens.Expired(s1, now)
      && Handled(msg, s, c, now, net) == Handled(msg, s1, c, now, net)
  {
    var s1 := Tokens.Refreshed(s, now, net.credentials.refreshReply).session;
    assert !Tokens.Expired(s1, now);
  }

  /**
   * When no character pair of `p` can begin `w`, the word occurs in `p + d`
   * exactly when it occurs in `d`.
   */
  lemma ContainsAfterPrefix(p: string, d: string, w: string)
    requires |w| >= 2
    requires forall i | 0 <= i < |p| :: p[i] == w[0] ==> i + 1 < |p| && p[i + 1] != w[1]
    ensures Contains(p + d, w) <==> Contains(d, w)
  {
    if Contains(d, w) {
      ContainsExtended(d, w, p, "");
      assert p + d + "" == p + d;
    }
    if Contains(p + d, w) {
      var s := p + d;
      var i :| 0 <= i <= |s| && ContainsAt(s, w, i);
      assert s[i] == w[0] && s[i + 1] == w[1] by {
        assert s[i..i + |w|][0] == s[i] && s[i..i + |w|][1] == s[i + 1];
      }
      assert i >= |p|;
      assert d[i - |p|..i - |p| + |w|] == s[i..i + |w|];
      assert ContainsAt(d, w, i - |p|);
    }
  }

  /** `needsAuth` of a prefixed message depends only on the part after a prefix that cannot start either word. */
  lemma NeedsAuthAfterPrefix(p: string, d: string)
    requires forall i | 0 <= i < |p| :: p[i] == 'a' ==> i + 1 < |p| && p[i + 1] != 'u'
    requires forall i | 0 <= i < |p| :: p[i] == 't' ==> i + 1 < |p| && p[i + 1] != 'o'
    ensures NeedsAuth(p + d) <==> NeedsAuth(d)
  {
    ContainsAfterPrefix(p, d, "authentication");
    ContainsAfterPrefix(p, d, "token");
  }

  /**
   * A rejected refresh or code exchange reaches the popup with `needsAuth`
   * set only when the endpoint's own error text says "authentication" or
   * "token" in lower case: the capitalised "Token" of the prefix does not
   * count.
   */
  lemma TokenFailuresNeedAuthOnlyFromReason(reason: string)
    ensures Failure("Token refresh failed: " + reason).needsAuth == Some(NeedsAuth(reason))
    ensures Failure("Token exchange failed: " + reason).needsAuth == Some(NeedsAuth(reason))
    ensures Failure("Auth error: " + reason).needsAuth == Some(NeedsAuth(reason))
  {
    var refresh := "Token refresh failed: ";
    assert forall i | 0 <= i < |refresh| :: refresh[i] != 't';
    assert forall i | 0 <= i < |refresh| :: refresh[i] == 'a' ==> i + 1 < |refresh| && refresh[i + 1] != 'u';
    NeedsAuthAfterPrefix(refresh, reason);
    var exchange := "Token exchange failed: ";
    assert forall i | 0 <= i < |exchange| :: exchange[i] != 't';
    assert forall i | 0 <= i < |exchange| :: exchange[i] == 'a' ==> i + 1 < |exchange| && exchange[i + 1] != 'u';
    NeedsAuthAfterPrefix(exchange, reason);
    var auth := "Auth error: ";
    assert forall i | 0 <= i < |auth| :: auth[i] != 'a';
    assert forall i | 0 <= i < |auth| :: auth[i] == 't' ==> i + 1 < |auth| && auth[i + 1] != 'o';
    NeedsAuthAfterPrefix(auth, reason);
  }

  // ------------------------------------------------------------- class

  class PimManager {
    const tokens: Tokens.TokenManager
    const graph: Graph.GraphClient

    /** The GraphAPIClient asks this manager's TokenManager for its tokens. */
    predicate Valid()
      reads this
    {
      graph.tokens == tokens
    }

    /** The constructor and init: a fresh client pair, with the tokens loaded from storage. */
    constructor (storage: map<string, Tokens.Stored>)
      ensures Valid()
      ensures fresh(tokens) && fresh(graph)
      ensures tokens.State() == Tokens.Loaded(Tokens.Session(None, None, None, storage))
      ensures graph.State() == Graph.Cache(map[], 0)
    {
      var t := new Tokens.TokenManager(storage);
      tokens := t;
      graph := new Graph.GraphClient(t);
      new;
      tokens.LoadStoredTokens();
    }

    method HandleMessage(msg: Message, now: int, net: Network) returns (posted: Option<Graph.RequestBody>, response: Response)
      requires Valid()
      modifies tokens, graph
      ensures Outcome(tokens.State(), graph.State(), posted, response)
        == Handled(msg, old(tokens.State()), old(graph.State()), now, net)
    {
      posted := None;
      match msg {
        case GetAuthStatus =>
          response := Succeeded(Some(!tokens.IsTokenExpired(now)), None, None);
        case ListEligibleRoles =>
          var r := graph.ListEligibleRoles(now, net.credentials, net.preload, net.list, net.batch);
          response := if r.Ok? then Succeeded(None, Some(r.value), None) else Failure(r.error);
        case ListActiveRoles =>
          var r := graph.ListActiveRoles(now, net.credentials, net.preload, net.list, net.batch);
          response := if r.Ok? then Succeeded(None, Some(r.value), None) else Failure(r.error);
        case ActivateRole(eligibility, duration, justification) =>
          var r;
          posted, r := graph.ActivateRole(eligibility, duration, justification, now, net.credentials, net.me, net.post);
          response := if r.Ok? then Succeeded(None, None, Some(r.value)) else Failure(r.error);
        case ExtendRole(assignment, additionalDuration, justification) =>
          var r;
          posted, r := graph.ExtendRole(assignment, additionalDuration, justification, now, net.credentials, net.post);
          response := if r.Ok? then Succeeded(None, None, Some(r.value)) else Failure(r.error);
        case ClearAuth =>
          tokens.ClearTokens();
          response := Succeeded(None, None, None);
        case Other(_) =>
          response := UnknownAction;
      }
    }
  }
}
