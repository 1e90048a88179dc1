/**
 * GraphAPIClient of background.js: the Microsoft Graph role-definition
 * cache, the enrichment of role records with display names, the filter on
 * active assignments, the error text of a failed request and the bodies of
 * the `selfActivate` and `selfExtend` schedule requests.
 *
 * Each Graph request is represented by its reply: `Ok` with the decoded
 * payload, or `Err` with the message the request throws. As in makeRequest,
 * every request first asks the TokenManager for a valid token, which may
 * refresh, clear or re-acquire the tokens; the request is only made when
 * that lookup succeeds.
 */
module Graph {
  import opened Wrappers
  import opened Text
  import Seqs
  import Tokens
  import Pkce

  /** The role-definition cache lives for one hour. */
  const CacheTtl := 3600000
  const GraphBaseUrl := "https://graph.microsoft.com/v1.0"
  /** extendRole always moves the end of the assignment by two hours. */
  const ExtensionIncrement := 7200000

  /** `scheduleInfo.expiration` of a schedule instance or request. */
  datatype Expiration = Expiration(kind: Option<string>, duration: Option<string>, endDateTime: Option<int>)

  datatype ScheduleInfo = ScheduleInfo(startDateTime: Option<int>, expiration: Option<Expiration>)

  /**
   * An eligibility or assignment schedule instance as Graph returns it,
   * together with the `roleName` the client adds. Instants are
   * milliseconds since the epoch; None is an absent field.
   */
  datatype ApiRole = ApiRole(
    id: string,
    roleDefinitionId: string,
    principalId: Option<string>,
    directoryScopeId: Option<string>,
    startDateTime: Option<int>,
    endDateTime: Option<int>,
    scheduleInfo: Option<ScheduleInfo>,
    roleName: Option<string>,
    requiresJustification: Option<bool>)

  /** An entry of `/roleManagement/directory/roleDefinitions`. */
  datatype RoleDefinition = RoleDefinition(id: string, displayName: Option<string>, description: Option<string>)

  datatype CachedDefinition = CachedDefinition(displayName: Option<string>, description: Option<string>)

  /** The cache `Map` and the instant of the last complete preload. */
  datatype Cache = Cache(definitions: map<string, CachedDefinition>, lastUpdate: int)

  /** The body of a non-OK response: not JSON, the JSON `null`, or any other JSON value. */
  datatype ErrorBody =
    | Unparsable
    | JsonNull
    | JsonValue(errorMessage: Option<string>, errorDescription: Option<string>)

  // ------------------------------------------------------------ requests

  /** makeRequest: absolute URLs are used as they are, paths are appended to the Graph base. */
  function RequestUrl(endpoint: string): (url: string)
    ensures StartsWith(endpoint, "http") ==> url == endpoint
    ensures !StartsWith(endpoint, "http") ==> StartsWith(url, GraphBaseUrl) && url[|GraphBaseUrl|..] == endpoint
  {
    if StartsWith(endpoint, "http") then endpoint else GraphBaseUrl + endpoint
  }

  /** The message makeRequest throws for a non-OK response. */
  function ErrorMessage(status: int, statusText: string, body: ErrorBody): (msg: string)
    ensures msg != ""
  {
    match body
    case JsonValue(message, description) =>
      if Truthy(message) then message.value
      else if Truthy(description) then description.value
      else "API request failed"
    case _ => "HTTP " + IntToString(status) + ": " + statusText
  }

  /**
   * Graph's `error.message` wins over `error_description`; a body that is
   * not a JSON object with an error falls back to the status line, or to a
   * fixed text when it is JSON without either field.
   */
  lemma ErrorMessagePriority(status: int, statusText: string, body: ErrorBody)
    ensures body.JsonValue? && Truthy(body.errorMessage) ==> ErrorMessage(status, statusText, body) == body.errorMessage.value
    ensures body.JsonValue? && !Truthy(body.errorMessage) && Truthy(body.errorDescription) ==>
      ErrorMessage(status, statusText, body) == body.errorDescription.value
    ensures body.JsonValue? && !Truthy(body.errorMessage) && !Truthy(body.errorDescription) ==>
      ErrorMessage(status, statusText, body) == "API request failed"
    ensures !body.JsonValue? ==> ErrorMessage(status, statusText, body) == "HTTP " + IntToString(status) + ": " + statusText
    ensures !body.JsonValue? ==> StartsWith(ErrorMessage(status, statusText, body), "HTTP ")
  {
  }

  // --------------------------------------------------------------- cache

  function Entry(d: RoleDefinition): CachedDefinition {
    CachedDefinition(d.displayName, d.description)
  }

  /** `defs.forEach(role => cache.set(role.id, ...))` applied to `m`. */
  function Put(m: map<string, CachedDefinition>, defs: seq<RoleDefinition>): (r: map<string, CachedDefinition>)
    ensures forall k | k in m :: k in r
  {
    if defs == [] then m
    else Put(m, defs[..|defs| - 1])[defs[|defs| - 1].id := Entry(defs[|defs| - 1])]
  }

  /** After the `set` calls, the keys are the old keys and the ids of the definitions. */
  lemma {:induction false} PutKeys(m: map<string, CachedDefinition>, defs: seq<RoleDefinition>, k: string)
    ensures k in Put(m, defs) <==> k in m || exists j | 0 <= j < |defs| :: defs[j].id == k
  {
    if defs != [] {
      var init := defs[..|defs| - 1];
      PutKeys(m, init, k);
      if exists j | 0 <= j < |defs| :: defs[j].id == k {
        var j :| 0 <= j < |defs| && defs[j].id == k;
        if j < |defs| - 1 {
          assert init[j].id == k;
        }
      }
      assert forall j | 0 <= j < |init| :: init[j] == defs[j];
    }
  }

  /** The entry under an id comes from the last definition with that id. */
  lemma {:induction false} PutLastWins(m: map<string, CachedDefinition>, defs: seq<RoleDefinition>, j: int)
    requires 0 <= j < |defs|
    requires forall i | j < i < |defs| :: defs[i].id != defs[j].id
    ensures defs[j].id in Put(m, defs) && Put(m, defs)[defs[j].id] == Entry(defs[j])
  {
    if j < |defs| - 1 {
      var init := defs[..|defs| - 1];
      assert init[j] == defs[j];
      PutLastWins(m, init, j);
    }
  }

  /** Ids no definition carries keep their old entry, or stay absent. */
  lemma {:induction false} PutElsewhere(m: map<string, CachedDefinition>, defs: seq<RoleDefinition>, k: string)
    requires forall j | 0 <= j < |defs| :: defs[j].id != k
    ensures k in Put(m, defs) <==> k in m
    ensures k in m ==> Put(m, defs)[k] == m[k]
  {
    if defs != [] {
      var init := defs[..|defs| - 1];
      assert forall j | 0 <= j < |init| :: init[j] == defs[j];
      PutElsewhere(m, init, k);
    }
  }

  /** A preload is skipped while the cache is non-empty and younger than one hour. */
  predicate CacheFresh(c: Cache, now: int) {
    |c.definitions| > 0 && now - c.lastUpdate < CacheTtl
  }

  /** preloadRoleDefinitions: a failed request is logged and leaves the cache as it was. */
  function Preloaded(c: Cache, now: int, reply: Result<seq<RoleDefinition>, string>): (r: Cache)
    ensures r == c || r.lastUpdate == now
    ensures r != c ==> !CacheFresh(c, now) && reply.Ok?
  {
    if CacheFresh(c, now) || reply.Err? then c
    else Cache(Put(map[], reply.value), now)
  }

  /**
   * A successful preload replaces the cache wholesale: its keys are exactly
   * the ids in the reply, each with the last definition under that id, and
   * the timestamp becomes `now`.
   */
  lemma PreloadReplaces(c: Cache, now: int, defs: seq<RoleDefinition>)
    requires !CacheFresh(c, now)
    ensures Preloaded(c, now, Ok(defs)).lastUpdate == now
    ensures forall k :: k in Preloaded(c, now, Ok(defs)).definitions <==> exists j | 0 <= j < |defs| :: defs[j].id == k
    ensures forall j | 0 <= j < |defs| && (forall i | j < i < |defs| :: defs[i].id != defs[j].id) ::
      Preloaded(c, now, Ok(defs)).definitions[defs[j].id] == Entry(defs[j])
  {
    forall k {
      PutKeys(map[], defs, k);
    }
    forall j | 0 <= j < |defs| && (forall i | j < i < |defs| :: defs[i].id != defs[j].id) {
      PutLastWins(map[], defs, j);
    }
  }

  /** A fresh cache and a failed request both leave cache and timestamp untouched. */
  lemma PreloadNoChange(c: Cache, now: int, reply: Result<seq<RoleDefinition>, string>)
    requires CacheFresh(c, now) || reply.Err?
    ensures Preloaded(c, now, reply) == c
  {
  }

  /** After a successful non-empty preload, later preloads within the hour are skipped. */
  lemma PreloadThenFresh(c: Cache, now: int, defs: seq<RoleDefinition>, later: int)
    requires !CacheFresh(c, now) && |defs| > 0 && now <= later < now + CacheTtl
    ensures CacheFresh(Preloaded(c, now, Ok(defs)), later)
  {
    PutKeys(map[], defs, defs[0].id);
    assert defs[0].id in Preloaded(c, now, Ok(defs)).definitions;
  }

  /** What fetchRoleDefinition did: the cache after it, whether it sent a request, and the name it returned. */
  datatype Lookup = Lookup(cache: Cache, requested: bool, name: Option<string>)

  /**
   * fetchRoleDefinition: a cached id is answered from the cache; otherwise
   * the definition is requested and cached, and a failed request answers
   * with the id itself.
   */
  function Fetched(c: Cache, id: string, reply: Result<RoleDefinition, string>): Lookup {
    if id in c.definitions then Lookup(c, false, c.definitions[id].displayName)
    else if reply.Err? then Lookup(c, true, Some(id))
    else
      var d := reply.value;
      var description := if Truthy(d.description) then d.description else Some("");
      Lookup(c.(definitions := c.definitions[id := CachedDefinition(d.displayName, description)]), true, d.displayName)
  }

  /**
   * A cache hit sends nothing; a miss is cached under the requested id
   * (not under the id in the reply) unless the request fails, in which
   * case the cache is unchanged and the id is the name.
   */
  lemma FetchedCaches(c: Cache, id: string, reply: Result<RoleDefinition, string>)
    ensures Fetched(c, id, reply).requested <==> id !in c.definitions
    ensures Fetched(c, id, reply).cache.lastUpdate == c.lastUpdate
    ensures id !in c.definitions && reply.Ok? ==>
      && id in Fetched(c, id, reply).cache.definitions
      && Fetched(c, id, reply).cache.definitions[id].displayName == reply.value.displayName
      && Fetched(c, id, reply).name == reply.value.displayName
    ensures id !in c.definitions && reply.Err? ==> Fetched(c, id, reply) == Lookup(c, true, Some(id))
  {
  }

  // ---------------------------------------------------------- enrichment

  function RoleIds(roles: seq<ApiRole>): (ids: seq<string>)
    ensures |ids| == |roles| && forall i | 0 <= i < |roles| :: ids[i] == roles[i].roleDefinitionId
  {
    seq(|roles|, i requires 0 <= i < |roles| => roles[i].roleDefinitionId)
  }

  /** The distinct role-definition ids of `roles` that the cache lacks, in order of first occurrence. */
  function MissingIds(roles: seq<ApiRole>, defs: map<string, CachedDefinition>): seq<string> {
    Seqs.Filter(Seqs.Dedup(RoleIds(roles)), id => id !in defs)
  }

  /** One OData clause `id eq '<id>'`. */
  function Clause(id: string): string {
    "id eq '" + id + "'"
  }

  function Clauses(ids: seq<string>): (cs: seq<string>)
    ensures |cs| == |ids| && forall i | 0 <= i < |ids| :: cs[i] == Clause(ids[i])
  {
    seq(|ids|, i requires 0 <= i < |ids| => Clause(ids[i]))
  }

  /** The `$filter` of the batched lookup. */
  function FilterQuery(ids: seq<string>): string {
    Join(Clauses(ids), " or ")
  }

  /** Different ids give different clauses. */
  lemma ClauseInjective(a: string, b: string)
    requires Clause(a) == Clause(b)
    ensures a == b
  {
    assert a == Clause(a)[7..|Clause(a)| - 1];
    assert b == Clause(b)[7..|Clause(b)| - 1];
  }

  /**
   * The batch asks for each id that some role carries and the cache lacks,
   * exactly once: the ids are distinct and so are their clauses.
   */
  lemma MissingIdsExact(roles: seq<ApiRole>, defs: map<string, CachedDefinition>)
    ensures Seqs.Distinct(MissingIds(roles, defs))
    ensures Seqs.Distinct(Clauses(MissingIds(roles, defs)))
    ensures forall id :: id in MissingIds(roles, defs) <==>
      (id !in defs && exists i | 0 <= i < |roles| :: roles[i].roleDefinitionId == id)
  {
    var ids := Seqs.Dedup(RoleIds(roles));
    Seqs.FilterDistinct(ids, id => id !in defs);
    var missing := MissingIds(roles, defs);
    var cs := Clauses(missing);
    forall i, j | 0 <= i < j < |cs|
      ensures cs[i] != cs[j]
    {
      if cs[i] == cs[j] {
        ClauseInjective(missing[i], missing[j]);
      }
    }
    forall id
      ensures id in missing <==> (id !in defs && exists i | 0 <= i < |roles| :: roles[i].roleDefinitionId == id)
    {
      if id !in defs && exists i | 0 <= i < |roles| :: roles[i].roleDefinitionId == id {
        var i :| 0 <= i < |roles| && roles[i].roleDefinitionId == id;
        assert RoleIds(roles)[i] == id;
      }
      if id in missing {
        assert id in RoleIds(roles);
      }
    }
  }

  /** `cache.get(id)?.displayName || id`. */
  function NameFor(defs: map<string, CachedDefinition>, id: string): (name: string)
    ensures id !in defs ==> name == id
    ensures id in defs && Truthy(defs[id].displayName) ==> name == defs[id].displayName.value
    ensures id in defs && !Truthy(defs[id].displayName) ==> name == id
  {
    if id in defs && Truthy(defs[id].displayName) then defs[id].displayName.value else id
  }

  /** Every role with its `roleName` set from the cache. */
  function WithNames(roles: seq<ApiRole>, defs: map<string, CachedDefinition>): (named: seq<ApiRole>)
    ensures |named| == |roles|
    ensures forall i | 0 <= i < |roles| :: named[i] == roles[i].(roleName := Some(NameFor(defs, roles[i].roleDefinitionId)))
  {
    seq(|roles|, i requires 0 <= i < |roles| => roles[i].(roleName := Some(NameFor(defs, roles[i].roleDefinitionId))))
  }

  /** What enrichRolesWithNames did: the cache after it, the batch filter it sent (if any), and the named roles. */
  datatype Enrichment = Enrichment(cache: Cache, filter: Option<string>, roles: seq<ApiRole>)

  function Enriched(c: Cache, roles: seq<ApiRole>, reply: Result<seq<RoleDefinition>, string>): (e: Enrichment)
    ensures e.cache.lastUpdate == c.lastUpdate
    ensures forall k | k in c.definitions :: k in e.cache.definitions
  {
    var missing := MissingIds(roles, c.definitions);
    if |missing| == 0 then
      Enrichment(c, None, WithNames(roles, c.definitions))
    else
      var defs := if reply.Ok? then Put(c.definitions, reply.value) else c.definitions;
      Enrichment(c.(definitions := defs), Some(FilterQuery(missing)), WithNames(roles, defs))
  }

  /**
   * Enrichment keeps length and order and changes nothing but `roleName`,
   * which is the cached display name or else the raw definition id; it
   * never moves the preload timestamp.
   */
  lemma EnrichedShape(c: Cache, roles: seq<ApiRole>, reply: Result<seq<RoleDefinition>, string>)
    ensures var e := Enriched(c, roles, reply);
      && |e.roles| == |roles|
      && e.cache.lastUpdate == c.lastUpdate
      && forall i | 0 <= i < |roles| ::
        && e.roles[i].(roleName := roles[i].roleName) == roles[i]
        && e.roles[i].roleName.Some?
        && (e.roles[i].roleName.value == roles[i].roleDefinitionId
            || (roles[i].roleDefinitionId in e.cache.definitions
                && e.roles[i].roleName == e.cache.definitions[roles[i].roleDefinitionId].displayName))
  {
  }

  /** No request is made exactly when every role's definition is cached; the cache is then unchanged. */
  lemma EnrichedRequestsOnlyMissing(c: Cache, roles: seq<ApiRole>, reply: Result<seq<RoleDefinition>, string>)
    ensures Enriched(c, roles, reply).filter.None? <==>
      forall i | 0 <= i < |roles| :: roles[i].roleDefinitionId in c.definitions
    ensures Enriched(c, roles, reply).filter.None? ==> Enriched(c, roles, reply).cache == c
    ensures Enriched(c, roles, reply).filter.Some? ==>
      Enriched(c, roles, reply).filter.value == FilterQuery(MissingIds(roles, c.definitions))
  {
    MissingIdsExact(roles, c.definitions);
    var missing := MissingIds(roles, c.definitions);
    if |missing| > 0 {
      assert missing[0] in missing;
    }
  }

  /** A failed batch request leaves the cache as it was; the uncached roles are then named by their ids. */
  lemma EnrichedFailureKeepsCache(c: Cache, roles: seq<ApiRole>, error: string)
    ensures Enriched(c, roles, Err(error)).cache == c
    ensures forall i | 0 <= i < |roles| && roles[i].roleDefinitionId !in c.definitions ::
      Enriched(c, roles, Err(error)).roles[i].roleName == Some(roles[i].roleDefinitionId)
  {
  }

  // ------------------------------------------------------- active roles

  /** An assignment is active when it has started (or has no start) and has not ended (or has no end). */
  predicate ActiveAt(a: ApiRole, now: int) {
    (a.startDateTime.None? || a.startDateTime.value <= now)
    && (a.endDateTime.None? || a.endDateTime.value > now)
  }

  function ActiveAssignments(xs: seq<ApiRole>, now: int): (r: seq<ApiRole>)
    ensures |r| <= |xs|
    ensures forall i | 0 <= i < |r| :: r[i] in xs && ActiveAt(r[i], now)
  {
    Seqs.Filter(xs, a => ActiveAt(a, now))
  }

  /**
   * The active filter keeps exactly the assignments in their window and
   * never reorders: filtering a concatenation is the concatenation of the
   * filtered parts. A start at `now` counts as started, an end at `now` as
   * ended.
   */
  lemma ActiveAssignmentsExact(xs: seq<ApiRole>, ys: seq<ApiRole>, now: int)
    ensures forall a :: a in ActiveAssignments(xs, now) <==> a in xs && ActiveAt(a, now)
    ensures ActiveAssignments(xs + ys, now) == ActiveAssignments(xs, now) + ActiveAssignments(ys, now)
    ensures forall a | a in xs && a.startDateTime == Some(now) && a.endDateTime.None? :: a in ActiveAssignments(xs, now)
    ensures forall a | a in xs && a.endDateTime == Some(now) :: a !in ActiveAssignments(xs, now)
  {
    Seqs.FilterConcat(xs, ys, a => ActiveAt(a, now));
  }

  /** Copies the top-level start and end into `scheduleInfo`. */
  function Normalized(a: ApiRole): ApiRole {
    a.(scheduleInfo := Some(ScheduleInfo(a.startDateTime, Some(Expiration(None, None, a.endDateTime)))))
  }

  function NormalizeAll(xs: seq<ApiRole>): (ys: seq<ApiRole>)
    ensures |ys| == |xs| && forall i | 0 <= i < |xs| :: ys[i] == Normalized(xs[i])
  {
    seq(|xs|, i requires 0 <= i < |xs| => Normalized(xs[i]))
  }

  /**
   * After normalisation, `scheduleInfo.startDateTime` and
   * `scheduleInfo.expiration.endDateTime` repeat the top-level fields, and
   * nothing else differs.
   */
  lemma NormalizedCopiesWindow(xs: seq<ApiRole>)
    ensures forall i | 0 <= i < |xs| ::
      var y := NormalizeAll(xs)[i];
      && y.scheduleInfo.Some? && y.scheduleInfo.value.startDateTime == xs[i].startDateTime
      && y.scheduleInfo.value.expiration.Some?
      && y.scheduleInfo.value.expiration.value.endDateTime == xs[i].endDateTime
      && y.(scheduleInfo := xs[i].scheduleInfo) == xs[i]
  {
  }

  // ------------------------------------------------------ request bodies

  /** The fields of an `activateRole` eligibility or an `extendRole` assignment that the bodies use. */
  datatype Target = Target(
    roleDefinitionId: Option<string>,
    principalId: Option<string>,
    directoryScopeId: Option<string>,
    scheduleEnd: Option<int>)

  /** A `roleAssignmentScheduleRequests` body; `startDateTime` is the instant the request was built. */
  datatype RequestBody = RequestBody(
    action: string,
    principalId: Option<string>,
    roleDefinitionId: Option<string>,
    directoryScopeId: string,
    justification: string,
    startDateTime: int,
    expiration: Expiration)

  /** A default parameter: used when the argument is undefined. */
  function Default(o: Option<string>, d: string): string {
    if o.Some? then o.value else d
  }

  /**
   * activateRole up to the POST: a missing principal is fetched from
   * `/me` (`me` is that reply), and a failed `/me` aborts.
   */
  function Activation(target: Target, me: Result<Option<string>, string>, duration: Option<string>,
                      justification: Option<string>, now: int): (r: Result<RequestBody, string>)
    ensures r.Err? <==> !Truthy(target.principalId) && me.Err?
    ensures r.Ok? ==> r.value.startDateTime == now && r.value.roleDefinitionId == target.roleDefinitionId
  {
    if !Truthy(target.principalId) && me.Err? then Err("Could not retrieve user information for activation")
    else
      var principal := if Truthy(target.principalId) then target.principalId else me.value;
      Ok(RequestBody("selfActivate", principal, target.roleDefinitionId, OrElse(target.directoryScopeId, Some("/")),
        Default(justification, "Temporary access required"), now,
        Expiration(Some("afterDuration"), Some(Default(duration, "PT1H")), None)))
  }

  /**
   * The `selfActivate` body asks for the given duration (one hour by
   * default) from now, at the directory root unless a scope is given, and
   * consults `/me` only when the eligibility has no principal.
   */
  lemma ActivationShape(target: Target, me: Result<Option<string>, string>, other: Result<Option<string>, string>,
                        duration: Option<string>, justification: Option<string>, now: int)
    ensures Truthy(target.principalId) ==>
      Activation(target, me, duration, justification, now) == Activation(target, other, duration, justification, now)
    ensures !Truthy(target.principalId) && me.Err? ==>
      Activation(target, me, duration, justification, now) == Err("Could not retrieve user information for activation")
    ensures var r := Activation(target, me, duration, justification, now);
      r.Ok? ==>
        && r.value.action == "selfActivate"
        && r.value.principalId == (if Truthy(target.principalId) then target.principalId else me.value)
        && r.value.roleDefinitionId == target.roleDefinitionId
        && r.value.directoryScopeId == (if Truthy(target.directoryScopeId) then target.directoryScopeId.value else "/")
        && r.value.startDateTime == now
        && r.value.expiration == Expiration(Some("afterDuration"), Some(if duration.Some? then duration.value else "PT1H"), None)
        && r.value.justification == (if justification.Some? then justification.value else "Temporary access required")
  {
  }

  /** extendRole's body. */
  function Extension(target: Target, additionalDuration: Option<string>, justification: Option<string>, now: int): (b: RequestBody)
    ensures b.startDateTime == now && b.expiration.endDateTime.Some?
    ensures target.scheduleEnd.Some? ==> b.expiration.endDateTime.value > target.scheduleEnd.value
    ensures target.scheduleEnd.None? ==> b.expiration.endDateTime.value > now
  {
    var current := if target.scheduleEnd.Some? then target.scheduleEnd.value else now;
    RequestBody("selfExtend", target.principalId, target.roleDefinitionId, OrElse(target.directoryScopeId, Some("/")),
      Default(justification, "Extension required"), now,
      Expiration(Some("afterDateTime"), None, Some(current + ExtensionIncrement)))
  }

  /**
   * The new end is the current end (or now, without one) plus exactly two
   * hours, whatever additional duration was asked for.
   */
  lemma ExtensionAddsTwoHours(target: Target, asked: Option<string>, other: Option<string>,
                              justification: Option<string>, now: int)
    ensures Extension(target, asked, justification, now) == Extension(target, other, justification, now)
    ensures var b := Extension(target, asked, justification, now);
      && b.action == "selfExtend"
      && b.expiration.kind == Some("afterDateTime")
      && b.expiration.endDateTime == Some((if target.scheduleEnd.Some? then target.scheduleEnd.value else now) + 7200000)
      && b.principalId == target.principalId
      && b.justification == (if justification.Some? then justification.value else "Extension required")
  {
  }

  // ------------------------------------------- requests with token lookup

  /** The indices `Math.random` picks for one code verifier: 43 of them, each inside the charset. */
  type VerifierChoices = cs: seq<nat> | |cs| == Pkce.VerifierLength && forall k | 0 <= k < |cs| :: cs[k] < |Pkce.Charset|
    witness seq(Pkce.VerifierLength, k => 0)

  /**
   * What the token lookups of one operation meet: the answer to a refresh
   * grant, the indices drawn for a new verifier, how a sign-in window ends,
   * and the answer to a code exchange. Every lookup of the operation meets
   * the same answers.
   */
  datatype Credentials = Credentials(
    refreshReply: Tokens.TokenReply,
    choices: VerifierChoices,
    redirect: Tokens.Redirect,
    exchangeReply: Tokens.TokenReply)

  /** `await this.tokenManager.getValidToken()` */
  function TokenLookup(s: Tokens.Session, now: int, cr: Credentials): Tokens.Step<Option<string>> {
    Tokens.ValidToken(s, now, cr.refreshReply, Pkce.Picked(cr.choices), cr.redirect, cr.exchangeReply)
  }

  /** The token session after a request, and the request's outcome. */
  datatype Call<T> = Call(session: Tokens.Session, result: Result<T, string>)

  /** makeRequest: the token lookup, then the request itself if a token was obtained. */
  function Requested<T>(s: Tokens.Session, now: int, cr: Credentials, reply: Result<T, string>): Call<T> {
    var st := TokenLookup(s, now, cr);
    Call(st.session, if st.result.Err? then Err(st.result.error) else reply)
  }

  /**
   * With a valid token a request changes no token state and yields its
   * reply; when the lookup fails, the request is not made and the lookup's
   * error is what it throws, whatever the reply would have been.
   */
  lemma RequestedThroughLookup<T>(s: Tokens.Session, now: int, cr: Credentials, reply: Result<T, string>, other: Result<T, string>)
    ensures !Tokens.Expired(s, now) ==> Requested(s, now, cr, reply) == Call(s, reply)
    ensures Requested(s, now, cr, reply).session == TokenLookup(s, now, cr).session
    ensures TokenLookup(s, now, cr).result.Err? ==>
      && Requested(s, now, cr, reply).result == Err(TokenLookup(s, now, cr).result.error)
      && Requested(s, now, cr, reply) == Requested(s, now, cr, other)
    ensures TokenLookup(s, now, cr).result.Ok? ==> Requested(s, now, cr, reply).result == reply
  {
  }

  /** The token session and the role-definition cache together: the state a GraphAPIClient operation changes. */
  datatype Client = Client(session: Tokens.Session, cache: Cache)

  /** preloadRoleDefinitions: skipped while fresh; a failure, of the lookup or the request, is logged and swallowed. */
  function PreloadedWith(cl: Client, now: int, cr: Credentials, reply: Result<seq<RoleDefinition>, string>): Client {
    if CacheFresh(cl.cache, now) then cl
    else
      var call := Requested(cl.session, now, cr, reply);
      Client(call.session, Preloaded(cl.cache, now, call.result))
  }

  /** fetchRoleDefinition: a cache hit makes no request and so no token lookup. */
  function FetchedWith(cl: Client, id: string, now: int, cr: Credentials, reply: Result<RoleDefinition, string>): (Tokens.Session, Lookup) {
    if id in cl.cache.definitions then (cl.session, Fetched(cl.cache, id, reply))
    else
      var call := Requested(cl.session, now, cr, reply);
      (call.session, Fetched(cl.cache, id, call.result))
  }

  /** enrichRolesWithNames: the batch request, and its token lookup, happen only when an id is missing. */
  function EnrichedWith(cl: Client, roles: seq<ApiRole>, now: int, cr: Credentials, reply: Result<seq<RoleDefinition>, string>): (Tokens.Session, Enrichment) {
    if |MissingIds(roles, cl.cache.definitions)| == 0 then (cl.session, Enriched(cl.cache, roles, reply))
    else
      var call := Requested(cl.session, now, cr, reply);
      (call.session, Enriched(cl.cache, roles, call.result))
  }

  /** The state after a listing, and the roles it returns or the error it throws. */
  datatype Listing = Listing(client: Client, result: Result<seq<ApiRole>, string>)

  /**
   * listEligibleRoles (`active` false) and listActiveRoles (`active` true):
   * preload, list, keep the active assignments, name them, normalise them.
   */
  function ListedWith(cl: Client, now: int, cr: Credentials, preloadReply: Result<seq<RoleDefinition>, string>,
                      listReply: Result<seq<ApiRole>, string>, batchReply: Result<seq<RoleDefinition>, string>,
                      active: bool): Listing {
    var c1 := PreloadedWith(cl, now, cr, preloadReply);
    var call := Requested(c1.session, now, cr, listReply);
    if call.result.Err? then Listing(Client(call.session, c1.cache), Err(call.result.error))
    else
      var roles := if active then ActiveAssignments(call.result.value, now) else call.result.value;
      var (s, e) := EnrichedWith(Client(call.session, c1.cache), roles, now, cr, batchReply);
      Listing(Client(s, e.cache), Ok(if active then NormalizeAll(e.roles) else e.roles))
  }

  /**
   * With a valid token, a listing changes no token state: preload, list and
   * enrich act on the cache alone, and a failed listing throws its own error.
   */
  lemma ListingWithValidToken(s: Tokens.Session, c: Cache, now: int, cr: Credentials, preloadReply: Result<seq<RoleDefinition>, string>,
                              listReply: Result<seq<ApiRole>, string>, batchReply: Result<seq<RoleDefinition>, string>, active: bool)
    requires !Tokens.Expired(s, now)
    ensures var l := ListedWith(Client(s, c), now, cr, preloadReply, listReply, batchReply, active);
      var c1 := Preloaded(c, now, preloadReply);
      && l.client.session == s
      && (listReply.Err? ==> l.client.cache == c1 && l.result == Err(listReply.error))
      && (listReply.Ok? ==>
            var e := Enriched(c1, if active then ActiveAssignments(listReply.value, now) else listReply.value, batchReply);
            l.client.cache == e.cache && l.result == Ok(if active then NormalizeAll(e.roles) else e.roles))
  {
  }

  /**
   * A failed token lookup fails the listing with the lookup's own error,
   * except in the preload, which swallows it: with a stale cache, the
   * listing request then looks the token up again from the state the failed
   * lookup left.
   */
  lemma ListingTokenFailure(s: Tokens.Session, c: Cache, now: int, cr: Credentials, preloadReply: Result<seq<RoleDefinition>, string>,
                            listReply: Result<seq<ApiRole>, string>, batchReply: Result<seq<RoleDefinition>, string>, active: bool)
    requires TokenLookup(s, now, cr).result.Err?
    ensures var l := ListedWith(Client(s, c), now, cr, preloadReply, listReply, batchReply, active);
      CacheFresh(c, now) ==>
        l == Listing(Client(TokenLookup(s, now, cr).session, c), Err(TokenLookup(s, now, cr).result.error))
    ensures !CacheFresh(c, now) ==>
      PreloadedWith(Client(s, c), now, cr, preloadReply) == Client(TokenLookup(s, now, cr).session, c)
  {
  }

  /** What activateRole or extendRole did: the token session after it, the body posted, and the reply or error. */
  datatype Submission = Submission(session: Tokens.Session, posted: Option<RequestBody>, result: Result<string, string>)

  /** The POST of a schedule request through makeRequest: the body leaves only if a token was obtained. */
  function Submitted(s: Tokens.Session, body: RequestBody, now: int, cr: Credentials, post: Result<string, string>): Submission {
    var call := Requested(s, now, cr, post);
    Submission(call.session, if TokenLookup(s, now, cr).result.Ok? then Some(body) else None, call.result)
  }

  /** The `/me` step of activateRole: requested, with its own token lookup, only for a missing principal. */
  function Identified(s: Tokens.Session, target: Target, now: int, cr: Credentials, me: Result<Option<string>, string>): Call<Option<string>> {
    if Truthy(target.principalId) then Call(s, me) else Requested(s, now, cr, me)
  }

  /** activateRole */
  function ActivatedWith(s: Tokens.Session, target: Target, duration: Option<string>, justification: Option<string>,
                         now: int, cr: Credentials, me: Result<Option<string>, string>, post: Result<string, string>): Submission {
    var whoami := Identified(s, target, now, cr, me);
    var body := Activation(target, whoami.result, duration, justification, now);
    if body.Err? then Submission(whoami.session, None, Err(body.error))
    else Submitted(whoami.session, body.value, now, cr, post)
  }

  /** extendRole */
  function ExtendedWith(s: Tokens.Session, target: Target, additionalDuration: Option<string>, justification: Option<string>,
                        now: int, cr: Credentials, post: Result<string, string>): Submission {
    Submitted(s, Extension(target, additionalDuration, justification, now), now, cr, post)
  }

  /**
   * With a valid token, activation and extension change no token state and
   * post exactly the body the client builds; whatever the token state, a
   * posted body is that body.
   */
  lemma SubmissionBodies(s: Tokens.Session, target: Target, duration: Option<string>, justification: Option<string>,
                         now: int, cr: Credentials, me: Result<Option<string>, string>, post: Result<string, string>)
    ensures var x := ExtendedWith(s, target, duration, justification, now, cr, post);
      && (x.posted.Some? ==> x.posted.value == Extension(target, duration, justification, now))
      && (!Tokens.Expired(s, now) ==> x == Submission(s, Some(Extension(target, duration, justification, now)), post))
    ensures var a := ActivatedWith(s, target, duration, justification, now, cr, me, post);
      var b := Activation(target, me, duration, justification, now);
      !Tokens.Expired(s, now) ==>
        a == (if b.Ok? then Submission(s, Some(b.value), post) else Submission(s, None, Err(b.error)))
    ensures var a := ActivatedWith(s, target, duration, justification, now, cr, me, post);
      Truthy(target.principalId) && a.posted.Some? ==>
        var b := Activation(target, me, duration, justification, now);
        b.Ok? && a.posted.value == b.value
  {
  }

  // --------------------------------------------------------------- class

  class GraphClient {
    /** The TokenManager every request asks for a token. */
    const tokens: Tokens.TokenManager
    var roleDefinitionCache: map<string, CachedDefinition>
    var lastCacheUpdate: int

    function State(): Cache
      reads this
    {
      Cache(roleDefinitionCache, lastCacheUpdate)
    }

    /** The cache together with the token session the client works through. */
    function Current(): Client
      reads this, tokens
    {
      Client(tokens.State(), State())
    }

    constructor (tokens: Tokens.TokenManager)
      ensures this.tokens == tokens
      ensures State() == Cache(map[], 0)
    {
      this.tokens := tokens;
      roleDefinitionCache := map[];
      lastCacheUpdate := 0;
    }

    /** makeRequest: a valid token first; the request is made only if one was obtained. */
    method MakeRequest<T>(now: int, cr: Credentials, reply: Result<T, string>) returns (r: Result<T, string>)
      modifies tokens
      ensures Call(tokens.State(), r) == Requested(old(tokens.State()), now, cr, reply)
    {
      var _, token := tokens.GetValidToken(now, cr.refreshReply, cr.choices, cr.redirect, cr.exchangeReply);
      if token.Err? {
        return Err(token.error);
      }
      r := reply;
    }

    /** `defs.forEach(role => this.roleDefinitionCache.set(role.id, ...))`. */
    method PutAll(defs: seq<RoleDefinition>)
      modifies this`roleDefinitionCache
      ensures roleDefinitionCache == Put(old(roleDefinitionCache), defs)
    {
      ghost var start := roleDefinitionCache;
      for i := 0 to |defs|
        invariant roleDefinitionCache == Put(start, defs[..i])
      {
        assert defs[..i + 1][..i] == defs[..i];
        roleDefinitionCache := roleDefinitionCache[defs[i].id := Entry(defs[i])];
      }
      assert defs[..|defs|] == defs;
    }

    method PreloadRoleDefinitions(now: int, cr: Credentials, reply: Result<seq<RoleDefinition>, string>) returns (requested: bool)
      modifies this, tokens
      ensures requested <==> !CacheFresh(old(State()), now)
      ensures Current() == PreloadedWith(old(Current()), now, cr, reply)
    {
      if |roleDefinitionCache| > 0 && now - lastCacheUpdate < CacheTtl {
        return false;
      }
      requested := true;
      var defs := MakeRequest(now, cr, reply);
      if defs.Err? {
        return;
      }
      roleDefinitionCache := map[];
      PutAll(defs.value);
      lastCacheUpdate := now;
    }

    method FetchRoleDefinition(id: string, now: int, cr: Credentials, reply: Result<RoleDefinition, string>)
      returns (requested: bool, name: Option<string>)
      modifies this, tokens
      ensures (tokens.State(), Lookup(State(), requested, name)) == FetchedWith(old(Current()), id, now, cr, reply)
    {
      if id in roleDefinitionCache {
        return false, roleDefinitionCache[id].displayName;
      }
      requested := true;
      var def := MakeRequest(now, cr, reply);
      if def.Err? {
        return requested, Some(id);
      }
      var d := def.value;
      roleDefinitionCache := roleDefinitionCache[id := CachedDefinition(d.displayName, if Truthy(d.description) then d.description else Some(""))];
      name := d.displayName;
    }

    method EnrichRolesWithNames(roles: seq<ApiRole>, now: int, cr: Credentials, reply: Result<seq<RoleDefinition>, string>)
      returns (filter: Option<string>, named: seq<ApiRole>)
      modifies this, tokens
      ensures (tokens.State(), Enrichment(State(), filter, named)) == EnrichedWith(old(Current()), roles, now, cr, reply)
    {
      var missing := MissingIds(roles, roleDefinitionCache);
      filter := None;
      if |missing| > 0 {
        filter := Some(FilterQuery(missing));
        var defs := MakeRequest(now, cr, reply);
        if defs.Ok? {
          PutAll(defs.value);
        }
      }
      named := WithNames(roles, roleDefinitionCache);
    }

    /** listEligibleRoles: preload, list the caller's eligibilities, name them. */
    method ListEligibleRoles(now: int, cr: Credentials, preloadReply: Result<seq<RoleDefinition>, string>,
                             listReply: Result<seq<ApiRole>, string>, batchReply: Result<seq<RoleDefinition>, string>)
      returns (r: Result<seq<ApiRole>, string>)
      modifies this, tokens
      ensures Listing(Current(), r) == ListedWith(old(Current()), now, cr, preloadReply, listReply, batchReply, false)
    {
      var _ := PreloadRoleDefinitions(now, cr, preloadReply);
      var listed := MakeRequest(now, cr, listReply);
      if listed.Err? {
        return Err(listed.error);
      }
      var _, named := EnrichRolesWithNames(listed.value, now, cr, batchReply);
      r := Ok(named);
    }

    /** listActiveRoles: preload, list the caller's assignments, keep the active ones, name and normalise them. */
    method ListActiveRoles(now: int, cr: Credentials, preloadReply: Result<seq<RoleDefinition>, string>,
                           listReply: Result<seq<ApiRole>, string>, batchReply: Result<seq<RoleDefinition>, string>)
      returns (r: Result<seq<ApiRole>, string>)
      modifies this, tokens
      ensures Listing(Current(), r) == ListedWith(old(Current()), now, cr, preloadReply, listReply, batchReply, true)
    {
      var _ := PreloadRoleDefinitions(now, cr, preloadReply);
      var listed := MakeRequest(now, cr, listReply);
      if listed.Err? {
        return Err(listed.error);
      }
      var active := ActiveAssignments(listed.value, now);
      var _, named := EnrichRolesWithNames(active, now, cr, batchReply);
      r := Ok(NormalizeAll(named));
    }

    /** activateRole: `/me` for a missing principal, then the POST. */
    method ActivateRole(target: Target, duration: Option<string>, justification: Option<string>, now: int, cr: Credentials,
                        me: Result<Option<string>, string>, post: Result<string, string>)
      returns (posted: Option<RequestBody>, r: Result<string, string>)
      modifies tokens
      ensures Submission(tokens.State(), posted, r) == ActivatedWith(old(tokens.State()), target, duration, justification, now, cr, me, post)
    {
      var whoami := Identify(target, now, cr, me);
      var body := Activation(target, whoami, duration, justification, now);
      if body.Err? {
        return None, Err(body.error);
      }
      posted, r := PostSchedule(body.value, now, cr, post);
    }

    /** `/me` for a missing principal; the eligibility's own principal otherwise. */
    method Identify(target: Target, now: int, cr: Credentials, me: Result<Option<string>, string>) returns (r: Result<Option<string>, string>)
      modifies tokens
      ensures Call(tokens.State(), r) == Identified(old(tokens.State()), target, now, cr, me)
    {
      r := me;
      if !Truthy(target.principalId) {
        r := MakeRequest(now, cr, me);
      }
    }

    /** extendRole */
    method ExtendRole(target: Target, additionalDuration: Option<string>, justification: Option<string>, now: int, cr: Credentials,
                      post: Result<string, string>)
      returns (posted: Option<RequestBody>, r: Result<string, string>)
      modifies tokens
      ensures Submission(tokens.State(), posted, r) == ExtendedWith(old(tokens.State()), target, additionalDuration, justification, now, cr, post)
    {
      posted, r := PostSchedule(Extension(target, additionalDuration, justification, now), now, cr, post);
    }

    /** The POST to roleAssignmentScheduleRequests through makeRequest. */
    method PostSchedule(body: RequestBody, now: int, cr: Credentials, post: Result<string, string>)
      returns (posted: Option<RequestBody>, r: Result<string, string>)
      modifies tokens
      ensures Submission(tokens.State(), posted, r) == Submitted(old(tokens.State()), body, now, cr, post)
    {
      var _, token := tokens.GetValidToken(now, cr.refreshReply, cr.choices, cr.redirect, cr.exchangeReply);
      if token.Err? {
        return None, Err(token.error);
      }
      return Some(body), post;
    }

    method ClearCache()
      modifies this
      ensures State() == Cache(map[], 0)
      ensures forall now :: !CacheFresh(State(), now)
    {
      roleDefinitionCache := map[];
      lastCacheUpdate := 0;
    }
  }
}
