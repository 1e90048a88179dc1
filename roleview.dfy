/**
 * The pure part of popup.js: how the popup turns a Graph schedule instance
 * into the role card it shows (convertApiRole with its service and risk
 * classifiers and its ISO 8601 duration parser), which active roles it
 * lists as expiring, and how it prints the time left.
 */
module RoleView {
  import opened Wrappers
  import opened Text
  import Seqs
  import Graph

  // ------------------------------------------------------- classifiers

  const AzureRoles := ["Owner", "Contributor", "Reader", "Key Vault", "Storage"]
  const EntraRoles := ["Global Administrator", "Security Administrator", "User Administrator", "Privileged Role Administrator"]
  const M365Roles := ["Exchange Administrator", "SharePoint Administrator", "Teams Administrator"]
  const CriticalRoles := ["Global Administrator", "Privileged Role Administrator", "Owner"]
  const HighRoles := ["Security Administrator", "Contributor", "Key Vault Administrator"]

  /** `words.some(w => name.includes(w))`. */
  predicate MentionsAny(name: string, words: seq<string>) {
    exists k | 0 <= k < |words| :: Contains(name, words[k])
  }

  datatype Service = Azure | EntraId | Microsoft365

  function ServiceLabel(s: Service): string {
    match s
    case Azure => "Azure"
    case EntraId => "Entra ID"
    case Microsoft365 => "Microsoft 365"
  }

  /** getServiceFromRole: Azure words first, then Entra ID, then Microsoft 365; Entra ID otherwise. */
  function ServiceOf(name: string): (sv: Service)
    ensures sv == Azure <==> MentionsAny(name, AzureRoles)
    ensures sv == Microsoft365 <==>
      MentionsAny(name, M365Roles) && !MentionsAny(name, AzureRoles) && !MentionsAny(name, EntraRoles)
  {
    if MentionsAny(name, AzureRoles) then Azure
    else if MentionsAny(name, EntraRoles) then EntraId
    else if MentionsAny(name, M365Roles) then Microsoft365
    else EntraId
  }

  datatype RoleType = Critical | High | Medium

  /** getRoleType: critical words first, then high ones; medium otherwise. */
  function RoleTypeOf(name: string): (t: RoleType)
    ensures t == Critical <==> MentionsAny(name, CriticalRoles)
    ensures t == Medium <==> !MentionsAny(name, CriticalRoles) && !MentionsAny(name, HighRoles)
  {
    if MentionsAny(name, CriticalRoles) then Critical
    else if MentionsAny(name, HighRoles) then High
    else Medium
  }

  /** A word that occurs in a name occurs in every longer name around it. */
  lemma MentionsExtended(name: string, words: seq<string>, before: string, after: string)
    requires MentionsAny(name, words)
    ensures MentionsAny(before + name + after, words)
  {
    var k :| 0 <= k < |words| && Contains(name, words[k]);
    ContainsExtended(name, words[k], before, after);
  }

  /**
   * Precedence: a name that mentions a critical role is Critical whatever
   * surrounds it, and a name that mentions an Azure word is an Azure role
   * whatever surrounds it.
   */
  lemma ClassifierPrecedence(name: string, before: string, after: string)
    ensures MentionsAny(name, CriticalRoles) ==> RoleTypeOf(before + name + after) == Critical
    ensures MentionsAny(name, AzureRoles) ==> ServiceOf(before + name + after) == Azure
  {
    if MentionsAny(name, CriticalRoles) {
      MentionsExtended(name, CriticalRoles, before, after);
    }
    if MentionsAny(name, AzureRoles) {
      MentionsExtended(name, AzureRoles, before, after);
    }
  }

  /** The first letters of the role words, none of which occurs in the names below. */
  lemma NotMentioned(name: string, words: seq<string>)
    requires forall k | 0 <= k < |words| :: |words[k]| > 0 && words[k][0] !in name
    ensures !MentionsAny(name, words)
  {
    forall k | 0 <= k < |words|
      ensures !Contains(name, words[k])
    {
      if Contains(name, words[k]) {
        ContainsFirstChar(name, words[k]);
      }
    }
  }

  /** "Key Vault Administrator" is an Azure role, since "Key Vault" is checked before any Entra ID word, and High rather than Critical. */
  lemma KeyVaultAdministratorIsAzureHigh()
    ensures ServiceOf("Key Vault Administrator") == Azure
    ensures RoleTypeOf("Key Vault Administrator") == High
  {
    var kv := "Key Vault Administrator";
    NotMentioned(kv, CriticalRoles);
    assert ContainsAt(kv, AzureRoles[3], 0);
    assert ContainsAt(kv, HighRoles[2], 0);
  }

  /** A "Global Administrator" is Critical and belongs to Entra ID. */
  lemma GlobalAdministratorIsEntraCritical()
    ensures ServiceOf("Global Administrator") == EntraId
    ensures RoleTypeOf("Global Administrator") == Critical
  {
    var ga := "Global Administrator";
    NotMentioned(ga, AzureRoles);
    assert ContainsAt(ga, EntraRoles[0], 0);
    assert ContainsAt(ga, CriticalRoles[0], 0);
  }

  /** An "Exchange Administrator" mentions no Azure or Entra ID word and is a Microsoft 365 role. */
  lemma ExchangeAdministratorIsM365()
    ensures ServiceOf("Exchange Administrator") == Microsoft365
  {
    var ex := "Exchange Administrator";
    NotMentioned(ex, AzureRoles);
    NotMentioned(ex, EntraRoles);
    assert ContainsAt(ex, M365Roles[0], 0);
  }

  /**
   * The Entra ID role "Global Reader" is shown as an Azure role: the Azure
   * word "Reader" is matched anywhere in the name and is tested first.
   */
  lemma GlobalReaderIsAzure()
    ensures ServiceOf("Global Reader") == Azure
  {
    var gr := "Global Reader";
    assert ContainsAt(gr, AzureRoles[2], 7);
  }

  /** An "Exchange Administrator" is of medium risk. */
  lemma ExchangeAdministratorIsMedium()
    ensures RoleTypeOf("Exchange Administrator") == Medium
  {
    var ex := "Exchange Administrator";
    NotMentioned(ex, CriticalRoles);
    NotMentioned(ex, HighRoles);
  }

  // ---------------------------------------------------- duration parser

  /** The length of the run of digits starting at `j`. */
  function DigitRun(s: string, j: nat): (k: nat)
    requires j <= |s|
    ensures j + k <= |s| && AllDigits(s[j..j + k])
    ensures j + k == |s| || !IsDigit(s[j + k])
    decreases |s| - j
  {
    if j < |s| && IsDigit(s[j]) then
      var k := DigitRun(s, j + 1);
      assert s[j..j + 1 + k] == [s[j]] + s[j + 1..j + 1 + k];
      1 + k
    else 0
  }

  /** `/PT(\d+)H/` matches at `i`: the digits are greedy, so the run must be followed by 'H'. */
  predicate MatchAt(s: string, i: nat) {
    i + 2 <= |s| && s[i] == 'P' && s[i + 1] == 'T'
    && var k := DigitRun(s, i + 2); k > 0 && i + 2 + k < |s| && s[i + 2 + k] == 'H'
  }

  /** The leftmost match at or after `from`. */
  function FindMatch(s: string, from: nat): (r: Option<nat>)
    requires from <= |s|
    ensures r.Some? ==> from <= r.value < |s| && MatchAt(s, r.value)
    ensures r.Some? ==> forall j | from <= j < r.value :: !MatchAt(s, j)
    ensures r.None? ==> forall j | from <= j <= |s| :: !MatchAt(s, j)
    decreases |s| - from
  {
    if from == |s| then None
    else if MatchAt(s, from) then Some(from)
    else FindMatch(s, from + 1)
  }

  /** The text shown for a run of digits read as hours: plural unless the digits are exactly "1". */
  function HoursText(digits: string): (r: string)
    requires |digits| > 0 && AllDigits(digits)
    ensures |r| >= 6 && IsDigit(r[0]) && (r[|r| - 5..] == " hour" || r[|r| - 6..] == " hours")
    ensures r[|r| - 5..] == " hour" ==> r[..|r| - 5] == digits == "1"
    ensures r[|r| - 6..] == " hours" ==> r[..|r| - 6] == digits != "1"
  {
    var r := digits + " hour" + (if digits != "1" then "s" else "");
    assert r[0] == digits[0];
    assert digits != "1" ==> r[|r| - 6..] == " hours" && r[..|r| - 6] == digits && r[|r| - 5..][0] != " hour"[0];
    assert digits == "1" ==> r[|r| - 5..] == " hour" && r[..|r| - 5] == digits && r[|r| - 6..][5] != " hours"[5];
    r
  }

  /** parseDuration */
  function ParseDuration(duration: Option<string>): (r: string)
    ensures !Truthy(duration) ==> r == "1 hour"
    ensures |r| >= 6 && IsDigit(r[0]) && (r[|r| - 5..] == " hour" || r[|r| - 6..] == " hours")
  {
    if !Truthy(duration) then "1 hour"
    else
      var s := duration.value;
      match FindMatch(s, 0)
      case None => "1 hour"
      case Some(i) =>
        HoursText(s[i + 2..i + 2 + DigitRun(s, i + 2)])
  }

  /**
   * What precedes the unit is a run of digits: exactly "1" before " hour",
   * and any other digits before " hours".
   */
  predicate ShowsDigits(r: string) {
    && |r| >= 6
    && (r[|r| - 5..] == " hour" ==> r[..|r| - 5] == "1")
    && (r[|r| - 6..] == " hours" ==> AllDigits(r[..|r| - 6]) && r[..|r| - 6] != "1")
  }

  /** Every duration text shows its number as digits, singular exactly for "1". */
  lemma ParseDurationShowsDigits(duration: Option<string>)
    ensures ShowsDigits(ParseDuration(duration))
  {
    if !Truthy(duration) || FindMatch(duration.value, 0).None? {
      DefaultShowsDigits(duration);
    } else {
      MatchShowsDigits(duration);
    }
  }

  lemma DefaultShowsDigits(duration: Option<string>)
    requires !Truthy(duration) || FindMatch(duration.value, 0).None?
    ensures ShowsDigits(ParseDuration(duration))
  {
    OneHourShowsDigits();
  }

  lemma MatchShowsDigits(duration: Option<string>)
    requires Truthy(duration) && FindMatch(duration.value, 0).Some?
    ensures ShowsDigits(ParseDuration(duration))
  {
    var s := duration.value;
    var i := FindMatch(s, 0).value;
    var k := DigitRun(s, i + 2);
    var digits := s[i + 2..i + 2 + k];
    assert |digits| > 0 && AllDigits(digits);
    assert ParseDuration(duration) == HoursText(digits);
    HoursTextShowsDigits(digits);
  }

  lemma OneHourShowsDigits()
    ensures ShowsDigits("1 hour")
  {
    var r := "1 hour";
    assert r[|r| - 5..] == " hour" && r[..|r| - 5] == "1";
    assert r[|r| - 6..][5] == 'r';
  }

  lemma HoursTextShowsDigits(digits: string)
    requires |digits| > 0 && AllDigits(digits)
    ensures ShowsDigits(HoursText(digits))
  {
  }

  lemma {:induction false} DigitRunOfDigits(s: string, j: nat, k: nat)
    requires j + k <= |s| && AllDigits(s[j..j + k])
    requires j + k == |s| || !IsDigit(s[j + k])
    ensures DigitRun(s, j) == k
    decreases k
  {
    if k > 0 {
      assert s[j] == s[j..j + k][0];
      assert s[j + 1..j + k] == s[j..j + k][1..];
      DigitRunOfDigits(s, j + 1, k - 1);
    }
  }

  /** `PT<digits>H` matches at its start, with the digits as the group. */
  lemma WrittenDurationMatches(digits: string)
    requires |digits| > 0 && AllDigits(digits)
    ensures var s := "PT" + digits + "H";
      FindMatch(s, 0) == Some(0) && DigitRun(s, 2) == |digits|
  {
    var s := "PT" + digits + "H";
    assert s[2..2 + |digits|] == digits;
    DigitRunOfDigits(s, 2, |digits|);
    assert s[0] == 'P' && s[1] == 'T' && s[2 + |digits|] == 'H';
    assert MatchAt(s, 0);
  }

  /** `PT<digits>H` reads as the digits as written, followed by "hour", plural unless the digits are "1". */
  lemma ParseWrittenDuration(digits: string)
    requires |digits| > 0 && AllDigits(digits)
    ensures ParseDuration(Some("PT" + digits + "H")) == digits + " hour" + (if digits != "1" then "s" else "")
  {
    var s := "PT" + digits + "H";
    WrittenDurationMatches(digits);
    assert s[2..2 + |digits|] == digits;
  }

  /** `PT<n>H` reads back as n hours, singular exactly for one. */
  lemma ParseDurationRoundTrip(n: nat)
    ensures ParseDuration(Some("PT" + NatToString(n) + "H")) == NatToString(n) + (if n == 1 then " hour" else " hours")
  {
    ParseWrittenDuration(NatToString(n));
    NatToStringIsOne(n);
  }

  /** Text without the letters "PT" side by side never matches and reads as one hour. */
  lemma NoMatchWithoutPT(s: string)
    requires forall i | 0 <= i < |s| - 1 :: !(s[i] == 'P' && s[i + 1] == 'T')
    ensures ParseDuration(Some(s)) == "1 hour"
  {
    assert forall j | 0 <= j <= |s| :: !MatchAt(s, j);
  }

  /** A time part in any unit other than hours (`PT<digits>M`, `PT<digits>S`) reads as one hour. */
  lemma OtherUnitsReadAsOneHour(digits: string, unit: char)
    requires |digits| > 0 && AllDigits(digits) && unit != 'H' && !IsDigit(unit)
    ensures ParseDuration(Some("PT" + digits + [unit])) == "1 hour"
  {
    var s := "PT" + digits + [unit];
    assert s[2..2 + |digits|] == digits;
    DigitRunOfDigits(s, 2, |digits|);
    assert s[2 + |digits|] == unit;
    assert forall j | 1 <= j < |s| - 1 :: s[j] != 'P' by {
      forall j | 1 <= j < |s| - 1
        ensures s[j] != 'P'
      {
        if j >= 2 {
          assert s[j] == digits[j - 2];
        }
      }
    }
    assert forall j | 0 <= j <= |s| :: !MatchAt(s, j);
  }

  /**
   * Absent and empty durations read as one hour, and so does a duration
   * with a day part before its time part, which has no "PT".
   */
  lemma ParseDurationDefaults()
    ensures ParseDuration(None) == "1 hour" && ParseDuration(Some("")) == "1 hour"
    ensures ParseDuration(Some("P1DT2H")) == "1 hour"
  {
    var c := "P1DT2H";
    assert forall i | 0 <= i < |c| - 1 :: !(c[i] == 'P' && c[i + 1] == 'T');
    NoMatchWithoutPT(c);
  }

  /** Thirty minutes read as one hour. */
  lemma ParseDurationMinutesExample()
    ensures ParseDuration(Some("PT30M")) == "1 hour"
  {
    assert "PT" + "30" + ['M'] == "PT30M";
    OtherUnitsReadAsOneHour("30", 'M');
  }

  /** The digits are shown as written: "PT01H" reads as "01 hours". */
  lemma ParseDurationKeepsDigits()
    ensures ParseDuration(Some("PT01H")) == "01 hours"
  {
    var d := "01";
    assert |d| == 2 && d != "1" && AllDigits(d);
    assert "PT" + d + "H" == "PT01H";
    ParseWrittenDuration(d);
    assert d + " hour" + "s" == "01 hours";
  }

  // ------------------------------------------------------ role cards

  datatype RoleKind = Eligible | Active

  /** Eligible cards show the maximum duration, active cards when they started and when they end. */
  datatype Details =
    | EligibleDetails(maxDuration: string)
    | ActiveDetails(activatedAt: Option<int>, expiresAt: Option<int>)

  /** The role card. */
  datatype Role = Role(
    id: string,
    name: string,
    scope: Option<string>,
    roleType: RoleType,
    service: Service,
    description: string,
    roleDefinitionId: string,
    principalId: Option<string>,
    directoryScopeId: Option<string>,
    requiresJustification: bool,
    details: Details)

  function Describe(name: string): string {
    "Manage " + ToLower(ReplaceFirst(name, " Administrator", "")) + " settings and permissions"
  }

  /** convertApiRole; the role name is the one the background added. */
  function ConvertApiRole(a: Graph.ApiRole, kind: RoleKind): (r: Role)
    requires a.roleName.Some?
    ensures r.details.EligibleDetails? <==> kind == Eligible
    ensures r.requiresJustification <==> a.requiresJustification == Some(true)
  {
    var name := a.roleName.value;
    var schedule := a.scheduleInfo;
    var expiration := if schedule.Some? then schedule.value.expiration else None;
    var details := match kind
      case Eligible => EligibleDetails(ParseDuration(if expiration.Some? then expiration.value.duration else None))
      case Active => ActiveDetails(if schedule.Some? then schedule.value.startDateTime else None,
                                   if expiration.Some? then expiration.value.endDateTime else None);
    Role(a.id, name, if a.directoryScopeId == Some("/") then Some("Directory") else a.directoryScopeId,
      RoleTypeOf(name), ServiceOf(name), Describe(name), a.roleDefinitionId, a.principalId, a.directoryScopeId,
      a.requiresJustification == Some(true), details)
  }

  /**
   * The scope reads "Directory" exactly for the root scope "/", a missing
   * `requiresJustification` means none is required, and the details match
   * the kind of card.
   */
  lemma ConvertApiRoleShape(a: Graph.ApiRole, kind: RoleKind)
    requires a.roleName.Some?
    ensures var r := ConvertApiRole(a, kind);
      && r.id == a.id && r.name == a.roleName.value && r.roleDefinitionId == a.roleDefinitionId
      && r.principalId == a.principalId && r.directoryScopeId == a.directoryScopeId
      && r.roleType == RoleTypeOf(a.roleName.value) && r.service == ServiceOf(a.roleName.value)
      && (kind == Eligible ==> r.details.maxDuration == ParseDuration(
            if a.scheduleInfo.Some? && a.scheduleInfo.value.expiration.Some? then a.scheduleInfo.value.expiration.value.duration else None))
      && (r.scope == Some("Directory") <==> a.directoryScopeId == Some("/") || a.directoryScopeId == Some("Directory"))
      && (a.directoryScopeId != Some("/") ==> r.scope == a.directoryScopeId)
      && (a.requiresJustification.None? ==> !r.requiresJustification)
      && (r.details.EligibleDetails? <==> kind == Eligible)
      && (kind == Active && (a.scheduleInfo.None? || a.scheduleInfo.value.expiration.None?) ==> r.details.expiresAt.None?)
      && (kind == Active && a.scheduleInfo.None? ==> r.details.activatedAt.None?)
  {
  }

  /**
   * The background's normalisation is what gives an active card its dates:
   * after it, the card starts and ends when the assignment does.
   */
  lemma ActiveCardUsesNormalizedWindow(a: Graph.ApiRole)
    requires a.roleName.Some?
    ensures ConvertApiRole(Graph.Normalized(a), Active).details == ActiveDetails(a.startDateTime, a.endDateTime)
  {
  }

  function ConvertAll(xs: seq<Graph.ApiRole>, kind: RoleKind): (rs: seq<Role>)
    requires forall i | 0 <= i < |xs| :: xs[i].roleName.Some?
    ensures |rs| == |xs| && forall i | 0 <= i < |xs| :: rs[i] == ConvertApiRole(xs[i], kind)
  {
    seq(|xs|, i requires 0 <= i < |xs| => ConvertApiRole(xs[i], kind))
  }

  // -------------------------------------------------------- expiring

  const ExpiringWindow := 3600000

  /** isExpiringSoon: at most one hour left, including an end already passed. */
  predicate IsExpiringSoon(expiresAt: int, now: int) {
    expiresAt - now <= ExpiringWindow
  }

  predicate Expiring(r: Role, now: int) {
    r.details.ActiveDetails? && r.details.expiresAt.Some? && IsExpiringSoon(r.details.expiresAt.value, now)
  }

  /** The expiring list of loadRoles. */
  function ExpiringRoles(active: seq<Role>, now: int): (r: seq<Role>)
    ensures |r| <= |active|
    ensures forall i | 0 <= i < |r| :: r[i] in active && Expiring(r[i], now)
  {
    Seqs.Filter(active, r => Expiring(r, now))
  }

  /**
   * The expiring roles are exactly the active cards with an end at most
   * one hour away, in their original order; the window is inclusive.
   */
  lemma ExpiringRolesExact(xs: seq<Role>, ys: seq<Role>, now: int)
    ensures forall r :: r in ExpiringRoles(xs, now) <==>
      r in xs && r.details.ActiveDetails? && r.details.expiresAt.Some? && r.details.expiresAt.value - now <= 3600000
    ensures ExpiringRoles(xs + ys, now) == ExpiringRoles(xs, now) + ExpiringRoles(ys, now)
    ensures IsExpiringSoon(now + 3600000, now) && !IsExpiringSoon(now + 3600001, now)
  {
    Seqs.FilterConcat(xs, ys, r => Expiring(r, now));
  }

  /**
   * The badge test agrees with the list selection, counts an end that has
   * already passed as expiring, and once true stays true as time goes on.
   */
  lemma ExpiringSoonStays(r: Role, now: int, later: int)
    requires r.details.ActiveDetails? && r.details.expiresAt.Some?
    requires now <= later
    ensures Expiring(r, now) <==> IsExpiringSoon(r.details.expiresAt.value, now)
    ensures r.details.expiresAt.value <= now ==> Expiring(r, now)
    ensures Expiring(r, now) ==> Expiring(r, later)
  {
  }

  // ---------------------------------------------------- time remaining

  /** formatTimeRemaining; `Math.floor` of a division by a positive number is Dafny's `/`. */
  function FormatTimeRemaining(expiresAt: int, now: int): (t: string)
    ensures 'h' in t <==> expiresAt - now >= 3600000
  {
    var minutes := (expiresAt - now) / 60000;
    var hours := minutes / 60;
    if hours > 0 then IntToString(hours) + "h " + IntToString(minutes % 60) + "m"
    else IntToString(minutes) + "m"
  }

  lemma HoursOfMinutes(diff: int)
    ensures (diff / 60000) / 60 == diff / 3600000
  {
    var m := diff / 60000;
    var h := m / 60;
    assert diff == 60000 * m + diff % 60000;
    assert m == 60 * h + m % 60;
    assert diff == 3600000 * h + (60000 * (m % 60) + diff % 60000);
    assert 0 <= 60000 * (m % 60) + diff % 60000 < 3600000;
  }

  /**
   * With at least an hour left the text is "<h>h <m>m", whole hours and
   * the remaining whole minutes below 60, which together give the whole
   * minutes left; with less it is the whole minutes alone, negative once
   * the end has passed.
   */
  lemma FormatTimeRemainingSplits(expiresAt: int, now: int)
    ensures var diff := expiresAt - now;
      diff >= 3600000 ==>
        exists h: nat, m: nat ::
          && FormatTimeRemaining(expiresAt, now) == NatToString(h) + "h " + NatToString(m) + "m"
          && h > 0 && m < 60 && h * 60 + m == diff / 60000 && h == diff / 3600000
    ensures var diff := expiresAt - now;
      diff < 3600000 ==> FormatTimeRemaining(expiresAt, now) == IntToString(diff / 60000) + "m"
  {
    var diff := expiresAt - now;
    HoursOfMinutes(diff);
    if diff >= 3600000 {
      var minutes := diff / 60000;
      var h: nat := minutes / 60;
      var m: nat := minutes % 60;
      assert FormatTimeRemaining(expiresAt, now) == NatToString(h) + "h " + NatToString(m) + "m";
    }
  }

  /** Ninety minutes left reads "1h 30m"; ten reads "10m"; five past the end reads "-5m". */
  lemma FormatTimeRemainingExamples(now: int)
    ensures FormatTimeRemaining(now + 5400000, now) == "1h 30m"
    ensures FormatTimeRemaining(now + 600000, now) == "10m"
    ensures FormatTimeRemaining(now - 300000, now) == "-5m"
  {
    assert (now + 5400000 - now) / 60000 == 90;
    assert NatToString(30) == NatToString(3) + [DigitChar(0)];
    assert IntToString(1) == "1" && IntToString(30) == "30";
  }
}
