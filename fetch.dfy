/** `fetchMatches`: the request URL for a team and an optional competition
    code, and the filter and projection applied to the fixtures the provider
    returns. The HTTP GET itself is a parameter: a function from the URL to the
    fixture list, or to nothing when the request or the body fails. */
module Fetch {
  import opened Outcomes
  import opened Sequences
  import opened Text

  /** One item of the provider's `matches` list, reduced to the fields the bot
      reads. A crest the provider leaves out is `None`. */
  datatype Fixture = Fixture(
    utcDate: string,
    status: string,
    competitionName: string,
    homeTeamName: string,
    homeTeamCrest: Option<string>,
    awayTeamName: string,
    awayTeamCrest: Option<string>)

  /** The record `fetchMatches` returns for each kept fixture. */
  datatype MatchRecord = MatchRecord(
    competition: string,
    homeTeam: string,
    awayTeam: string,
    date: string,
    status: string,
    homeTeamLogo: Option<string>,
    awayTeamLogo: Option<string>)

  /** The error `fetchMatches` throws for any failure of the call. */
  datatype FetchError = CouldNotFetch

  const FootballApiUrl := "https://api.football-data.org/v4/teams"
  const MatchesSuffix := "/matches"
  const CompetitionsQuery := "?competitions="

  /** JavaScript truthiness of an optional string: present and non-empty. */
  predicate Truthy(code: Option<string>)
  {
    code.Some? && code.value != ""
  }

  function MatchesPath(teamId: nat): string
  {
    FootballApiUrl + "/" + DecimalString(teamId) + MatchesSuffix
  }

  /** The request URL: the team's matches path, with the competition filter
      appended exactly when a non-empty code is given. */
  function RequestUrl(teamId: nat, competitionCode: Option<string>): (url: string)
    ensures StartsWith(url, MatchesPath(teamId))
    ensures Truthy(competitionCode) <==> |url| > |MatchesPath(teamId)|
  {
    var path := MatchesPath(teamId);
    if Truthy(competitionCode) then path + CompetitionsQuery + competitionCode.value else path
  }

  /** Reads a team ID and an optional competition code back out of a URL of
      the shape `RequestUrl` builds. */
  function ParseRequestUrl(url: string): Option<(nat, Option<string>)>
  {
    var base := FootballApiUrl + "/";
    if StartsWith(url, base) then ParseIdAndQuery(url[|base|..]) else None
  }

  /** The part of a request URL after the base: digits, then the tail. */
  function ParseIdAndQuery(rest: string): Option<(nat, Option<string>)>
  {
    var k := LeadingDigits(rest);
    if k == 0 then None
    else
      match ParseQuery(rest[k..])
      case None => None
      case Some(code) => Some((DigitsValue(rest[..k]), code))
  }

  /** `/matches`, optionally followed by a non-empty competition filter. */
  function ParseQuery(tail: string): Option<Option<string>>
  {
    var query := MatchesSuffix + CompetitionsQuery;
    if tail == MatchesSuffix then Some(None)
    else if StartsWith(tail, query) && |tail| > |query| then Some(Some(tail[|query|..]))
    else None
  }

  lemma StripPrefix(p: string, s: string)
    ensures StartsWith(p + s, p) && (p + s)[|p|..] == s
  {
    assert (p + s)[..|p|] == p;
  }

  lemma Regroup(a: string, b: string, c: string, d: string, e: string)
    ensures a + b + c + d + e == a + (b + (c + d + e))
    ensures a + b + c == a + (b + c)
  {
  }

  lemma ParseQueryRoundTrip(competitionCode: Option<string>)
    ensures ParseQuery(if Truthy(competitionCode)
                       then MatchesSuffix + CompetitionsQuery + competitionCode.value
                       else MatchesSuffix)
         == Some(if Truthy(competitionCode) then competitionCode else None)
  {
    if Truthy(competitionCode) {
      var query := MatchesSuffix + CompetitionsQuery;
      StripPrefix(query, competitionCode.value);
      assert |query + competitionCode.value| > |MatchesSuffix|;
    }
  }

  lemma ParseIdAndQueryRoundTrip(teamId: nat, tail: string)
    requires |tail| > 0 && tail[0] == '/'
    ensures ParseIdAndQuery(DecimalString(teamId) + tail)
         == match ParseQuery(tail)
            case None => None
            case Some(code) => Some((teamId, code))
  {
    var digits := DecimalString(teamId);
    LeadingDigitsOfDigitsThen(digits, tail);
    assert (digits + tail)[..|digits|] == digits;
    assert (digits + tail)[|digits|..] == tail;
    DecimalRoundTrip(teamId);
  }

  /** The URL determines the team ID and the competition filter that were
      used: a falsy code is the same as no code, and nothing else is lost. */
  lemma RequestUrlRoundTrip(teamId: nat, competitionCode: Option<string>)
    ensures ParseRequestUrl(RequestUrl(teamId, competitionCode))
         == Some((teamId, if Truthy(competitionCode) then competitionCode else None))
  {
    var base := FootballApiUrl + "/";
    var digits := DecimalString(teamId);
    var tail := if Truthy(competitionCode)
      then MatchesSuffix + CompetitionsQuery + competitionCode.value
      else MatchesSuffix;
    if Truthy(competitionCode) {
      Regroup(base, digits, MatchesSuffix, CompetitionsQuery, competitionCode.value);
    } else {
      Regroup(base, digits, MatchesSuffix, [], []);
    }
    StripPrefix(base, digits + tail);
    ParseQueryRoundTrip(competitionCode);
    ParseIdAndQueryRoundTrip(teamId, tail);
  }

  /** `match.utcDate > today`: a comparison of strings, not of instants. */
  predicate IsFuture(f: Fixture, now: string)
  {
    Before(now, f.utcDate)
  }

  /** The fixtures dated after `now`: all of them, each as often as it
      occurs, none other, in their original order. */
  function FutureFixtures(fixtures: seq<Fixture>, now: string): (r: seq<Fixture>)
    ensures |r| == CountWhere(fixtures, f => IsFuture(f, now)) <= |fixtures|
    ensures IsSubsequence(r, fixtures)
    ensures forall i :: 0 <= i < |r| ==> IsFuture(r[i], now) && r[i] in fixtures
    ensures forall i :: 0 <= i < |fixtures| && IsFuture(fixtures[i], now) ==> fixtures[i] in r
  {
    Filter(fixtures, f => IsFuture(f, now))
  }

  /** Of three fixtures whose first is not after `now`, the other two are
      kept. */
  lemma FutureOfThree(past: Fixture, next: Fixture, later: Fixture, now: string)
    requires !IsFuture(past, now) && IsFuture(next, now) && IsFuture(later, now)
    ensures FutureFixtures([past, next, later], now) == [next, later]
  {
    var fixtures := [past, next, later];
    var keep := (f: Fixture) => IsFuture(f, now);
    assert fixtures[1..] == [next, later] && fixtures[1..][1..] == [later];
    assert Filter([later], keep) == [later] by {
      assert [later][1..] == [];
    }
    assert Filter([next, later], keep) == [next] + Filter([later], keep);
    assert Filter(fixtures, keep) == Filter([next, later], keep);
  }

  /** A later `now` keeps a subsequence of what an earlier one keeps. */
  lemma FutureShrinksAsTimePasses(fixtures: seq<Fixture>, earlier: string, later: string)
    requires Before(earlier, later) || earlier == later
    ensures IsSubsequence(FutureFixtures(fixtures, later), FutureFixtures(fixtures, earlier))
  {
    forall f: Fixture | IsFuture(f, later) ensures IsFuture(f, earlier) {
      if earlier != later {
        BeforeTransitive(earlier, later, f.utcDate);
      }
    }
    FilterStronger(fixtures, f => IsFuture(f, earlier), f => IsFuture(f, later));
  }

  function ToRecord(f: Fixture): MatchRecord
  {
    MatchRecord(f.competitionName, f.homeTeamName, f.awayTeamName, f.utcDate,
                f.status, f.homeTeamCrest, f.awayTeamCrest)
  }

  /** The inverse of `ToRecord`: a record keeps every field the bot reads
      from a fixture, the date string unchanged. */
  function FromRecord(m: MatchRecord): Fixture
  {
    Fixture(m.date, m.status, m.competition, m.homeTeam, m.homeTeamLogo,
            m.awayTeam, m.awayTeamLogo)
  }

  /** One record per fixture, in the same order. */
  function Project(fixtures: seq<Fixture>): (r: seq<MatchRecord>)
    ensures |r| == |fixtures|
    ensures forall i :: 0 <= i < |r| ==> FromRecord(r[i]) == fixtures[i] && r[i].date == fixtures[i].utcDate
  {
    Map(fixtures, ToRecord)
  }

  /** `fetchMatches(teamId, competitionCode)` with the clock reading `now` and
      the GET as `respond`: fails exactly when the GET at the request URL
      fails. */
  function FetchMatches(teamId: nat, competitionCode: Option<string>, now: string,
                        respond: string -> Option<seq<Fixture>>): (r: Result<seq<MatchRecord>, FetchError>)
    ensures r.Failure? <==> respond(RequestUrl(teamId, competitionCode)).None?
  {
    match respond(RequestUrl(teamId, competitionCode))
    case None => Failure(CouldNotFetch)
    case Some(fixtures) => Success(Project(FutureFixtures(fixtures, now)))
  }

  /** Every returned record is dated after `now` and comes from a fixture of
      the response; every fixture of the response dated after `now` is
      returned; there are never more records than fixtures. */
  lemma FetchedMatchesAreTheFutureOnes(teamId: nat, competitionCode: Option<string>, now: string,
                                      respond: string -> Option<seq<Fixture>>)
    requires respond(RequestUrl(teamId, competitionCode)).Some?
    ensures var fixtures := respond(RequestUrl(teamId, competitionCode)).value;
            var r := FetchMatches(teamId, competitionCode, now, respond);
            && r.Success?
            && |r.value| <= |fixtures|
            && (forall m :: m in r.value ==> Before(now, m.date) && FromRecord(m) in fixtures)
            && (forall f :: f in fixtures && Before(now, f.utcDate) ==> ToRecord(f) in r.value)
  {
    var fixtures := respond(RequestUrl(teamId, competitionCode)).value;
    var kept := FutureFixtures(fixtures, now);
    var ms := Project(kept);
    forall m | m in ms ensures Before(now, m.date) && FromRecord(m) in fixtures {
      var i :| 0 <= i < |ms| && ms[i] == m;
    }
    forall f | f in fixtures && Before(now, f.utcDate) ensures ToRecord(f) in ms {
      var i :| 0 <= i < |fixtures| && fixtures[i] == f;
      var j :| 0 <= j < |kept| && kept[j] == f;
      assert FromRecord(ms[j]) == f;
      assert ms[j] == ToRecord(f);
    }
  }

  /** Only the response at the request URL matters. */
  lemma FetchReadsOnlyItsUrl(teamId: nat, competitionCode: Option<string>, now: string,
                             respond1: string -> Option<seq<Fixture>>,
                             respond2: string -> Option<seq<Fixture>>)
    requires respond1(RequestUrl(teamId, competitionCode)) == respond2(RequestUrl(teamId, competitionCode))
    ensures FetchMatches(teamId, competitionCode, now, respond1) == FetchMatches(teamId, competitionCode, now, respond2)
  {
  }
}
