/** The `interactionCreate` handler: autocomplete requests get suggestion
    lists, and the `/partidos` command resolves the team, fetches its
    matches and replies with text. The clock reading, the HTTP GET and the
    locale's date formatting are parameters. */
module Bot {
  import opened Outcomes
  import opened Sequences
  import opened Text
  import opened Registry
  import opened Fetch
  import opened Autocomplete
  import opened Replies

  datatype Interaction =
    | AutocompleteRequest(focusedName: string, typed: string)
    | CommandRequest(commandName: string, equipo: string, competicion: Option<string>)

  /** What the bot sends back for one interaction. */
  datatype Answer = Choices(suggestions: seq<Suggestion>) | Reply(text: string) | NoAnswer

  const FetchFailedReply := "Hubo un problema al obtener los datos. Por favor, inténtalo de nuevo."

  /** The rejection for a team that is not in the table: it quotes the input
      exactly as typed. */
  function UnknownTeamReply(team: string): (r: string)
    ensures Contains(r, "\"" + team + "\"")
  {
    var quoted := "\"" + team + "\"";
    ContainsMiddle("El equipo ", quoted, " no está en la lista de equipos conocidos.");
    "El equipo " + quoted + " no está en la lista de equipos conocidos."
  }

  /** Team resolution over the table's own keys: it succeeds exactly when the
      lower-cased input is a key, and then yields that key's non-zero ID. */
  function Resolve(team: string): (r: Option<nat>)
    ensures r.Some? <==> HasKey(Teams, Lower(team))
    ensures r.Some? ==> r.value != 0 && exists i :: 0 <= i < |Teams| && Teams[i] == (Lower(team), r.value)
  {
    TeamsWellFormed();
    Lookup(Teams, Lower(team))
  }

  /** Any letter case of a known team's name resolves to that team's ID. */
  lemma ResolveAnyCase(team: string, i: nat)
    requires i < |Teams| && Lower(team) == Teams[i].0
    ensures Resolve(team) == Some(Teams[i].1)
  {
    TeamsWellFormed();
    LookupFindsEntry(Teams, i);
  }

  /** Every team suggestion, by its value and by its displayed name alike,
      resolves to the ID of the team it was built from. */
  lemma SuggestedTeamsResolve(typed: string, i: nat)
    requires i < |TeamSuggestions(typed)|
    ensures var s := TeamSuggestions(typed)[i];
            var e := MatchingEntries(Teams, typed)[i];
            Resolve(s.value) == Resolve(s.name) == Some(e.1)
  {
    TeamsWellFormed();
    MatchedKeysResolve(Teams, typed, i);
  }

  /** In a table with distinct lower-case keys, a matched entry is found
      again from its key and from its capitalised key. */
  lemma MatchedKeysResolve<V>(t: Table<V>, typed: string, i: nat)
    requires DistinctKeys(t)
    requires forall j :: 0 <= j < |t| ==> IsLowerCase(t[j].0)
    requires i < |MatchingEntries(t, typed)|
    ensures var e := MatchingEntries(t, typed)[i];
            Lookup(t, Lower(e.0)) == Lookup(t, Lower(Capitalise(e.0))) == Some(e.1)
  {
    var e := MatchingEntries(t, typed)[i];
    var j :| 0 <= j < |t| && t[j] == e;
    LookupFindsEntry(t, j);
  }

  /** `options.getString('competicion') || null`: an empty string counts as
      no competition. */
  function CompetitionOption(competicion: Option<string>): (r: Option<string>)
    ensures r.Some? <==> Truthy(competicion)
    ensures r.Some? ==> r == competicion
  {
    if competicion == Some("") then None else competicion
  }

  /** One interaction: an autocomplete request on either option gets that
      option's suggestion list and nothing else gets choices; a `/partidos`
      command always gets exactly one text reply and no other command gets
      any answer. */
  function Handle(i: Interaction, now: string, respond: string -> Option<seq<Fixture>>,
                  localize: string -> string): (a: Answer)
    ensures i.AutocompleteRequest? ==> !a.Reply? && (a.Choices? <==> i.focusedName in ["equipo", "competicion"])
    ensures i.AutocompleteRequest? && i.focusedName == "equipo" ==> a == Choices(TeamSuggestions(i.typed))
    ensures i.AutocompleteRequest? && i.focusedName == "competicion" ==> a == Choices(CompetitionSuggestions(i.typed))
    ensures i.CommandRequest? ==> !a.Choices? && (a.Reply? <==> i.commandName == "partidos")
  {
    match i
    case AutocompleteRequest(name, typed) => AutocompleteAnswer(name, typed)
    case CommandRequest(command, team, competicion) => CommandAnswer(command, team, competicion, now, respond, localize)
  }

  /** The autocomplete branch: each of the two options gets its own list. */
  function AutocompleteAnswer(name: string, typed: string): (a: Answer)
    ensures !a.Reply? && (a.Choices? <==> name in ["equipo", "competicion"])
    ensures name == "equipo" ==> a == Choices(TeamSuggestions(typed))
    ensures name == "competicion" ==> a == Choices(CompetitionSuggestions(typed))
  {
    if name == "equipo" then Choices(TeamSuggestions(typed))
    else if name == "competicion" then Choices(CompetitionSuggestions(typed))
    else NoAnswer
  }

  /** The command branch: `/partidos` resolves the team, fetches and replies;
      any other command gets no answer. */
  function CommandAnswer(command: string, team: string, competicion: Option<string>, now: string,
                         respond: string -> Option<seq<Fixture>>, localize: string -> string): (a: Answer)
    ensures !a.Choices? && (a.Reply? <==> command == "partidos")
  {
    if command != "partidos" then NoAnswer
    else
      var competition := CompetitionOption(competicion);
      match Resolve(team)
      case None => Reply(UnknownTeamReply(team))
      case Some(teamId) =>
        match FetchMatches(teamId, competition, now, respond)
        case Failure(_) => Reply(FetchFailedReply)
        case Success(ms) => Reply(MatchesReply(team, competition, ms, localize))
  }

  /** For a known team the command's answer is decided by the fetch. */
  lemma KnownTeamCommand(team: string, competicion: Option<string>, now: string,
                         respond: string -> Option<seq<Fixture>>, localize: string -> string)
    requires Resolve(team).Some?
    ensures var competition := CompetitionOption(competicion);
            Handle(CommandRequest("partidos", team, competicion), now, respond, localize)
            == match FetchMatches(Resolve(team).value, competition, now, respond)
               case Failure(_) => Reply(FetchFailedReply)
               case Success(ms) => Reply(MatchesReply(team, competition, ms, localize))
  {
  }

  /** For a known team whose request succeeds: when no fixture is dated
      after `now` the reply is the not-found sentence; otherwise it is the
      blocks of the first five future matches at most, in the provider's
      order, joined by blank lines. */
  lemma KnownTeamReply(team: string, competicion: Option<string>, now: string,
                       respond: string -> Option<seq<Fixture>>, localize: string -> string)
    requires Resolve(team).Some?
    requires respond(RequestUrl(Resolve(team).value, CompetitionOption(competicion))).Some?
    ensures var fixtures := respond(RequestUrl(Resolve(team).value, CompetitionOption(competicion))).value;
            var shown := ShownBlocks(Project(FutureFixtures(fixtures, now)), localize);
            var a := Handle(CommandRequest("partidos", team, competicion), now, respond, localize);
            && ((forall k :: 0 <= k < |fixtures| ==> !IsFuture(fixtures[k], now))
                ==> a == Reply(NotFoundReply(team, CompetitionOption(competicion))))
            && ((exists k :: 0 <= k < |fixtures| && IsFuture(fixtures[k], now))
                ==> 1 <= |shown| <= MaxShown && a == Reply(Join(shown, BlockSeparator)))
  {
    KnownTeamCommand(team, competicion, now, respond, localize);
    var fixtures := respond(RequestUrl(Resolve(team).value, CompetitionOption(competicion))).value;
    var future := FutureFixtures(fixtures, now);
    if k :| 0 <= k < |fixtures| && IsFuture(fixtures[k], now) {
      assert fixtures[k] in future;
    } else if |future| > 0 {
      assert future[0] in fixtures;
    }
  }

  /** An unknown team is rejected with its name quoted verbatim, and nothing
      is requested from the provider. */
  lemma UnknownTeamIsRejected(team: string, competicion: Option<string>, now: string,
                              respond: string -> Option<seq<Fixture>>, localize: string -> string)
    requires !HasKey(Teams, Lower(team))
    ensures var a := Handle(CommandRequest("partidos", team, competicion), now, respond, localize);
            a == Reply(UnknownTeamReply(team)) && Contains(a.text, "\"" + team + "\"")
  {
  }

  /** For a known team the answer depends on the provider only through the
      response at the URL built from the team's ID and the competition. */
  lemma KnownTeamReadsOnlyItsUrl(team: string, competicion: Option<string>, now: string,
                                 respond1: string -> Option<seq<Fixture>>,
                                 respond2: string -> Option<seq<Fixture>>,
                                 localize: string -> string)
    requires Resolve(team).Some?
    requires var url := RequestUrl(Resolve(team).value, CompetitionOption(competicion));
             respond1(url) == respond2(url)
    ensures Handle(CommandRequest("partidos", team, competicion), now, respond1, localize)
         == Handle(CommandRequest("partidos", team, competicion), now, respond2, localize)
  {
    FetchReadsOnlyItsUrl(Resolve(team).value, CompetitionOption(competicion), now, respond1, respond2);
  }

  /** A failed request for a known team gives the one generic apology. */
  lemma UpstreamFailureIsGeneric(team: string, competicion: Option<string>, now: string,
                                 respond: string -> Option<seq<Fixture>>, localize: string -> string)
    requires Resolve(team).Some?
    requires respond(RequestUrl(Resolve(team).value, CompetitionOption(competicion))).None?
    ensures Handle(CommandRequest("partidos", team, competicion), now, respond, localize) == Reply(FetchFailedReply)
  {
  }

  /** `TEAMS[key]` as JavaScript evaluates it: an own property, or a member
      every object inherits from `Object.prototype`. */
  datatype PropertyValue = OwnTeamId(id: nat) | InheritedMember(name: string)

  /** The members of `Object.prototype` whose names are all lower case, so
      that a lower-cased input can reach them. */
  const InheritedLowerCaseNames: seq<string> := ["constructor", "__proto__"]

  /** An own key yields its team ID; otherwise one of the inherited names
      yields that member; anything else is `undefined`. */
  function PropertyAsWritten(key: string): (r: Option<PropertyValue>)
    ensures (r.Some? && r.value.OwnTeamId?) <==> HasKey(Teams, key)
    ensures r.Some? && r.value.OwnTeamId? ==> exists i :: 0 <= i < |Teams| && Teams[i] == (key, r.value.id)
    ensures (r.Some? && r.value.InheritedMember?) <==> !HasKey(Teams, key) && key in InheritedLowerCaseNames
    ensures r.Some? && r.value.InheritedMember? ==> r.value.name == key
  {
    match Lookup(Teams, key)
    case Some(id) => Some(OwnTeamId(id))
    case None => if key in InheritedLowerCaseNames then Some(InheritedMember(key)) else None
  }

  predicate IsTruthy(v: Option<PropertyValue>)
  {
    match v
    case None => false
    case Some(OwnTeamId(id)) => id != 0
    case Some(InheritedMember(_)) => true
  }

  /** The guard `!TEAMS[team.toLowerCase()]` as written: it lets through any
      input whose lower-cased form names a truthy property, own or inherited. */
  function ResolveAsWritten(team: string): (r: Option<PropertyValue>)
    ensures r.Some? <==> IsTruthy(PropertyAsWritten(Lower(team)))
  {
    var v := PropertyAsWritten(Lower(team));
    if IsTruthy(v) then v else None
  }

  /** "Constructor" is not a team, yet it passes the guard as written and
      would be used as a team ID; the corrected resolution rejects it. */
  lemma ConstructorPassesGuardAsWritten()
    ensures ResolveAsWritten("Constructor") == Some(InheritedMember("constructor"))
    ensures Resolve("Constructor") == None
  {
    LowerOfConstructor();
    TeamKeysAreShort();
    assert |"constructor"| == 11;
  }

  lemma LowerOfConstructor()
    ensures Lower("Constructor") == "constructor"
  {
  }

  lemma TeamKeysAreShort()
    ensures forall i :: 0 <= i < |Teams| ==> |Teams[i].0| <= 9
  {
  }

  /** Away from the two inherited names the guard as written and the
      corrected resolution agree, because no team ID is 0. */
  lemma AsWrittenAgreesOffPrototype(team: string)
    requires Lower(team) !in InheritedLowerCaseNames
    ensures ResolveAsWritten(team).Some? <==> Resolve(team).Some?
    ensures Resolve(team).Some? ==> ResolveAsWritten(team) == Some(OwnTeamId(Resolve(team).value))
  {
    TeamsWellFormed();
  }

  /** A known team, three fixtures of which the first is not after `now`:
      the reply holds exactly the two later matches, in the order the
      provider listed them. */
  lemma TwoOfThreeFixturesShown(team: string, competicion: Option<string>, now: string,
                                past: Fixture, next: Fixture, later: Fixture,
                                respond: string -> Option<seq<Fixture>>, localize: string -> string)
    requires Resolve(team).Some?
    requires respond(RequestUrl(Resolve(team).value, CompetitionOption(competicion))) == Some([past, next, later])
    requires !Before(now, past.utcDate) && Before(now, next.utcDate) && Before(now, later.utcDate)
    ensures Handle(CommandRequest("partidos", team, competicion), now, respond, localize)
         == Reply(Block(ToRecord(next), localize) + BlockSeparator + Block(ToRecord(later), localize))
  {
    var teamId, competition := Resolve(team).value, CompetitionOption(competicion);
    FutureOfThree(past, next, later, now);
    var ms := Project([next, later]);
    assert ms == [ToRecord(next), ToRecord(later)];
    assert FetchMatches(teamId, competition, now, respond) == Success(ms);
    ReplyOfTwo(team, competition, ToRecord(next), ToRecord(later), localize);
    KnownTeamCommand(team, competicion, now, respond, localize);
  }

  /** The same with team "Barcelona", no competition and concrete dates;
      `now` has the shape `toISOString` gives it, so the fixture dated the
      same second is kept, because `"Z"` sorts after `".000Z"`. */
  lemma BarcelonaExample(past: Fixture, next: Fixture, later: Fixture, localize: string -> string)
    requires past.utcDate == "2024-09-28T19:00:00Z"
    requires next.utcDate == "2024-10-01T12:00:00Z"
    requires later.utcDate == "2024-10-19T16:30:00Z"
    ensures var respond := (url: string) => Some([past, next, later]);
            Handle(CommandRequest("partidos", "Barcelona", None), "2024-10-01T12:00:00.000Z", respond, localize)
            == Reply(Block(ToRecord(next), localize) + BlockSeparator + Block(ToRecord(later), localize))
  {
    var respond := (url: string) => Some([past, next, later]);
    ExampleDatesAroundNow();
    BarcelonaResolves();
    TwoOfThreeFixturesShown("Barcelona", None, "2024-10-01T12:00:00.000Z", past, next, later, respond, localize);
  }

  /** Of the three example dates only the first is not after `now`. */
  lemma ExampleDatesAroundNow()
    ensures var now := "2024-10-01T12:00:00.000Z";
            && !Before(now, "2024-09-28T19:00:00Z")
            && Before(now, "2024-10-01T12:00:00Z")
            && Before(now, "2024-10-19T16:30:00Z")
  {
    PastDateBeforeNow();
    BeforeTotal("2024-10-01T12:00:00.000Z", "2024-09-28T19:00:00Z");
    SameSecondAfterNow();
    LaterDateAfterNow();
  }

  lemma PastDateBeforeNow()
    ensures Before("2024-09-28T19:00:00Z", "2024-10-01T12:00:00.000Z")
  {
  }

  /** A provider date without milliseconds, in the very second of `now`:
      the two agree up to the seconds, where `"."` sorts before `"Z"`. */
  lemma SameSecondAfterNow()
    ensures Before("2024-10-01T12:00:00.000Z", "2024-10-01T12:00:00Z")
  {
    BeforeAtFirstDifference("2024-10-01T12:00:00", ".000Z", "Z");
    assert "2024-10-01T12:00:00" + ".000Z" == "2024-10-01T12:00:00.000Z";
    assert "2024-10-01T12:00:00" + "Z" == "2024-10-01T12:00:00Z";
  }

  lemma LaterDateAfterNow()
    ensures Before("2024-10-01T12:00:00.000Z", "2024-10-19T16:30:00Z")
  {
  }

  lemma BarcelonaResolves()
    ensures Resolve("Barcelona") == Some(81)
  {
    LowerOfBarcelona();
    ResolveAnyCase("Barcelona", 0);
  }

  lemma LowerOfBarcelona()
    ensures Lower("Barcelona") == Teams[0].0
  {
  }
}
