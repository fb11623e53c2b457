/** The text the `/partidos` command replies with once the team is known and
    the fetch succeeded. `new Date(date).toLocaleString()` depends on the
    host's locale and time zone, so it is the parameter `localize`. */
module Replies {
  import opened Outcomes
  import opened Sequences
  import opened Text
  import opened Fetch

  const MaxShown: nat := 5
  const BlockSeparator := "\n\n"

  /** How a template string shows a crest: the URL, or "undefined" when the
      provider gave none; any other text shown is the crest itself. */
  function LogoText(logo: Option<string>): (r: string)
    ensures logo.Some? ==> r == logo.value
    ensures r != "undefined" ==> logo == Some(r)
  {
    match logo
    case Some(url) => url
    case None => "undefined"
  }

  /** The three lines shown for one match. */
  function Block(m: MatchRecord, localize: string -> string): string
  {
    CompetitionLine(m) + TeamsLine(m) + DateLine(m, localize)
  }

  function CompetitionLine(m: MatchRecord): string
  {
    "**" + m.competition + "**\n"
  }

  function TeamsLine(m: MatchRecord): string
  {
    HomeSide(m) + " vs " + AwaySide(m)
  }

  function HomeSide(m: MatchRecord): string
  {
    m.homeTeam + " " + LogoText(m.homeTeamLogo)
  }

  function AwaySide(m: MatchRecord): string
  {
    m.awayTeam + " " + LogoText(m.awayTeamLogo)
  }

  function DateLine(m: MatchRecord, localize: string -> string): string
  {
    "\n📅 " + localize(m.date) + " | Estado: " + m.status
  }

  /** The teams line names the home team and the away team. */
  lemma TeamsLineNamesBoth(m: MatchRecord)
    ensures Contains(TeamsLine(m), m.homeTeam) && Contains(TeamsLine(m), m.awayTeam)
  {
    ThreeParts(HomeSide(m), " vs ", AwaySide(m));
    ThreeParts(m.homeTeam, " ", LogoText(m.homeTeamLogo));
    ThreeParts(m.awayTeam, " ", LogoText(m.awayTeamLogo));
    ContainsTransitive(TeamsLine(m), HomeSide(m), m.homeTeam);
    ContainsTransitive(TeamsLine(m), AwaySide(m), m.awayTeam);
  }

  /** The date line shows the localized date and ends with the status. */
  lemma DateLineShowsDateAndStatus(m: MatchRecord, localize: string -> string)
    ensures Contains(DateLine(m, localize), localize(m.date))
    ensures EndsWith(DateLine(m, localize), m.status)
  {
    var tail := " | Estado: " + m.status;
    ThreeParts("\n📅 ", localize(m.date), tail);
    assert DateLine(m, localize) == "\n📅 " + localize(m.date) + tail;
    ThreeParts([], " | Estado: ", m.status);
    EndsWithTransitive(DateLine(m, localize), tail, m.status);
  }

  /** A block opens with the competition in bold on a line of its own,
      names both teams, shows the localized date, and ends with the status. */
  lemma BlockLayout(m: MatchRecord, localize: string -> string)
    ensures var b := Block(m, localize);
            && StartsWith(b, "**" + m.competition + "**\n")
            && Contains(b, m.homeTeam)
            && Contains(b, m.awayTeam)
            && Contains(b, localize(m.date))
            && EndsWith(b, m.status)
  {
    var b := Block(m, localize);
    var c, t, d := CompetitionLine(m), TeamsLine(m), DateLine(m, localize);
    ThreeParts(c, t, d);
    TeamsLineNamesBoth(m);
    DateLineShowsDateAndStatus(m, localize);
    ContainsTransitive(b, t, m.homeTeam);
    ContainsTransitive(b, t, m.awayTeam);
    ContainsTransitive(b, d, localize(m.date));
    EndsWithTransitive(b, d, m.status);
  }

  /** The blocks actually shown: the first five matches at most, in order. */
  function ShownBlocks(ms: seq<MatchRecord>, localize: string -> string): (bs: seq<string>)
    ensures |bs| == if |ms| <= MaxShown then |ms| else MaxShown
    ensures forall i :: 0 <= i < |bs| ==> bs[i] == Block(ms[i], localize)
  {
    Map(Take(ms, MaxShown), m => Block(m, localize))
  }

  function CompetitionClause(competition: Option<string>): string
  {
    if Truthy(competition) then " en la competición **" + competition.value + "**" else ""
  }

  /** The sentence sent when no future match was found: it names the team in
      bold, and the competition when one was given. */
  function NotFoundReply(team: string, competition: Option<string>): (r: string)
    ensures Contains(r, "**" + team + "**")
    ensures Truthy(competition) ==> Contains(r, " en la competición **" + competition.value + "**")
  {
    var head := "No se encontraron partidos para el equipo ";
    var tail := " a partir de hoy.";
    var bold := "**" + team + "**";
    ContainsInner(head, bold, CompetitionClause(competition), tail);
    head + bold + CompetitionClause(competition) + tail
  }

  /** The competition clause is there exactly when a competition was given:
      a falsy competition reads as none, and a given one lengthens the
      sentence by its clause. */
  lemma NotFoundNamesCompetitionIffGiven(team: string, competition: Option<string>)
    ensures !Truthy(competition) ==> NotFoundReply(team, competition) == NotFoundReply(team, None)
    ensures |NotFoundReply(team, competition)| > |NotFoundReply(team, None)| <==> Truthy(competition)
  {
  }

  /** The reply to a successful fetch: the not-found sentence for an empty
      list, otherwise text that opens with the first match's block. */
  function MatchesReply(team: string, competition: Option<string>, ms: seq<MatchRecord>,
                        localize: string -> string): (r: string)
    ensures |ms| == 0 ==> r == NotFoundReply(team, competition)
    ensures |ms| > 0 ==> StartsWith(r, Block(ms[0], localize))
  {
    if |ms| == 0 then NotFoundReply(team, competition)
    else Join(ShownBlocks(ms, localize), BlockSeparator)
  }

  /** A non-empty list is shown as the blocks of its first `min(5, |ms|)`
      matches, in order, each pair separated by one blank line and nothing
      else added. */
  lemma MatchesReplyLayout(team: string, competition: Option<string>, ms: seq<MatchRecord>,
                           localize: string -> string)
    requires |ms| > 0
    ensures var bs := ShownBlocks(ms, localize);
            && MatchesReply(team, competition, ms, localize) == Join(bs, BlockSeparator)
            && |MatchesReply(team, competition, ms, localize)| == TotalLength(bs) + (|bs| - 1) * 2
            && MatchesReply(team, competition, ms, localize)[..|Block(ms[0], localize)|] == Block(ms[0], localize)
            && (|ms| > 1 ==> MatchesReply(team, competition, ms, localize)[|Block(ms[0], localize)|..|Block(ms[0], localize)| + 2] == BlockSeparator)
  {
  }

  /** Below five matches, one more match adds a blank line and its block at
      the end of the reply: the shown blocks appear in the order of the
      list. */
  lemma MatchesReplyAppend(team: string, competition: Option<string>, ms: seq<MatchRecord>,
                           m: MatchRecord, localize: string -> string)
    requires 0 < |ms| < MaxShown
    ensures MatchesReply(team, competition, ms + [m], localize)
         == MatchesReply(team, competition, ms, localize) + BlockSeparator + Block(m, localize)
  {
    var bs := ShownBlocks(ms, localize);
    assert ShownBlocks(ms + [m], localize) == bs + [Block(m, localize)];
    JoinAppend(bs, Block(m, localize), BlockSeparator);
  }

  /** Matches beyond the fifth never reach the reply. */
  lemma MatchesReplyIgnoresBeyondFive(team: string, competition: Option<string>, ms: seq<MatchRecord>,
                                      localize: string -> string)
    requires |ms| > MaxShown
    ensures MatchesReply(team, competition, ms, localize) == MatchesReply(team, competition, ms[..MaxShown], localize)
  {
    assert ShownBlocks(ms, localize) == ShownBlocks(ms[..MaxShown], localize);
  }

  /** Two matches are shown as their two blocks around one blank line. */
  lemma ReplyOfTwo(team: string, competition: Option<string>, m1: MatchRecord, m2: MatchRecord,
                   localize: string -> string)
    ensures MatchesReply(team, competition, [m1, m2], localize)
         == Block(m1, localize) + BlockSeparator + Block(m2, localize)
  {
    var bs := ShownBlocks([m1, m2], localize);
    assert bs == [Block(m1, localize), Block(m2, localize)];
    assert bs[1..] == [Block(m2, localize)];
    assert Join(bs, BlockSeparator) == bs[0] + BlockSeparator + Join(bs[1..], BlockSeparator);
  }
}
