# Bot-partidos: the match-lookup logic of the `/partidos` Discord command

`bot.js` runs a Discord bot with one slash command, `/partidos`. The command
takes a team name (`equipo`) and an optional competition (`competicion`),
asks the football-data.org API for that team's matches, and replies with up to
five upcoming ones. While the user types, the bot also answers autocomplete
requests for both options from two constant tables.

This project models the deterministic part of that file in Dafny:

- the `TEAMS` and `COMPETICION` tables, as sequences of entries so that their key order is kept (module `Registry`);
- `fetchMatches` (module `Fetch`), made of three parts:
  - the request URL;
  - the filter that keeps fixtures whose `utcDate` string compares greater than the current ISO time;
  - the projection of each kept fixture into a seven-field record;
- the autocomplete suggestion lists (module `Autocomplete`);
- the reply texts (module `Replies`);
- the `interactionCreate` handler as one function from an interaction to an answer, including team resolution (module `Bot`).

Three things are parameters instead of being modelled:

- the HTTP GET: a function `respond` from the URL to the fixture list, or to `None` when the request or the body fails;
- the clock: the string `now`, which stands for `new Date().toISOString()`;
- `toLocaleString`: a function `localize` from the date string to its display form.

The generic helpers `Filter`, `Map`, `Take` and `Join` model `Array.prototype` methods (module `Sequences`). Module `Text` holds the string operations: ASCII case mapping, `startsWith`, the `<` order on strings, and decimal rendering.

The model follows the code on three points a reader might expect to go otherwise:

- The crest values are always written into a reply block, whatever they are. A crest the provider leaves out prints as `undefined` (the model's `None`). A JSON `null` crest prints as `null` (the model's `Some("null")`).
- The competition given to the command is passed to the request as typed. It is never looked up in `COMPETICION`. Only the autocomplete values are codes taken from that table.
- "After now" is a comparison of strings, not of instants.

## Model

| member | source | states |
|---|---|---|
| `Fetch.RequestUrl` | bot.js:27-30 | the URL is the team's `/matches` path, and it is longer exactly when the competition code is truthy (present and non-empty) |
| `Fetch.RequestUrlRoundTrip` | bot.js:27-30 | parsing the URL gives back the team ID and the code (a falsy code reads as none), so the appended filter is exactly `?competitions=<code>` after `<base>/<id>/matches` |
| `Text.DecimalString` | bot.js:27 | `${teamId}` is a non-empty run of digits, with a leading `0` only for 0 |
| `Text.DecimalRoundTrip` | bot.js:27 | the digits written into the URL denote the team ID |
| `Text.Before` | bot.js:40 | `a < b` on strings: it holds only for distinct strings with `b` non-empty, and a proper prefix comes before its extensions |
| `Text.BeforeAtFirstDifference` | bot.js:40 | strings that share a prefix are ordered by their first differing character |
| `Text.BeforeTotal` | bot.js:40 | the string comparison used for "after now" is a strict total order: distinct strings are ordered one way and never both |
| `Text.BeforeTransitive` | bot.js:40 | the string comparison is transitive |
| `Fetch.FutureFixtures` | bot.js:39-40 | the kept fixtures are exactly those whose `utcDate` compares greater than `now`: their number is the number of such fixtures, each is kept as often as it occurs, in input order, never more than the input |
| `Fetch.FutureShrinksAsTimePasses` | bot.js:39-40 | a later `now` keeps a subsequence of what an earlier one keeps |
| `Fetch.FutureOfThree` | bot.js:40 | of three fixtures with the first not after `now` and the others after it, exactly the last two are kept |
| `Fetch.Project` | bot.js:43-51 | one record per fixture, same order, each giving back its fixture's fields, with `date` the unchanged `utcDate` |
| `Fetch.FetchMatches` | bot.js:24-56 | `fetchMatches` fails exactly when the GET at the request URL fails |
| `Fetch.FetchedMatchesAreTheFutureOnes` | bot.js:36-51 | on success every record is dated after `now` and comes from a fixture of the response, and every such fixture yields its record |
| `Fetch.FetchReadsOnlyItsUrl` | bot.js:27-34 | the result depends on the provider only through the response at the request URL |
| `Registry.Lookup` | bot.js:114 | a lookup finds a value exactly when the key is one of the table's keys, and the value is that key's entry |
| `Registry.LookupFindsEntry` | bot.js:133 | with distinct keys, looking up an entry's key returns that entry's value |
| `Registry.TeamsWellFormed` | bot.js:59-72 | `TEAMS` has distinct lower-case keys and no ID equal to 0 |
| `Registry.CompetitionsWellFormed` | bot.js:74-83 | `COMPETICION` has distinct labels and only non-empty codes |
| `Autocomplete.MatchingEntries` | bot.js:93-95 | kept are exactly the entries whose lower-cased key starts with the lower-cased typed text, all of them, in table order, and their number is the number of such entries |
| `Autocomplete.TypingNarrows` | bot.js:93-95 | typing more characters keeps a subsequence of the previous matches |
| `Autocomplete.EmptyTypedMatchesAll` | bot.js:93-95 | an empty typed text matches every key, in table order |
| `Text.Capitalise` | bot.js:98 | the displayed name has the key's length, its first character is not a lower-case letter, the rest is the key's unchanged, and it lower-cases to the same string as the key |
| `Text.Lower` | bot.js:94 | `toLowerCase` keeps the length, lowers each character, always gives a lower-case string, and leaves a lower-case string unchanged |
| `Autocomplete.TeamSuggestions` | bot.js:91-100 | one team choice per matched key, in order, named by the capitalised key and valued by the key |
| `Autocomplete.CompetitionSuggestions` | bot.js:106-115 | one competition choice per matched label, in order, named by the capitalised label and valued by its code |
| `Autocomplete.CompetitionValueIsCode` | bot.js:112-115 | a competition choice's value is `COMPETICION[label]` for its label, and it is non-empty |
| `Autocomplete.CompetitionValuesRepeat` | bot.js:74-83 | "LaLiga" and "premierleague" are offered under different names with the same value "PL" |
| `Bot.Resolve` | bot.js:128-133 | resolution succeeds exactly when the lower-cased name is a key of `TEAMS`, and then gives that key's non-zero ID |
| `Bot.ResolveAnyCase` | bot.js:128-133 | any letter case of a known team's name resolves to that team's ID |
| `Bot.MatchedKeysResolve` | bot.js:128-133 | a key matched for autocomplete is found again from itself and from its capitalised form |
| `Bot.SuggestedTeamsResolve` | bot.js:97-100 | a team choice's value and its displayed name both resolve to the team it was built from |
| `Bot.UnknownTeamReply` | bot.js:129 | the rejection quotes the input exactly as typed |
| `Bot.CompetitionOption` | bot.js:126 | an empty competition string becomes "no competition"; any other value is kept |
| `Bot.Handle` | bot.js:85-153 | autocomplete on `equipo` gets the team suggestions for the typed text and on `competicion` the competition suggestions, and no other option gets choices; a `/partidos` command gets exactly one text reply and other commands get nothing |
| `Bot.AutocompleteAnswer` | bot.js:86-118 | the focused option `equipo` is answered with the team suggestions for the typed text, `competicion` with the competition suggestions, and any other option with nothing; autocomplete never gets a text reply |
| `Bot.CommandAnswer` | bot.js:121-152 | a command gets a text reply exactly when it is `/partidos`, and never choices |
| `Bot.UnknownTeamIsRejected` | bot.js:128-131 | an unknown team gets the rejection naming the raw input |
| `Bot.KnownTeamReply` | bot.js:133-146 | for a known team whose request succeeds, no fixture after `now` gives the not-found sentence, and otherwise the reply is between one and five blocks of the future matches, in order, joined by blank lines |
| `Bot.KnownTeamReadsOnlyItsUrl` | bot.js:133-135 | for a known team the answer depends on the provider only at the URL of its ID and competition |
| `Bot.UpstreamFailureIsGeneric` | bot.js:148-150 | any failure of the request gives the one generic retry message |
| `Replies.NotFoundReply` | bot.js:137-138 | the empty-list sentence names the team in bold, and names the competition when one is given |
| `Replies.NotFoundNamesCompetitionIffGiven` | bot.js:138 | the competition clause is present exactly when the competition is truthy |
| `Replies.LogoText` | bot.js:143 | a present crest is printed as it is, and any printed text other than `undefined` is the crest itself |
| `Replies.BlockLayout` | bot.js:142-143 | a match's block opens with the competition in bold on its own line, names the home and the away team, shows the localized date, and ends with the status |
| `Replies.MatchesReply` | bot.js:137-146 | an empty list gives the not-found sentence, and a non-empty one opens with the first match's block |
| `Sequences.Join` | bot.js:145 | the joined text is as long as the parts plus one separator between each two, a single part is itself, and the separator follows the first part |
| `Sequences.JoinAppend` | bot.js:145 | appending a part appends one separator and that part, so the joined text is the parts in order with a separator between each two and nothing else |
| `Replies.MatchesReplyAppend` | bot.js:140-145 | below five matches, one more match adds a blank line and its block at the end of the reply, so the blocks appear in the order of the list |
| `Sequences.Filter` | bot.js:93-95 | the result keeps, in order, every element satisfying the predicate and only those, and its length is their number |
| `Sequences.Map` | bot.js:97-100 | the result has the input's length and its i-th element is the function applied to the i-th input element |
| `Sequences.Take` | bot.js:141 | `slice(0, n)` is a prefix of the input whose length is the smaller of `n` and the input's length |
| `Text.StartsWith` | bot.js:94 | `s.startsWith(p)` holds exactly when `p` is no longer than `s` and agrees with it character by character |
| `Replies.ShownBlocks` | bot.js:140-144 | `min(5, n)` blocks, the i-th rendering the i-th match |
| `Replies.MatchesReplyLayout` | bot.js:140-145 | a non-empty list renders as its shown blocks joined by single blank lines: it starts with the first block and its length is the blocks' total plus two per separator |
| `Replies.MatchesReplyIgnoresBeyondFive` | bot.js:141 | matches after the fifth never change the reply |
| `Replies.ReplyOfTwo` | bot.js:140-145 | two matches give their two blocks around one blank line |
| `Bot.TwoOfThreeFixturesShown` | bot.js:134-146 | a known team with one past and two future fixtures gets a reply of exactly the two future blocks, in order |
| `Bot.BarcelonaExample` | bot.js:124-146 | "Barcelona", no competition, `now` in the form `toISOString` gives, three fixtures with one in the past and one in the same second as `now`: exactly the last two blocks are shown |
| `Bot.ExampleDatesAroundNow` | bot.js:39-40 | against `now` written with milliseconds, a provider date in the same second but without milliseconds counts as after `now` |
| `Bot.PropertyAsWritten` | bot.js:128 | `TEAMS[key]` is an own team ID exactly for the table's keys, and that key's entry; otherwise `constructor` and `__proto__` reach an inherited member; anything else is `undefined` |
| `Bot.ResolveAsWritten` | bot.js:128 | the guard as written accepts any input whose lower-cased form names a truthy property, own or inherited |
| `Bot.ConstructorPassesGuardAsWritten` | bot.js:128 | "Constructor" passes the guard as written and is rejected by `Bot.Resolve` |
| `Bot.AsWrittenAgreesOffPrototype` | bot.js:128-133 | away from `constructor` and `__proto__`, the guard as written and `Bot.Resolve` agree, because no team ID is 0 |

## Findings

| source | as written | input that shows it | evidently intended | confidence | as-written member | corrected member |
|---|---|---|---|---|---|---|
| bot.js:128-133 | `TEAMS[team.toLowerCase()]` also reaches members inherited from `Object.prototype` | team `Constructor`: its lower case `constructor` names the inherited `Object` function, which is truthy, so the guard lets it through and that function becomes the team ID in the URL; `__proto__` does the same | names that are not own keys of `TEAMS` get the unknown-team reply | high; not executed | `Bot.ConstructorPassesGuardAsWritten` | `Bot.Resolve` |

`Bot.Handle` uses the corrected `Bot.Resolve`.

## Left out

- The Express health server and `app.listen` (bot.js:1-13) are process-level I/O.
- The Discord client, its login, the command registration with its fixed guild ID, and `interaction.respond` / `interaction.reply` (bot.js:16-19, 156-184) are a library wrapper. The model returns the answer as a value.
- `axios.get`, the `X-Auth-Token` header and `process.env` (bot.js:32-34) are network and environment access. The GET is the parameter `respond`.
- Partial provider bodies are not represented: a response is given as complete fixtures, and each partial body is given as the response the source ends up treating it as.
  - `None` stands for every case that throws into the catch: a failed request, a body without a `matches` list, and a fixture that passes the date filter but lacks its `competition`, `homeTeam` or `awayTeam` object.
  - A fixture without `utcDate` is never kept, because `undefined > today` is false; it is given with the date `""`, which `Text.Before` never places after `now`. A dropped fixture's objects are never read, so one lacking them is given with any names.
  - A missing `status` or `name` is not an error: the reply shows the text `undefined`, so it is given as that string.
- `console.error` (bot.js:53) is logging. The rethrow becomes the single error `CouldNotFetch`.
- `new Date().toISOString()` (bot.js:39) reads the clock. It is the parameter `now`.
- `new Date(match.date).toLocaleString()` (bot.js:143) depends on locale and time zone. It is the parameter `localize`.
- Text.Lower: `toLowerCase` and `toUpperCase` are modelled for ASCII letters only. Every table key is ASCII, and no key contains a `k` (the Kelvin sign, U+212A, lowers to ASCII `k`). So no other character changes a match or a lookup.
- Text.Before: compares Unicode scalar values, while JavaScript compares UTF-16 code units. The two orders differ only between astral characters and characters from U+E000 to U+FFFF. ISO dates are ASCII.
- The provider's JSON carries more fields than the seven a fixture is reduced to. The others are never read.
- The interaction's options are delivered as strings. A missing required `equipo` cannot occur, so it is not modelled.
