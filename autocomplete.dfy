/** The autocomplete branch of the interaction handler: the table keys whose
    lower-cased form starts with the lower-cased typed text, in table order,
    each offered as a capitalised name with a value. */
module Autocomplete {
  import opened Outcomes
  import opened Sequences
  import opened Text
  import opened Registry

  /** One `{ name, value }` choice sent back to the chat client. */
  datatype Suggestion = Suggestion(name: string, value: string)

  predicate PrefixMatch(key: string, typed: string)
  {
    StartsWith(Lower(key), Lower(typed))
  }

  /** The entries whose key matches the typed text, in table order. */
  function MatchingEntries<V(==)>(t: Table<V>, typed: string): (r: Table<V>)
    ensures |r| == CountWhere(t, (e: (string, V)) => PrefixMatch(e.0, typed)) <= |t|
    ensures IsSubsequence(r, t)
    ensures forall i :: 0 <= i < |r| ==> PrefixMatch(r[i].0, typed) && r[i] in t
    ensures forall i :: 0 <= i < |t| && PrefixMatch(t[i].0, typed) ==> t[i] in r
  {
    Filter(t, (e: (string, V)) => PrefixMatch(e.0, typed))
  }

  /** Typing more characters can only narrow the list, keeping its order. */
  lemma TypingNarrows<V>(t: Table<V>, typed: string, longer: string)
    requires StartsWith(Lower(longer), Lower(typed))
    ensures IsSubsequence(MatchingEntries(t, longer), MatchingEntries(t, typed))
  {
    forall e: (string, V) | PrefixMatch(e.0, longer) ensures PrefixMatch(e.0, typed) {
      StartsWithTransitive(Lower(e.0), Lower(longer), Lower(typed));
    }
    FilterStronger(t, (e: (string, V)) => PrefixMatch(e.0, typed),
                      (e: (string, V)) => PrefixMatch(e.0, longer));
  }

  /** An empty typed text matches every entry. */
  lemma EmptyTypedMatchesAll<V>(t: Table<V>)
    ensures MatchingEntries(t, "") == t
  {
    FilterKeepsAll(t, (e: (string, V)) => PrefixMatch(e.0, ""));
  }

  /** Team choices: the matching team keys, named with a capital initial,
      each valued by the key itself. */
  function TeamSuggestions(typed: string): (r: seq<Suggestion>)
    ensures var es := MatchingEntries(Teams, typed);
            |r| == |es| && forall i :: 0 <= i < |r| ==> r[i] == Suggestion(Capitalise(es[i].0), es[i].0)
  {
    Map(MatchingEntries(Teams, typed), (e: (string, nat)) => Suggestion(Capitalise(e.0), e.0))
  }

  /** Competition choices: the matching labels, named with a capital initial,
      each valued by the label's competition code. */
  function CompetitionSuggestions(typed: string): (r: seq<Suggestion>)
    ensures var es := MatchingEntries(Competitions, typed);
            |r| == |es| && forall i :: 0 <= i < |r| ==> r[i] == Suggestion(Capitalise(es[i].0), es[i].1)
  {
    Map(MatchingEntries(Competitions, typed), (e: (string, string)) => Suggestion(Capitalise(e.0), e.1))
  }

  /** A competition choice's value is `COMPETICION[label]` for its label, a
      non-empty code, so choosing it always filters the request. */
  lemma CompetitionValueIsCode(typed: string, i: nat)
    requires i < |CompetitionSuggestions(typed)|
    ensures var e := MatchingEntries(Competitions, typed)[i];
            && Lookup(Competitions, e.0) == Some(CompetitionSuggestions(typed)[i].value)
            && CompetitionSuggestions(typed)[i].value != ""
  {
    var e := MatchingEntries(Competitions, typed)[i];
    CompetitionsWellFormed();
    var j :| 0 <= j < |Competitions| && Competitions[j] == e;
    LookupFindsEntry(Competitions, j);
  }

  /** Choice values need not be distinct: with nothing typed, "LaLiga" and
      "premierleague" are offered under different names with the same code
      "PL". */
  lemma CompetitionValuesRepeat()
    ensures var r := CompetitionSuggestions("");
            |r| == 8 && r[0].value == r[3].value == "PL" && r[0].name != r[3].name
  {
    EmptyTypedMatchesAll(Competitions);
    var r := CompetitionSuggestions("");
    assert r[0] == Suggestion(Capitalise(Competitions[0].0), Competitions[0].1);
    assert r[3] == Suggestion(Capitalise(Competitions[3].0), Competitions[3].1);
    PremierLeagueTwice();
    CapitalisedNamesDiffer(Competitions[0].0, Competitions[3].0);
  }

  lemma CapitalisedNamesDiffer(a: string, b: string)
    requires |a| != |b|
    ensures Capitalise(a) != Capitalise(b)
  {
  }
}
