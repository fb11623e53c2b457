/** The two constant lookup tables of bot.js, kept as sequences of entries so
    that their key order (the order `Object.keys` reports, since no key looks
    like an array index) is part of the model. */
module Registry {
  import opened Outcomes
  import opened Text

  type Table<V> = seq<(string, V)>

  predicate HasKey<V>(t: Table<V>, key: string)
  {
    exists i :: 0 <= i < |t| && t[i].0 == key
  }

  /** An object literal never holds the same own key twice. */
  predicate DistinctKeys<V>(t: Table<V>)
  {
    forall i, j :: 0 <= i < j < |t| ==> t[i].0 != t[j].0
  }

  /** `t[key]` restricted to own properties: present exactly for the table's
      keys, and then an entry of the table. */
  function Lookup<V>(t: Table<V>, key: string): (r: Option<V>)
    ensures r.Some? <==> HasKey(t, key)
    ensures r.Some? ==> exists i :: 0 <= i < |t| && t[i] == (key, r.value)
  {
    if t == [] then None
    else if t[0].0 == key then Some(t[0].1)
    else
      var r := Lookup(t[1..], key);
      assert forall i :: 1 <= i < |t| ==> t[i] == t[1..][i - 1];
      r
  }

  /** With distinct keys, looking up an entry's key gives that entry's value. */
  lemma {:induction false} LookupFindsEntry<V>(t: Table<V>, i: nat)
    requires DistinctKeys(t) && i < |t|
    ensures Lookup(t, t[i].0) == Some(t[i].1)
  {
    if i > 0 {
      LookupFindsEntry(t[1..], i - 1);
    }
  }

  /** `TEAMS`: lower-case team name to the provider's team ID. */
  const Teams: Table<nat> := [
    ("barcelona", 81),
    ("liverpool", 64),
    ("madrid", 86),
    ("juventus", 109),
    ("manunited", 66),
    ("arsenal", 57),
    ("mancity", 65),
    ("inter", 108),
    ("milan", 98),
    ("bayern", 5),
    ("dortmund", 4),
    ("palmeiras", 1769)
  ]

  /** `COMPETICION`: competition label to the provider's competition code. */
  const Competitions: Table<string> := [
    ("LaLiga", "PL"),
    ("SerieA", "SA"),
    ("bundesLiga", "BL1"),
    ("premierleague", "PL"),
    ("Brasileirao", "BSA"),
    ("ChampionsLeague", "CL"),
    ("CopaLibertadores", "COPA"),
    ("EuropaLeague", "EL")
  ]

  /** The team table's keys are distinct and lower case, and no ID is 0, so a
      looked-up ID is always truthy. */
  lemma TeamsWellFormed()
    ensures DistinctKeys(Teams)
    ensures forall i :: 0 <= i < |Teams| ==> IsLowerCase(Teams[i].0) && Teams[i].1 != 0
  {
    TeamKeysDistinct();
    TeamKeysLowerCase();
  }

  lemma TeamKeysDistinct()
    ensures DistinctKeys(Teams)
  {
  }

  lemma TeamKeysLowerCase()
    ensures forall i :: 0 <= i < |Teams| ==> IsLowerCase(Teams[i].0)
  {
  }

  /** The competition table's labels are distinct and every code is a
      non-empty string. */
  lemma CompetitionsWellFormed()
    ensures DistinctKeys(Competitions)
    ensures forall i :: 0 <= i < |Competitions| ==> Competitions[i].1 != ""
  {
  }

  /** "LaLiga" and "premierleague" are labels of different lengths that
      share the code "PL". */
  lemma PremierLeagueTwice()
    ensures |Competitions| == 8
    ensures Competitions[0].1 == Competitions[3].1 == "PL"
    ensures |Competitions[0].0| == 6 && |Competitions[3].0| == 13
  {
  }
}
