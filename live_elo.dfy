/** `live_elo`: Elo ratings as of a date, folded over the matches before it
    in date order. Full members start at 1550 and move with K = 20;
    associates start at 1450, move with K = 10 and never rise above 1550.
    The expected-score curve (a power of ten) is an input with values in
    (0, 1); the table per date is memoised. */
module LiveElo {
  import opened History
  import opened Reals

  const KFull: real := 20.0
  const KAssoc: real := 10.0
  const AssociateCap: real := 1550.0

  const FullMembers: set<Team> := {
    "India", "Australia", "England", "Pakistan", "South Africa", "New Zealand",
    "Sri Lanka", "West Indies", "Afghanistan", "Ireland", "Zimbabwe"
  }

  type Table = map<Team, real>

  /** Lines 47-50: the rating a team gets the first time it is looked up. */
  function Initial(t: Team): (r: real)
    ensures r <= AssociateCap
  {
    if t in FullMembers then 1550.0 else 1450.0
  }

  /** `get_rating`'s effect on the table: an unseen team is added. */
  function Seen(elo: Table, t: Team): (r: Table)
    ensures r.Keys == elo.Keys + {t}
    ensures forall u <- elo :: r[u] == elo[u]
  {
    if t in elo then elo else elo[t := Initial(t)]
  }

  function KFactor(t: Team): real {
    if t in FullMembers then KFull else KAssoc
  }

  /** Lines 74-75: an associate's new rating is capped at 1550. */
  function Capped(t: Team, r: real): real {
    if t in FullMembers then r else if r <= AssociateCap then r else AssociateCap
  }

  /** The table after looking up both teams of the match. */
  function Looked(elo: Table, m: Match): (r: Table)
    ensures m.team1 in r && m.team2 in r
  {
    Seen(Seen(elo, m.team1), m.team2)
  }

  /** A team seen for the first time enters the match at its initial
      rating, 1550 for a full member and 1450 otherwise; a team already seen
      keeps its rating. */
  lemma LookedInitial(elo: Table, m: Match, t: Team)
    requires t == m.team1 || t == m.team2
    ensures t !in elo ==> Looked(elo, m)[t] == Initial(t)
    ensures t in elo ==> Looked(elo, m)[t] == elo[t]
    ensures Initial(t) == if t in FullMembers then 1550.0 else 1450.0
  {
  }

  /** Lines 55-75: one match. Team 1 scores 1 when it is the winner and 0
      otherwise, and team 2 scores the complement. */
  function Update(elo: Table, m: Match, ex: Expected): Table {
    var looked := Looked(elo, m);
    var a, b := m.team1, m.team2;
    var ra, rb := looked[a], looked[b];
    var ea := ex(ra, rb);
    var sa := if m.winner == a then 1.0 else 0.0;
    var newA := ra + KFactor(a) * (sa - ea);
    var newB := rb + KFactor(b) * ((1.0 - sa) - (1.0 - ea));
    looked[a := Capped(a, newA)][b := Capped(b, newB)]
  }

  /** Lines 52-75: the table after the matches, in order, from an empty one. */
  function Fold(ms: seq<Match>, ex: Expected): Table {
    if ms == [] then map[] else Update(Fold(ms[..|ms| - 1], ex), ms[|ms| - 1], ex)
  }

  /** What `elo_as_of(as_of)` computes: the fold over the matches strictly
      before the date. */
  function EloTable(matches: seq<Match>, asOf: Date, ex: Expected): Table {
    Fold(Before(matches, asOf), ex)
  }

  /** A match changes the ratings of its two teams only, and adds them to
      the table. */
  lemma UpdateFrame(elo: Table, m: Match, ex: Expected)
    ensures Update(elo, m, ex).Keys == elo.Keys + {m.team1, m.team2}
    ensures forall t <- elo :: t != m.team1 && t != m.team2 ==> Update(elo, m, ex)[t] == elo[t]
  {
  }

  /** Every associate's rating is at most 1550. */
  predicate AssocCapped(elo: Table) {
    forall t <- elo :: t !in FullMembers ==> elo[t] <= AssociateCap
  }

  lemma UpdateCapped(elo: Table, m: Match, ex: Expected)
    requires AssocCapped(elo)
    ensures AssocCapped(Update(elo, m, ex))
  {
  }

  /** The cap holds after any sequence of matches. */
  lemma {:induction false} FoldCapped(ms: seq<Match>, ex: Expected)
    ensures AssocCapped(Fold(ms, ex))
  {
    if ms != [] {
      FoldCapped(ms[..|ms| - 1], ex);
      UpdateCapped(Fold(ms[..|ms| - 1], ex), ms[|ms| - 1], ex);
    }
  }

  /** With an expected score strictly between 0 and 1, the team credited
      with the win (team 1 when it is the winner, team 2 otherwise) does not
      lose rating and the other team does not gain. */
  lemma UpdateDirection(elo: Table, m: Match, ex: Expected)
    requires IsExpected(ex) && AssocCapped(elo) && m.team1 != m.team2
    ensures var looked := Looked(elo, m);
      var r := Update(elo, m, ex);
      && (m.winner == m.team1 ==> r[m.team1] >= looked[m.team1] && r[m.team2] <= looked[m.team2])
      && (m.winner != m.team1 ==> r[m.team1] <= looked[m.team1] && r[m.team2] >= looked[m.team2])
  {
    var looked := Looked(elo, m);
    var a, b := m.team1, m.team2;
    var ea := ex(looked[a], looked[b]);
    assert 0.0 < ea < 1.0;
    assert looked[a] <= AssociateCap || a in FullMembers;
    assert looked[b] <= AssociateCap || b in FullMembers;
    if m.winner == a {
      MulNonNegative(KFactor(a), 1.0 - ea);
      MulNonNegative(KFactor(b), 1.0 - ea);
    } else {
      MulNonNegative(KFactor(a), ea);
      MulNonNegative(KFactor(b), ea);
    }
  }

  /** Two full members exchange rating: their total is unchanged. */
  lemma UpdateConservesFull(elo: Table, m: Match, ex: Expected)
    requires m.team1 != m.team2 && m.team1 in FullMembers && m.team2 in FullMembers
    ensures var looked := Looked(elo, m);
      var r := Update(elo, m, ex);
      r[m.team1] + r[m.team2] == looked[m.team1] + looked[m.team2]
  {
  }

  /** Matches on or after the date do not affect the table. */
  lemma EloTablePastOnly(matches: seq<Match>, later: seq<Match>, asOf: Date, ex: Expected)
    requires forall m <- later :: !DateLess(m.date, asOf)
    ensures EloTable(matches + later, asOf, ex) == EloTable(matches, asOf, ex)
  {
    BeforeIgnoresLater(matches, later, asOf);
  }

  /** `get_rating`. */
  method GetRating(elo: Table, team: Team) returns (elo': Table, r: real)
    ensures elo' == Seen(elo, team) && r == elo'[team]
    ensures team !in elo ==> r == Initial(team)
  {
    elo' := elo;
    if team !in elo' {
      elo' := elo'[team := Initial(team)];
    }
    r := elo'[team];
  }

  /** Lines 55-75, one pass of the loop. */
  method PlayMatch(elo: Table, m: Match, ex: Expected) returns (elo': Table)
    ensures elo' == Update(elo, m, ex)
  {
    var a, b, w := m.team1, m.team2, m.winner;
    var ra, rb;
    elo', ra := GetRating(elo, a);
    elo', rb := GetRating(elo', b);
    var ea := ex(ra, rb);
    var sa := if w == a then 1.0 else 0.0;
    var kA := if a in FullMembers then KFull else KAssoc;
    var kB := if b in FullMembers then KFull else KAssoc;
    var newA := ra + kA * (sa - ea);
    var newB := rb + kB * ((1.0 - sa) - (1.0 - ea));
    elo' := elo'[a := Capped(a, newA)];
    elo' := elo'[b := Capped(b, newB)];
  }

  /** Lines 54-75: the update loop over `past`. */
  method RunElo(past: seq<Match>, ex: Expected) returns (elo: Table)
    ensures elo == Fold(past, ex)
  {
    elo := map[];
    var i := 0;
    while i < |past|
      invariant 0 <= i <= |past|
      invariant elo == Fold(past[..i], ex)
    {
      elo := PlayMatch(elo, past[i], ex);
      assert past[..i + 1][..i] == past[..i];
      i := i + 1;
    }
    assert past[..i] == past;
  }

  /** Lines 34-35: the team and winner names with surrounding whitespace
      removed. */
  function Cleaned(m: Match): Match {
    m.(team1 := Strip(m.team1), team2 := Strip(m.team2), winner := Strip(m.winner))
  }

  /** Cleaning keeps every record's id and date and replaces each of its
      names by the name with surrounding whitespace removed. */
  function CleanAll(ms: seq<Match>): (r: seq<Match>)
    ensures |r| == |ms|
    ensures forall i :: 0 <= i < |ms| ==>
      && r[i].matchId == ms[i].matchId && r[i].date == ms[i].date
      && r[i].team1 == Strip(ms[i].team1) && r[i].team2 == Strip(ms[i].team2)
      && r[i].winner == Strip(ms[i].winner)
  {
    seq(|ms|, i requires 0 <= i < |ms| => Cleaned(ms[i]))
  }

  /** Cleaning already-clean records changes nothing. */
  lemma CleanAllIdempotent(ms: seq<Match>)
    ensures CleanAll(CleanAll(ms)) == CleanAll(ms)
  {
    var c := CleanAll(ms);
    forall i | 0 <= i < |ms| ensures CleanAll(c)[i] == c[i] {
      StripIdempotent(ms[i].team1);
      StripIdempotent(ms[i].team2);
      StripIdempotent(ms[i].winner);
    }
  }

  /** The loaded matches are in date order: cleaning keeps the dates. */
  lemma LoadedSorted(hist: seq<Match>)
    ensures DateSorted(CleanAll(SortByDate(hist)))
  {
    SortByDateSorted(hist);
  }

  /** The module state of `live_elo`: the matches read once and sorted by
      date, and the memo `_ELO_CACHE` from day to table. */
  class EloMemo {
    const matches: seq<Match>
    const ex: Expected
    var cache: map<Date, Table>

    /** Every memoised table is the one the fold gives for its day. */
    ghost predicate Valid()
      reads this
    {
      forall d <- cache :: cache[d] == EloTable(matches, d, ex)
    }

    /** Lines 30-37. */
    constructor(hist: seq<Match>, ex: Expected)
      ensures matches == CleanAll(SortByDate(hist)) && this.ex == ex && cache == map[]
      ensures Valid()
    {
      matches := CleanAll(SortByDate(hist));
      this.ex := ex;
      cache := map[];
    }

    /** `elo_as_of`: the memoised table when the day was asked before,
        otherwise the fold, which is then memoised. */
    method EloAsOf(asOf: Date) returns (table: Table)
      requires Valid()
      modifies this
      ensures Valid()
      ensures table == EloTable(matches, asOf, ex)
      ensures asOf in old(cache) ==> cache == old(cache) && table == old(cache)[asOf]
      ensures cache == old(cache)[asOf := table]
    {
      if asOf in cache {
        return cache[asOf];
      }
      var past := Before(matches, asOf);
      var elo := RunElo(past, ex);
      cache := cache[asOf := elo];
      table := cache[asOf];
    }
  }
}
