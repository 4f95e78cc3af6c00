/** `elo`: the offline Elo table. The matches are replayed in date order
    from a common base of 1500 with K = 20; each output row records both
    teams' ratings before the match. The expected-score curve is an input
    with values in (0, 1). */
module Elo {
  import opened History
  import opened Reals
  import opened Seqs

  const K: real := 20.0
  const BaseElo: real := 1500.0

  /** The `defaultdict`: teams not yet written read as 1500. */
  type Table = map<Team, real>

  function Rating(elo: Table, t: Team): real {
    if t in elo then elo[t] else BaseElo
  }

  /** One output line: lines 32-40. */
  datatype EloRow = EloRow(matchId: string, date: Date, team1: Team, team2: Team,
                           eloTeam1: real, eloTeam2: real, eloDiff: real)

  function RowOf(elo: Table, m: Match): EloRow {
    var ra, rb := Rating(elo, m.team1), Rating(elo, m.team2);
    EloRow(m.matchId, m.date, m.team1, m.team2, ra, rb, ra - rb)
  }

  /** Lines 26-43 after the row is taken: team 1 scores 1 when it is the
      winner and 0 otherwise, team 2 the complement. */
  function Update(elo: Table, m: Match, ex: Expected): Table {
    var a, b := m.team1, m.team2;
    var ra, rb := Rating(elo, a), Rating(elo, b);
    var ea := ex(ra, rb);
    var sa := if m.winner == a then 1.0 else 0.0;
    elo[a := ra + K * (sa - ea)][b := rb + K * ((1.0 - sa) - (1.0 - ea))]
  }

  /** The ratings after replaying `ms` in order. */
  function Ratings(ms: seq<Match>, ex: Expected): Table {
    if ms == [] then map[] else Update(Ratings(ms[..|ms| - 1], ex), ms[|ms| - 1], ex)
  }

  /** The rows produced while replaying `ms` in order. */
  function Rows(ms: seq<Match>, ex: Expected): (rows: seq<EloRow>)
    ensures |rows| == |ms|
  {
    if ms == [] then []
    else Rows(ms[..|ms| - 1], ex) + [RowOf(Ratings(ms[..|ms| - 1], ex), ms[|ms| - 1])]
  }

  /** `build_elo_table` on the parsed matches file. */
  function EloTable(matches: seq<Match>, ex: Expected): seq<EloRow> {
    Rows(SortByDate(matches), ex)
  }

  /** Row `i` belongs to match `i` and carries both teams' ratings after
      the matches before it, with the difference of the two. */
  lemma {:induction false} RowsPointwise(ms: seq<Match>, ex: Expected, i: nat)
    requires i < |ms|
    ensures var r := Rows(ms, ex)[i];
      && r.matchId == ms[i].matchId && r.date == ms[i].date
      && r.team1 == ms[i].team1 && r.team2 == ms[i].team2
      && r.eloTeam1 == Rating(Ratings(ms[..i], ex), ms[i].team1)
      && r.eloTeam2 == Rating(Ratings(ms[..i], ex), ms[i].team2)
      && r.eloDiff == r.eloTeam1 - r.eloTeam2
  {
    var n := |ms| - 1;
    if i < n {
      assert ms[..n][i] == ms[i] && ms[..n][..i] == ms[..i];
      RowsPointwise(ms[..n], ex, i);
    } else {
      assert ms[..n] == ms[..i];
    }
  }

  /** The table has one row per match, in date order. */
  lemma EloTableOrder(matches: seq<Match>, ex: Expected)
    ensures |EloTable(matches, ex)| == |matches|
    ensures forall i, j :: 0 <= i < j < |matches| ==>
      DateAtMost(EloTable(matches, ex)[i].date, EloTable(matches, ex)[j].date)
  {
    var sorted := SortByDate(matches);
    SortByDateSorted(matches);
    forall i | 0 <= i < |sorted| ensures EloTable(matches, ex)[i].date == sorted[i].date {
      RowsPointwise(sorted, ex, i);
    }
  }

  /** Sum of the ratings of the teams in `ts`. */
  function Total(ts: seq<Team>, elo: Table): real {
    if ts == [] then 0.0 else Rating(elo, ts[0]) + Total(ts[1..], elo)
  }

  lemma {:induction false} TotalOther(ts: seq<Team>, elo: Table, t: Team, x: real)
    requires t !in ts
    ensures Total(ts, elo[t := x]) == Total(ts, elo)
  {
    if ts != [] {
      TotalOther(ts[1..], elo, t, x);
    }
  }

  lemma {:induction false} TotalUpdate(ts: seq<Team>, elo: Table, t: Team, x: real)
    requires IsDistinct(ts) && t in ts
    ensures Total(ts, elo[t := x]) == Total(ts, elo) + x - Rating(elo, t)
  {
    DistinctTail(ts);
    if ts[0] == t {
      TotalOther(ts[1..], elo, t, x);
    } else {
      TotalUpdate(ts[1..], elo, t, x);
    }
  }

  lemma {:induction false} TotalEmpty(ts: seq<Team>)
    ensures Total(ts, map[]) == BaseElo * |ts| as real
  {
    if ts != [] {
      TotalEmpty(ts[1..]);
    }
  }

  /** A match between two different teams moves rating from one to the
      other: the total over any set of teams holding both is unchanged. */
  lemma UpdateConserves(ts: seq<Team>, elo: Table, m: Match, ex: Expected)
    requires IsDistinct(ts) && m.team1 in ts && m.team2 in ts && m.team1 != m.team2
    ensures Total(ts, Update(elo, m, ex)) == Total(ts, elo)
  {
    var a, b := m.team1, m.team2;
    var ra, rb := Rating(elo, a), Rating(elo, b);
    var ea := ex(ra, rb);
    var sa := if m.winner == a then 1.0 else 0.0;
    var newA := ra + K * (sa - ea);
    TotalUpdate(ts, elo, a, newA);
    TotalUpdate(ts, elo[a := newA], b, rb + K * ((1.0 - sa) - (1.0 - ea)));
  }

  /** Elo is zero-sum: when no team plays itself, the ratings of all the
      teams that played average exactly 1500. */
  lemma {:induction false} RatingsZeroSum(ts: seq<Team>, ms: seq<Match>, ex: Expected)
    requires IsDistinct(ts)
    requires forall m <- ms :: m.team1 in ts && m.team2 in ts && m.team1 != m.team2
    ensures Total(ts, Ratings(ms, ex)) == BaseElo * |ts| as real
  {
    if ms == [] {
      TotalEmpty(ts);
    } else {
      var n := |ms| - 1;
      assert forall m <- ms[..n] :: m in ms;
      RatingsZeroSum(ts, ms[..n], ex);
      UpdateConserves(ts, Ratings(ms[..n], ex), ms[n], ex);
    }
  }

  /** The team credited with the result (team 1 when it is the winner,
      team 2 otherwise) gains rating and the other team loses it. */
  lemma UpdateDirection(elo: Table, m: Match, ex: Expected)
    requires IsExpected(ex) && m.team1 != m.team2
    ensures var r := Update(elo, m, ex);
      && (m.winner == m.team1 ==> r[m.team1] > Rating(elo, m.team1) && r[m.team2] < Rating(elo, m.team2))
      && (m.winner != m.team1 ==> r[m.team1] < Rating(elo, m.team1) && r[m.team2] > Rating(elo, m.team2))
  {
    var ea := ex(Rating(elo, m.team1), Rating(elo, m.team2));
    assert 0.0 < ea < 1.0;
    if m.winner == m.team1 {
      MulStrict(0.0, 1.0 - ea, K);
    } else {
      MulStrict(0.0, ea, K);
    }
  }

  /** Lines 21-43, one pass of the loop. */
  method PlayMatch(elo: Table, m: Match, ex: Expected) returns (row: EloRow, elo': Table)
    ensures row == RowOf(elo, m) && elo' == Update(elo, m, ex)
  {
    var a, b, w := m.team1, m.team2, m.winner;
    var ra := if a in elo then elo[a] else BaseElo;
    var rb := if b in elo then elo[b] else BaseElo;
    var ea := ex(ra, rb);
    var sa := if w == a then 1.0 else 0.0;
    row := EloRow(m.matchId, m.date, a, b, ra, rb, ra - rb);
    elo' := elo[a := ra + K * (sa - ea)];
    elo' := elo'[b := rb + K * ((1.0 - sa) - (1.0 - ea))];
  }

  /** `build_elo_table`: sort, then replay. */
  method BuildEloTable(matches: seq<Match>, ex: Expected) returns (rows: seq<EloRow>)
    ensures rows == EloTable(matches, ex)
  {
    var df := SortByDate(matches);
    var elo: Table := map[];
    rows := [];
    var i := 0;
    while i < |df|
      invariant 0 <= i <= |df|
      invariant elo == Ratings(df[..i], ex) && rows == Rows(df[..i], ex)
    {
      var row;
      row, elo := PlayMatch(elo, df[i], ex);
      rows := rows + [row];
      assert df[..i + 1][..i] == df[..i];
      i := i + 1;
    }
    assert df[..i] == df;
  }
}
