/** `features`: the offline training table. The matches, sorted by date,
    are left-joined with the Elo table on the match id; for every joined row
    the form of both teams over their last five earlier matches, the
    head-to-head rate over the three years before, the Elo values (with
    fallbacks) and the label are recorded. The history the forms are read
    from is the matches file in file order. */
module Features {
  import opened Errors
  import opened History
  import opened Reals

  const RollingN: nat := 5
  const H2HYears: nat := 3
  const BaseEloFallback: real := 1500.0

  /** A line of the Elo table after numeric coercion: a value that is
      missing or not a number is `None`. */
  datatype EloRecord = EloRecord(matchId: string, eloTeam1: Option<real>, eloTeam2: Option<real>,
                                 eloDiff: Option<real>)

  /** A line of the joined table. */
  datatype Joined = Joined(m: Match, eloTeam1: Option<real>, eloTeam2: Option<real>, eloDiff: Option<real>)

  function JoinedDate(r: Joined): Date {
    r.m.date
  }

  /** The Elo lines of one match, in their order. */
  function Hits(elos: seq<EloRecord>, id: string): (r: seq<EloRecord>)
    ensures forall e <- r :: e.matchId == id
  {
    Filter(elos, (e: EloRecord) => e.matchId == id)
  }

  function WithMatch(m: Match, es: seq<EloRecord>): (r: seq<Joined>)
    ensures |r| == |es|
    ensures forall i :: 0 <= i < |es| ==> r[i] == Joined(m, es[i].eloTeam1, es[i].eloTeam2, es[i].eloDiff)
  {
    seq(|es|, i requires 0 <= i < |es| => Joined(m, es[i].eloTeam1, es[i].eloTeam2, es[i].eloDiff))
  }

  /** The rows a left join gives one match: one per Elo line with its id,
      or a single row with no Elo values when there is none. */
  function JoinOne(m: Match, elos: seq<EloRecord>): (r: seq<Joined>)
    ensures |r| >= 1 && forall x <- r :: x.m == m
  {
    var hits := Hits(elos, m.matchId);
    if hits == [] then [Joined(m, None, None, None)] else WithMatch(m, hits)
  }

  /** Line 20: `merge(..., how="left")`, keeping the order of the matches. */
  function Join(ms: seq<Match>, elos: seq<EloRecord>): (r: seq<Joined>)
    ensures |r| >= |ms|
    ensures forall x <- r :: x.m in ms
  {
    if ms == [] then [] else JoinOne(ms[0], elos) + Join(ms[1..], elos)
  }

  /** With at most one Elo line per match the join is one-to-one: row `i`
      is match `i`, with the Elo values of its line or none. */
  lemma {:induction false} JoinUnique(ms: seq<Match>, elos: seq<EloRecord>)
    requires forall m <- ms :: |Hits(elos, m.matchId)| <= 1
    ensures |Join(ms, elos)| == |ms|
    ensures forall i :: 0 <= i < |ms| ==> Join(ms, elos)[i] == JoinOne(ms[i], elos)[0]
  {
    if ms != [] {
      assert forall m <- ms[1..] :: m in ms;
      JoinUnique(ms[1..], elos);
      assert |JoinOne(ms[0], elos)| == 1;
      forall i | 0 < i < |ms| ensures Join(ms, elos)[i] == JoinOne(ms[i], elos)[0] {
        JoinShift(ms, elos, i);
      }
    }
  }

  lemma JoinShift(ms: seq<Match>, elos: seq<EloRecord>, i: nat)
    requires 0 < i < |ms| && |JoinOne(ms[0], elos)| == 1
    ensures Join(ms, elos)[i] == Join(ms[1..], elos)[i - 1]
    ensures ms[1..][i - 1] == ms[i]
  {
    assert Join(ms, elos) == JoinOne(ms[0], elos) + Join(ms[1..], elos);
  }

  /** The join of matches in date order is in date order. */
  lemma {:induction false} JoinSorted(ms: seq<Match>, elos: seq<EloRecord>)
    requires DateSorted(ms)
    ensures SortedBy(Join(ms, elos), JoinedDate)
  {
    if ms != [] {
      var rest := ms[1..];
      assert DateSorted(rest) by {
        forall i, j | 0 <= i < j < |rest| ensures DateAtMost(rest[i].date, rest[j].date) {
          assert rest[i] == ms[i + 1] && rest[j] == ms[j + 1];
        }
      }
      JoinSorted(rest, elos);
      var head := JoinOne(ms[0], elos);
      var tail := Join(rest, elos);
      var r := head + tail;
      forall i, j | 0 <= i < j < |r| ensures DateAtMost(r[i].m.date, r[j].m.date) {
        if j < |head| {
          assert r[i] == head[i] && r[j] == head[j];
        } else if i < |head| {
          assert r[i] == head[i] && r[j] == tail[j - |head|];
          assert tail[j - |head|] in tail;
          var k :| 0 <= k < |rest| && rest[k] == r[j].m;
          assert ms[k + 1] == r[j].m;
        } else {
          assert r[i] == tail[i - |head|] && r[j] == tail[j - |head|];
        }
      }
    }
  }

  /** `wins / len(...)`. */
  function Rate(wins: nat, games: nat): real
    requires games > 0
  {
    wins as real / games as real
  }

  lemma RateRange(wins: nat, games: nat)
    requires 0 < games && wins <= games
    ensures 0.0 <= Rate(wins, games) <= 1.0
  {
    DivBounds(wins as real, games as real, 0.0, 1.0);
  }

  /** Lines 43-49: the share of wins in the last five matches of `team`
      before `date`, in history order; 0.5 without any. */
  function TeamForm(hist: seq<Match>, team: Team, date: Date): real {
    var tm := Tail(Involving(Before(hist, date), team), RollingN);
    if tm == [] then 0.5 else Rate(Wins(tm, team), |tm|)
  }

  /** The form is 0.5 for a team with no earlier match and a share in
      [0, 1] otherwise. */
  lemma TeamFormRange(hist: seq<Match>, team: Team, date: Date)
    ensures Involving(Before(hist, date), team) == [] ==> TeamForm(hist, team, date) == 0.5
    ensures 0.0 <= TeamForm(hist, team, date) <= 1.0
  {
    var tm := Tail(Involving(Before(hist, date), team), RollingN);
    if tm != [] {
      RateRange(Wins(tm, team), |tm|);
    }
  }

  /** Lines 51-59: `a`'s share of wins in the meetings of the three years
      before `date`; 0.5 without any. */
  function HeadToHead(hist: seq<Match>, a: Team, b: Team, date: Date): real
    requires ValidDate(date)
  {
    var h2h := Meetings(Before(hist, date), a, b, MinusYears(date, H2HYears));
    if h2h == [] then 0.5 else Rate(Wins(h2h, a), |h2h|)
  }

  lemma HeadToHeadRange(hist: seq<Match>, a: Team, b: Team, date: Date)
    requires ValidDate(date)
    ensures Meetings(Before(hist, date), a, b, MinusYears(date, H2HYears)) == [] ==> HeadToHead(hist, a, b, date) == 0.5
    ensures 0.0 <= HeadToHead(hist, a, b, date) <= 1.0
  {
    var h2h := Meetings(Before(hist, date), a, b, MinusYears(date, H2HYears));
    if h2h != [] {
      RateRange(Wins(h2h, a), |h2h|);
    }
  }

  datatype FeatureRow = FeatureRow(date: Date, teamA: Team, teamB: Team, teamAForm: real, teamBForm: real,
                                   formDiff: real, h2hWinRate: real, eloA: real, eloB: real, eloDiff: real,
                                   teamAWon: int)

  /** Lines 34-86 for one joined row. */
  function FeatureOf(hist: seq<Match>, r: Joined): FeatureRow
    requires ValidDate(r.m.date)
  {
    var a, b, date := r.m.team1, r.m.team2, r.m.date;
    var aForm := TeamForm(hist, a, date);
    var bForm := TeamForm(hist, b, date);
    var eloA := r.eloTeam1.GetOr(BaseEloFallback);
    var eloB := r.eloTeam2.GetOr(BaseEloFallback);
    var eloD := r.eloDiff.GetOr(eloA - eloB);
    FeatureRow(date, a, b, aForm, bForm, aForm - bForm, HeadToHead(hist, a, b, date), eloA, eloB, eloD,
               if r.m.winner == a then 1 else 0)
  }

  /** A feature row: forms and head-to-head rate in [0, 1]; a missing Elo
      value read as 1500 and a missing difference as the difference of the
      two values; the form difference; and the label, 1 exactly when team A
      won. */
  lemma FeatureOfProperties(hist: seq<Match>, r: Joined)
    requires ValidDate(r.m.date)
    ensures var f := FeatureOf(hist, r);
      && 0.0 <= f.teamAForm <= 1.0 && 0.0 <= f.teamBForm <= 1.0 && 0.0 <= f.h2hWinRate <= 1.0
      && f.formDiff == f.teamAForm - f.teamBForm
      && f.eloA == (if r.eloTeam1.Some? then r.eloTeam1.value else BaseEloFallback)
      && f.eloB == (if r.eloTeam2.Some? then r.eloTeam2.value else BaseEloFallback)
      && f.eloDiff == (if r.eloDiff.Some? then r.eloDiff.value else f.eloA - f.eloB)
      && (f.teamAWon == 1 <==> r.m.winner == r.m.team1)
      && (f.teamAWon == 0 || f.teamAWon == 1)
  {
    var f := FeatureOf(hist, r);
    var a, b, date := r.m.team1, r.m.team2, r.m.date;
    assert f.teamAForm == TeamForm(hist, a, date) && f.teamBForm == TeamForm(hist, b, date);
    assert f.h2hWinRate == HeadToHead(hist, a, b, date);
    TeamFormRange(hist, a, date);
    TeamFormRange(hist, b, date);
    HeadToHeadRange(hist, a, b, date);
  }

  predicate AllValid(ms: seq<Match>) {
    forall m <- ms :: ValidDate(m.date)
  }

  /** Lines 13-31: sort the matches, join the Elo lines, sort again. */
  function Prepared(matches: seq<Match>, elos: seq<EloRecord>): (df: seq<Joined>)
    requires AllValid(matches)
    ensures forall k :: 0 <= k < |df| ==> ValidDate(df[k].m.date)
  {
    var sorted := SortByDate(matches);
    var joined := Join(sorted, elos);
    var df := SortBy(joined, JoinedDate);
    SortByMembers(matches, DateOf);
    SortByMembers(joined, JoinedDate);
    assert forall k :: 0 <= k < |df| ==> df[k] in joined;
    df
  }

  /** `build_features`: one feature row per prepared row. */
  function FeatureTable(matches: seq<Match>, elos: seq<EloRecord>, hist: seq<Match>): (rows: seq<FeatureRow>)
    requires AllValid(matches)
  {
    var df := Prepared(matches, elos);
    seq(|df|, i requires 0 <= i < |df| => FeatureOf(hist, df[i]))
  }

  /** The second sort changes nothing: the prepared rows are the join of the
      date-sorted matches, in date order, at least one per match and exactly
      one per match when no match has two Elo lines. */
  lemma PreparedIsJoin(matches: seq<Match>, elos: seq<EloRecord>)
    requires AllValid(matches)
    ensures Prepared(matches, elos) == Join(SortByDate(matches), elos)
    ensures SortedBy(Prepared(matches, elos), JoinedDate)
    ensures |Prepared(matches, elos)| >= |matches|
    ensures (forall m <- matches :: |Hits(elos, m.matchId)| <= 1) ==> |Prepared(matches, elos)| == |matches|
  {
    var sorted := SortByDate(matches);
    SortByDateSorted(matches);
    JoinSorted(sorted, elos);
    SortBySortedId(Join(sorted, elos), JoinedDate);
    if forall m <- matches :: |Hits(elos, m.matchId)| <= 1 {
      SortByMembers(matches, DateOf);
      JoinUnique(sorted, elos);
    }
  }

  /** The table has one row per prepared row, in date order, each row built
      from its joined line. */
  lemma FeatureTableShape(matches: seq<Match>, elos: seq<EloRecord>, hist: seq<Match>)
    requires AllValid(matches)
    ensures var df := Join(SortByDate(matches), elos);
      var rows := FeatureTable(matches, elos, hist);
      && |rows| == |df|
      && (forall i :: 0 <= i < |df| ==> ValidDate(df[i].m.date) && rows[i] == FeatureOf(hist, df[i]))
      && (forall i, j :: 0 <= i < j < |rows| ==> DateAtMost(rows[i].date, rows[j].date))
  {
    PreparedIsJoin(matches, elos);
    var df := Prepared(matches, elos);
    var rows := FeatureTable(matches, elos, hist);
    forall i, j | 0 <= i < j < |rows| ensures DateAtMost(rows[i].date, rows[j].date) {
      assert rows[i].date == JoinedDate(df[i]) && rows[j].date == JoinedDate(df[j]);
    }
  }

  /** Lines 34-86, one pass of the loop. */
  method FeatureRowOf(hist: seq<Match>, r: Joined) returns (f: FeatureRow)
    requires ValidDate(r.m.date)
    ensures f == FeatureOf(hist, r)
  {
    var a, b, date, winner := r.m.team1, r.m.team2, r.m.date, r.m.winner;
    var aForm := TeamForm(hist, a, date);
    var bForm := TeamForm(hist, b, date);
    var h2hRate := HeadToHead(hist, a, b, date);
    var eloA := if r.eloTeam1.Some? then r.eloTeam1.value else BaseEloFallback;
    var eloB := if r.eloTeam2.Some? then r.eloTeam2.value else BaseEloFallback;
    var eloD := if r.eloDiff.Some? then r.eloDiff.value else eloA - eloB;
    f := FeatureRow(date, a, b, aForm, bForm, aForm - bForm, h2hRate, eloA, eloB, eloD,
                    if winner == a then 1 else 0);
  }

  /** Lines 33-86: the loop appending one row per prepared row. */
  method FeatureRows(hist: seq<Match>, df: seq<Joined>) returns (rows: seq<FeatureRow>)
    requires forall k :: 0 <= k < |df| ==> ValidDate(df[k].m.date)
    ensures |rows| == |df| && forall k :: 0 <= k < |df| ==> rows[k] == FeatureOf(hist, df[k])
  {
    rows := [];
    var i := 0;
    while i < |df|
      invariant 0 <= i <= |df|
      invariant |rows| == i && forall k :: 0 <= k < i ==> rows[k] == FeatureOf(hist, df[k])
    {
      var f := FeatureRowOf(hist, df[i]);
      ghost var before := rows;
      rows := rows + [f];
      assert forall k :: 0 <= k < i ==> rows[k] == before[k];
      i := i + 1;
    }
  }

  /** `build_features`: the prepared rows, then one feature row each. */
  method BuildFeatures(matches: seq<Match>, elos: seq<EloRecord>, hist: seq<Match>) returns (rows: seq<FeatureRow>)
    requires AllValid(matches)
    ensures rows == FeatureTable(matches, elos, hist)
  {
    var df := Prepared(matches, elos);
    rows := FeatureRows(hist, df);
    ghost var table := FeatureTable(matches, elos, hist);
    assert |table| == |rows|;
    assert forall k :: 0 <= k < |rows| ==> table[k] == rows[k];
  }
}
