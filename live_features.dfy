/** `live_features`: the match-day features the live predictor reads — each
    team's smoothed recent form, the smoothed head-to-head rate, both teams'
    Elo clamped to a band, and the form damping applied when the Elo gap is
    large. The history is the matches file in file order; the Elo table is
    the one `elo_as_of` returns for the match day (see `LiveElo`). */
module LiveFeatures {
  import opened History
  import opened Reals

  const RollingN: nat := 10
  const H2HYears: nat := 3
  const MinElo: real := 1450.0
  const MaxElo: real := 1950.0
  const DefaultElo: real := 1500.0
  /** `ELO_SCALE * ELO_TEMPERATURE`, 400 * 1.5. */
  const EloDivisor: real := 600.0
  const FormDampingEloGap: real := 250.0
  const EloFormDampStart: real := 75.0
  const EloFormDampFull: real := 200.0
  const FormScale: real := 0.4

  /** `(wins + prior_wins) / (games + prior_games)`. */
  function Smoothed(wins: nat, games: nat, priorWins: real, priorGames: real): real
    requires priorGames > 0.0
  {
    (wins as real + priorWins) / (games as real + priorGames)
  }

  /** Lines 14-29: the last ten matches of `team` strictly before `asOf`,
      smoothed with five wins in ten prior games. */
  function TeamForm(hist: seq<Match>, team: Team, asOf: Date): real {
    var recent := Tail(Involving(Before(hist, asOf), team), RollingN);
    if recent == [] then 5.0 / 10.0
    else Smoothed(Wins(recent, team), |recent|, 5.0, 10.0)
  }

  lemma SmoothedFormRange(w: nat, g: nat)
    requires w <= g <= 10
    ensures 0.25 <= Smoothed(w, g, 5.0, 10.0) <= 0.75
  {
    DivBounds(w as real + 5.0, g as real + 10.0, 0.25, 0.75);
  }

  /** With no earlier match the form is the prior 0.5; otherwise it is the
      smoothed win rate over at most ten games, so between 0.25 and 0.75. */
  lemma TeamFormRange(hist: seq<Match>, team: Team, asOf: Date)
    ensures Involving(Before(hist, asOf), team) == [] ==> TeamForm(hist, team, asOf) == 0.5
    ensures 0.25 <= TeamForm(hist, team, asOf) <= 0.75
  {
    var recent := Tail(Involving(Before(hist, asOf), team), RollingN);
    if recent != [] {
      SmoothedFormRange(Wins(recent, team), |recent|);
    }
  }

  /** Matches on or after the day cannot change the form. */
  lemma TeamFormPastOnly(hist: seq<Match>, later: seq<Match>, team: Team, asOf: Date)
    requires forall m <- later :: !DateLess(m.date, asOf)
    ensures TeamForm(hist + later, team, asOf) == TeamForm(hist, team, asOf)
  {
    BeforeIgnoresLater(hist, later, asOf);
  }

  /** Lines 32-49: the meetings of `a` and `b` in the three years before
      `asOf`, smoothed with three wins in six prior games. */
  function HeadToHead(hist: seq<Match>, a: Team, b: Team, asOf: Date): real
    requires ValidDate(asOf)
  {
    var past := Meetings(Before(hist, asOf), a, b, MinusYears(asOf, H2HYears));
    if past == [] then 3.0 / 6.0
    else Smoothed(Wins(past, a), |past|, 3.0, 6.0)
  }

  /** The head-to-head rate is 0.5 without meetings and always strictly
      between 0 and 1. */
  lemma HeadToHeadRange(hist: seq<Match>, a: Team, b: Team, asOf: Date)
    requires ValidDate(asOf)
    ensures Meetings(Before(hist, asOf), a, b, MinusYears(asOf, H2HYears)) == [] ==> HeadToHead(hist, a, b, asOf) == 0.5
    ensures 0.0 < HeadToHead(hist, a, b, asOf) < 1.0
  {
    var past := Meetings(Before(hist, asOf), a, b, MinusYears(asOf, H2HYears));
    if past != [] {
      var w := Wins(past, a);
      DivStrictBounds(w as real + 3.0, |past| as real + 6.0, 0.0, 1.0);
    }
  }

  /** When every meeting was won by one of the two teams, the two teams'
      head-to-head rates add up to 1. */
  lemma HeadToHeadComplement(hist: seq<Match>, a: Team, b: Team, asOf: Date)
    requires ValidDate(asOf) && a != b
    requires forall m <- hist :: Meeting(m, a, b) ==> m.winner == a || m.winner == b
    ensures HeadToHead(hist, a, b, asOf) + HeadToHead(hist, b, a, asOf) == 1.0
  {
    var cutoff := MinusYears(asOf, H2HYears);
    var past := Meetings(Before(hist, asOf), a, b, cutoff);
    MeetingsSymmetric(Before(hist, asOf), a, b, cutoff);
    if past != [] {
      CountCover(past, (m: Match) => m.winner == a, (m: Match) => m.winner == b);
      var wa, wb, g := Wins(past, a) as real, Wins(past, b) as real, |past| as real;
      assert wa + wb == g;
      SumOfQuotients(wa + 3.0, wb + 3.0, g + 6.0);
    }
  }

  function Abs(x: real): real {
    if x < 0.0 then -x else x
  }

  /** `min(max(x, MIN_ELO), MAX_ELO)`. */
  function ClampElo(x: real): (r: real)
    ensures MinElo <= r <= MaxElo
    ensures MinElo <= x <= MaxElo ==> r == x
  {
    if x < MinElo then MinElo else if x > MaxElo then MaxElo else x
  }

  /** `0.5 + (form - 0.5) * damp`. */
  function Damp(form: real, damp: real): real {
    0.5 + (form - 0.5) * damp
  }

  predicate Between(lo: real, hi: real, x: real) {
    (lo <= x <= hi) || (hi <= x <= lo)
  }

  lemma DampBetween(form: real, damp: real)
    requires 0.0 <= damp <= 1.0
    ensures Between(0.5, form, Damp(form, damp))
  {
    if form >= 0.5 {
      MulNonNegative(form - 0.5, 1.0 - damp);
      MulNonNegative(form - 0.5, damp);
    } else {
      MulNonNegative(0.5 - form, 1.0 - damp);
      MulNonNegative(0.5 - form, damp);
    }
  }

  /** The factor of lines 80-83, applied only past a 250-point gap. */
  function GapFactor(gap: real): (d: real)
    requires gap > FormDampingEloGap
    ensures 0.0 < d < 1.0
  {
    var d := FormDampingEloGap / gap;
    assert d * gap == FormDampingEloGap;
    d
  }

  /** The factor of lines 90-97: 1 at a 75-point gap falling linearly to 0
      at 200 points and staying 0 beyond. */
  function LinearFactor(gap: real): (d: real)
    ensures 0.0 <= d <= 1.0 || gap <= EloFormDampStart
    ensures gap >= EloFormDampFull ==> d == 0.0
  {
    var d := 1.0 - (gap - EloFormDampStart) / (EloFormDampFull - EloFormDampStart);
    if d < 0.0 then 0.0 else d
  }

  datatype LiveRow = LiveRow(teamAForm: real, teamBForm: real, formDiff: real, h2hWinRate: real,
                             eloA: real, eloB: real, eloDiff: real)

  /** Lines 80-97 on one form: the two damping steps in turn. */
  function DampForm(form: real, gap: real): real {
    var f1 := if gap > FormDampingEloGap then Damp(form, GapFactor(gap)) else form;
    if gap > EloFormDampStart then Damp(f1, LinearFactor(gap)) else f1
  }

  /** Damping leaves a form between 0.5 and its undamped value, and a gap
      of 200 points or more makes it exactly 0.5. */
  lemma DampFormRange(form: real, gap: real)
    ensures Between(0.5, form, DampForm(form, gap))
    ensures gap >= EloFormDampFull ==> DampForm(form, gap) == 0.5
  {
    var f1 := if gap > FormDampingEloGap then Damp(form, GapFactor(gap)) else form;
    if gap > FormDampingEloGap {
      DampBetween(form, GapFactor(gap));
    }
    if gap > EloFormDampStart {
      DampBetween(f1, LinearFactor(gap));
    }
  }

  /** Lines 52-111. */
  function BuildLiveFeatures(hist: seq<Match>, elo: map<Team, real>, teamA: string, teamB: string,
                             matchDate: Date): LiveRow
    requires ValidDate(matchDate)
  {
    var a := Strip(teamA);
    var b := Strip(teamB);
    var aForm := TeamForm(hist, a, matchDate);
    var bForm := TeamForm(hist, b, matchDate);
    var h2h := HeadToHead(hist, a, b, matchDate);
    var eloA := ClampElo(if a in elo then elo[a] else DefaultElo);
    var eloB := ClampElo(if b in elo then elo[b] else DefaultElo);
    var eloDiff := (eloA - eloB) / EloDivisor;
    var gap := Abs(eloA - eloB);
    var aOut := DampForm(aForm, gap);
    var bOut := DampForm(bForm, gap);
    LiveRow(aOut, bOut, (aOut - bOut) * FormScale, h2h, eloA, eloB, eloDiff)
  }

  /** Both ratings lie in the clamp band, a team missing from the table is
      rated 1500, and the Elo difference is the rating gap over 600. */
  lemma LiveEloProperties(hist: seq<Match>, elo: map<Team, real>, teamA: string, teamB: string, matchDate: Date)
    requires ValidDate(matchDate)
    ensures var r := BuildLiveFeatures(hist, elo, teamA, teamB, matchDate);
      && MinElo <= r.eloA <= MaxElo && MinElo <= r.eloB <= MaxElo
      && (Strip(teamA) !in elo ==> r.eloA == DefaultElo)
      && (Strip(teamB) !in elo ==> r.eloB == DefaultElo)
      && r.eloDiff * EloDivisor == r.eloA - r.eloB
  {
  }

  /** Each output form lies between 0.5 and the team's undamped form, and
      both are 0.5, with no form difference, once the clamped ratings are 200
      or more apart. */
  lemma LiveFormProperties(hist: seq<Match>, elo: map<Team, real>, teamA: string, teamB: string, matchDate: Date)
    requires ValidDate(matchDate)
    ensures var r := BuildLiveFeatures(hist, elo, teamA, teamB, matchDate);
      && Between(0.5, TeamForm(hist, Strip(teamA), matchDate), r.teamAForm)
      && Between(0.5, TeamForm(hist, Strip(teamB), matchDate), r.teamBForm)
      && (Abs(r.eloA - r.eloB) >= EloFormDampFull ==> r.teamAForm == 0.5 && r.teamBForm == 0.5 && r.formDiff == 0.0)
  {
    var r := BuildLiveFeatures(hist, elo, teamA, teamB, matchDate);
    var gap := Abs(r.eloA - r.eloB);
    DampFormRange(TeamForm(hist, Strip(teamA), matchDate), gap);
    DampFormRange(TeamForm(hist, Strip(teamB), matchDate), gap);
  }

  /** Swapping the two teams swaps their forms and ratings and negates both
      differences. */
  lemma LiveSwap(hist: seq<Match>, elo: map<Team, real>, teamA: string, teamB: string, matchDate: Date)
    requires ValidDate(matchDate)
    ensures var r := BuildLiveFeatures(hist, elo, teamA, teamB, matchDate);
      var s := BuildLiveFeatures(hist, elo, teamB, teamA, matchDate);
      && s.teamAForm == r.teamBForm && s.teamBForm == r.teamAForm
      && s.eloA == r.eloB && s.eloB == r.eloA
      && s.formDiff == -r.formDiff && s.eloDiff == -r.eloDiff
  {
    var r := BuildLiveFeatures(hist, elo, teamA, teamB, matchDate);
    assert Abs(r.eloB - r.eloA) == Abs(r.eloA - r.eloB);
  }
}
