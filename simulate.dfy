/** `simulate_tournament`: `n_sims` trials one after another on one draw
    stream, per-team counters of Super 8 qualifications, semifinals, finals
    and titles, and the result rows sorted by title percentage. */
module Simulate {
  import opened Errors
  import opened Seqs
  import opened RoundRobin
  import opened Bracket
  import Ranking
  import TeamOrder
  import ProbCache

  /** `all_teams = sorted({t for g in groups.values() for t in g})`. */
  function AllTeams(config: Config): (all: seq<Team>)
    ensures forall t <- all :: t in GroupTeams(config.groups)
    ensures forall t <- GroupTeams(config.groups) :: t in all
  {
    TeamOrder.SortedSet(GroupTeams(config.groups))
  }

  /** `sorted` on a set lists every team once, alphabetically. */
  lemma AllTeamsSorted(config: Config)
    ensures TeamOrder.Ascending(AllTeams(config))
    ensures IsDistinct(AllTeams(config))
  {
    TeamOrder.SortedSetAscending(GroupTeams(config.groups));
    TeamOrder.AscendingDistinct(AllTeams(config));
  }

  type Counter = map<Team, int>

  /** `counts[t] += 1` for each `t` of `ts`, in order. */
  function Bump(c: Counter, ts: seq<Team>): (r: Counter)
    requires forall t <- ts :: t in c
    ensures r.Keys == c.Keys
  {
    if ts == [] then c else Bump(c[ts[0] := c[ts[0]] + 1], ts[1..])
  }

  /** Each team gains as many as it occurs in `ts`. */
  lemma {:induction false} BumpCount(c: Counter, ts: seq<Team>, t: Team)
    requires forall x <- ts :: x in c
    requires t in c
    ensures Bump(c, ts)[t] == c[t] + multiset(ts)[t]
  {
    if ts != [] {
      assert ts == [ts[0]] + ts[1..];
      BumpCount(c[ts[0] := c[ts[0]] + 1], ts[1..], t);
    }
  }

  /** The total over all teams grows by `|ts|`. */
  lemma {:induction false} BumpSum(c: Counter, ts: seq<Team>, keys: seq<Team>)
    requires IsDistinct(keys)
    requires forall x <- keys :: x in c
    requires forall x <- ts :: x in keys
    ensures SumInt(keys, Bump(c, ts)) == SumInt(keys, c) + |ts|
  {
    if ts != [] {
      SumIntUpdate(keys, c, ts[0], 1);
      BumpSum(c[ts[0] := c[ts[0]] + 1], ts[1..], keys);
    }
  }

  /** Bumping for one more team at the end is one more `+= 1`. */
  lemma {:induction false} BumpAppend(c: Counter, ts: seq<Team>, t: Team)
    requires forall x <- ts :: x in c
    requires t in c
    ensures Bump(c, ts + [t]) == Bump(c, ts)[t := Bump(c, ts)[t] + 1]
  {
    if ts == [] {
      assert [t][1..] == [];
    } else {
      assert (ts + [t])[0] == ts[0] && (ts + [t])[1..] == ts[1..] + [t];
      BumpAppend(c[ts[0] := c[ts[0]] + 1], ts[1..], t);
    }
  }

  /** Counting `xs` and then `ys` is counting `xs + ys`. */
  lemma {:induction false} BumpConcat(c: Counter, xs: seq<Team>, ys: seq<Team>)
    requires (forall t <- xs :: t in c) && (forall t <- ys :: t in c)
    ensures forall t <- xs + ys :: t in c
    ensures Bump(c, xs + ys) == Bump(Bump(c, xs), ys)
  {
    if xs == [] {
      assert xs + ys == ys;
    } else {
      var c' := c[xs[0] := c[xs[0]] + 1];
      assert (xs + ys)[0] == xs[0] && (xs + ys)[1..] == xs[1..] + ys;
      BumpConcat(c', xs[1..], ys);
      assert Bump(c, xs + ys) == Bump(c', xs[1..] + ys);
    }
  }

  /** The four counter dicts. */
  datatype Counts = Counts(win: Counter, final: Counter, semi: Counter, super8: Counter)

  predicate Tracks(c: Counts, teams: seq<Team>) {
    forall t <- teams :: t in c.win && t in c.final && t in c.semi && t in c.super8
  }

  /** `{t: 0 for t in all_teams}` four times. */
  function ZeroCounts(teams: seq<Team>): (c: Counts)
    ensures Tracks(c, teams)
    ensures forall t <- teams :: c.win[t] == 0 && c.final[t] == 0 && c.semi[t] == 0 && c.super8[t] == 0
  {
    var z := map t | t in teams :: 0;
    Counts(z, z, z, z)
  }

  /** The semifinalists of a knockout in counting order. */
  lemma {:induction false} SemifinalistsWithin(pairs: seq<(Team, Team)>, within: Team -> bool)
    requires forall p <- pairs :: within(p.0) && within(p.1)
    ensures forall t <- Semifinalists(pairs) :: within(t)
  {
    if pairs != [] {
      assert forall p <- pairs[1..] :: p in pairs;
      SemifinalistsWithin(pairs[1..], within);
    }
  }

  /** Every team an outcome counts is in `teams`. */
  predicate OutcomeWithin(o: Outcome, teams: seq<Team>) {
    && (forall t <- o.qualifiers :: t in teams)
    && (forall t <- Semifinalists(o.finals.semis) :: t in teams)
    && o.finals.finalA in teams && o.finals.finalB in teams && o.finals.champion in teams
  }

  /** Lines 123-124 and 173-184: the counter increments of one trial. */
  function Record(c: Counts, o: Outcome, teams: seq<Team>): (r: Counts)
    requires Tracks(c, teams) && OutcomeWithin(o, teams)
    ensures Tracks(r, teams)
  {
    Counts(
      Bump(c.win, [o.finals.champion]),
      Bump(c.final, [o.finals.finalA, o.finals.finalB]),
      Bump(c.semi, Semifinalists(o.finals.semis)),
      Bump(c.super8, o.qualifiers))
  }

  /** A successful trial's outcome only involves listed teams. */
  lemma TrialCounted(config: Config, cache: Cache, draws: Draws, pos: nat)
    ensures var res := Trial(config, cache, draws, pos);
      res.Ok? ==> OutcomeWithin(res.value, AllTeams(config))
  {
    var res := Trial(config, cache, draws, pos);
    TrialWithinGroups(config, cache, draws, pos);
    if res.Ok? {
      var all := GroupTeams(config.groups);
      SemifinalistsWithin(res.value.finals.semis, t => t in all);
    }
  }

  /** What the counters need of one trial's outcome: listed teams only, a
      semifinal pair per configured semifinal, finalists from the first two
      pairs and a champion among the finalists. */
  predicate Countable(o: Outcome, teams: seq<Team>, nSemis: nat) {
    var f := o.finals;
    && OutcomeWithin(o, teams)
    && |f.semis| == nSemis >= 2
    && (f.champion == f.finalA || f.champion == f.finalB)
    && (f.finalA == f.semis[0].0 || f.finalA == f.semis[0].1)
    && (f.finalB == f.semis[1].0 || f.finalB == f.semis[1].1)
  }

  lemma TrialCountable(config: Config, cache: Cache, draws: Draws, pos: nat)
    ensures var res := Trial(config, cache, draws, pos);
      res.Ok? ==> Countable(res.value, AllTeams(config), |config.semiFinals|)
  {
    TrialCounted(config, cache, draws, pos);
    KnockoutPodiumOf(config, cache, draws, pos);
  }

  /** Lines 91-184 run `k` times from draw `pos`: the outcomes of the
      trials, each starting at the draw after the previous one. An error in
      any trial is the error of the whole loop. */
  function Trials(k: nat, config: Config, cache: Cache, draws: Draws, pos: nat): (res: Result<seq<Outcome>>)
    ensures res.Ok? ==> |res.value| == k
    ensures res.Ok? ==> AllCountable(res.value, AllTeams(config), |config.semiFinals|)
    decreases k
  {
    if k == 0 then Ok([])
    else
      var o :- Trial(config, cache, draws, pos);
      TrialCountable(config, cache, draws, pos);
      var rest :- Trials(k - 1, config, cache, draws, o.finals.pos);
      AllCountableCons(o, rest, AllTeams(config), |config.semiFinals|);
      Ok([o] + rest)
  }

  predicate AllCountable(outs: seq<Outcome>, teams: seq<Team>, nSemis: nat) {
    forall i | 0 <= i < |outs| :: Countable(outs[i], teams, nSemis)
  }

  lemma AllCountableTail(outs: seq<Outcome>, teams: seq<Team>, nSemis: nat)
    requires outs != [] && AllCountable(outs, teams, nSemis)
    ensures Countable(outs[0], teams, nSemis) && AllCountable(outs[1..], teams, nSemis)
  {
    forall i | 0 <= i < |outs| - 1 ensures Countable(outs[1..][i], teams, nSemis) {
      assert outs[1..][i] == outs[i + 1];
    }
  }

  lemma AllCountableCons(o: Outcome, rest: seq<Outcome>, teams: seq<Team>, nSemis: nat)
    requires Countable(o, teams, nSemis) && AllCountable(rest, teams, nSemis)
    ensures AllCountable([o] + rest, teams, nSemis)
  {
    forall i | 0 <= i < |[o] + rest| ensures Countable(([o] + rest)[i], teams, nSemis) {
      if i > 0 {
        assert ([o] + rest)[i] == rest[i - 1];
      }
    }
  }

  /** The counter increments of all trials, in order. */
  function RecordAll(c: Counts, outs: seq<Outcome>, teams: seq<Team>): (r: Counts)
    requires Tracks(c, teams) && forall i | 0 <= i < |outs| :: OutcomeWithin(outs[i], teams)
    ensures Tracks(r, teams)
    decreases |outs|
  {
    if outs == [] then c
    else
      RecordAll(Record(c, outs[0], teams), outs[1..], teams)
  }

  /** Per trial: exactly one title, two finals, two semifinals per
      configured semifinal and one qualification per qualifier. */
  lemma RecordTotals(c: Counts, o: Outcome, teams: seq<Team>, nSemis: nat)
    requires IsDistinct(teams) && Tracks(c, teams) && OutcomeWithin(o, teams)
    requires |o.finals.semis| == nSemis
    ensures var r := Record(c, o, teams);
      && SumInt(teams, r.win) == SumInt(teams, c.win) + 1
      && SumInt(teams, r.final) == SumInt(teams, c.final) + 2
      && SumInt(teams, r.semi) == SumInt(teams, c.semi) + 2 * nSemis
      && SumInt(teams, r.super8) == SumInt(teams, c.super8) + |o.qualifiers|
  {
    BumpSum(c.win, [o.finals.champion], teams);
    BumpSum(c.final, [o.finals.finalA, o.finals.finalB], teams);
    BumpSum(c.semi, Semifinalists(o.finals.semis), teams);
    BumpSum(c.super8, o.qualifiers, teams);
  }

  /** Per team and trial: title increment <= final increment <= semifinal
      increment. */
  lemma RecordMonotone(c: Counts, o: Outcome, teams: seq<Team>, nSemis: nat, t: Team)
    requires Tracks(c, teams) && Countable(o, teams, nSemis) && t in teams
    ensures var r := Record(c, o, teams);
      && r.win[t] - c.win[t] <= r.final[t] - c.final[t]
      && r.final[t] - c.final[t] <= r.semi[t] - c.semi[t]
  {
    var f := o.finals;
    var r := Record(c, o, teams);
    BumpCount(c.win, [f.champion], t);
    BumpCount(c.final, [f.finalA, f.finalB], t);
    BumpCount(c.semi, Semifinalists(f.semis), t);
    PodiumCounts(f.semis, f.finalA, f.finalB, f.champion, t);
  }

  /** A champion among the finalists, finalists among the first two pairs. */
  lemma PodiumCounts(s: seq<(Team, Team)>, fa: Team, fb: Team, champ: Team, t: Team)
    requires |s| >= 2
    requires champ == fa || champ == fb
    requires fa == s[0].0 || fa == s[0].1
    requires fb == s[1].0 || fb == s[1].1
    ensures multiset([champ])[t] <= multiset([fa, fb])[t] <= multiset(Semifinalists(s))[t]
  {
    SemifinalistsHead(s, t);
    PairCount(fa, fb, t);
    PickOne(fa, s[0].0, s[0].1, t);
    PickOne(fb, s[1].0, s[1].1, t);
    PickOne(champ, fa, fb, t);
  }

  lemma SemifinalistsHead(s: seq<(Team, Team)>, t: Team)
    requires |s| >= 2
    ensures multiset(Semifinalists(s))[t] ==
      multiset([s[0].0, s[0].1])[t] + multiset([s[1].0, s[1].1])[t] + multiset(Semifinalists(s[2..]))[t]
  {
    assert Semifinalists(s) == [s[0].0, s[0].1] + ([s[1].0, s[1].1] + Semifinalists(s[2..])) by {
      assert s[1..][0] == s[1] && s[1..][1..] == s[2..];
    }
  }

  lemma PairCount(a: Team, b: Team, t: Team)
    ensures multiset([a, b])[t] == multiset([a])[t] + multiset([b])[t]
  {
    assert [a, b] == [a] + [b];
  }

  lemma PickOne(x: Team, a: Team, b: Team, t: Team)
    requires x == a || x == b
    ensures multiset([x])[t] <= multiset([a, b])[t]
  {
    assert multiset([a, b]) == multiset{a} + multiset{b};
  }

  /** Counters that are ordered title <= final <= semifinal per team. */
  predicate Ordered(c: Counts, teams: seq<Team>)
    requires Tracks(c, teams)
  {
    forall t <- teams :: c.win[t] <= c.final[t] <= c.semi[t]
  }

  predicate NonNegative(c: Counts, teams: seq<Team>)
    requires Tracks(c, teams)
  {
    forall t <- teams :: 0 <= c.win[t] && 0 <= c.final[t] && 0 <= c.semi[t] && 0 <= c.super8[t]
  }

  /** A trial only ever adds to the counters. */
  lemma RecordNonNegative(c: Counts, o: Outcome, teams: seq<Team>)
    requires Tracks(c, teams) && OutcomeWithin(o, teams) && NonNegative(c, teams)
    ensures NonNegative(Record(c, o, teams), teams)
  {
    forall t <- teams
      ensures var r := Record(c, o, teams);
        c.win[t] <= r.win[t] && c.final[t] <= r.final[t] && c.semi[t] <= r.semi[t] && c.super8[t] <= r.super8[t]
    {
      BumpCount(c.win, [o.finals.champion], t);
      BumpCount(c.final, [o.finals.finalA, o.finals.finalB], t);
      BumpCount(c.semi, Semifinalists(o.finals.semis), t);
      BumpCount(c.super8, o.qualifiers, t);
    }
  }

  lemma {:induction false} RecordAllNonNegative(c: Counts, outs: seq<Outcome>, teams: seq<Team>, nSemis: nat)
    requires Tracks(c, teams) && NonNegative(c, teams)
    requires AllCountable(outs, teams, nSemis)
    ensures NonNegative(RecordAll(c, outs, teams), teams)
    decreases |outs|
  {
    if outs != [] {
      AllCountableTail(outs, teams, nSemis);
      RecordNonNegative(c, outs[0], teams);
      RecordAllNonNegative(Record(c, outs[0], teams), outs[1..], teams, nSemis);
    }
  }

  /** Over `|outs|` trials the title total grows by one per trial. */
  lemma {:induction false} RecordAllTitles(c: Counts, outs: seq<Outcome>, teams: seq<Team>, nSemis: nat)
    requires IsDistinct(teams) && Tracks(c, teams)
    requires AllCountable(outs, teams, nSemis)
    ensures SumInt(teams, RecordAll(c, outs, teams).win) == SumInt(teams, c.win) + |outs|
    decreases |outs|
  {
    if outs != [] {
      RecordAllStep(c, outs, teams, nSemis);
      RecordAllTitles(Record(c, outs[0], teams), outs[1..], teams, nSemis);
    }
  }

  /** ... the final total by two per trial ... */
  lemma {:induction false} RecordAllFinals(c: Counts, outs: seq<Outcome>, teams: seq<Team>, nSemis: nat)
    requires IsDistinct(teams) && Tracks(c, teams)
    requires AllCountable(outs, teams, nSemis)
    ensures SumInt(teams, RecordAll(c, outs, teams).final) == SumInt(teams, c.final) + 2 * |outs|
    decreases |outs|
  {
    if outs != [] {
      RecordAllStep(c, outs, teams, nSemis);
      RecordAllFinals(Record(c, outs[0], teams), outs[1..], teams, nSemis);
    }
  }

  /** ... and the semifinal total by two per configured semifinal per
      trial. */
  lemma {:induction false} RecordAllSemis(c: Counts, outs: seq<Outcome>, teams: seq<Team>, nSemis: nat)
    requires IsDistinct(teams) && Tracks(c, teams)
    requires AllCountable(outs, teams, nSemis)
    ensures SumInt(teams, RecordAll(c, outs, teams).semi) == SumInt(teams, c.semi) + |outs| * (2 * nSemis)
    decreases |outs|
  {
    if outs != [] {
      RecordAllStep(c, outs, teams, nSemis);
      RecordAllSemis(Record(c, outs[0], teams), outs[1..], teams, nSemis);
      MulStep(|outs|, 2 * nSemis);
    }
  }

  lemma MulStep(k: int, m: int)
    ensures (k - 1) * m + m == k * m
  {
  }

  /** One trial recorded, then the rest. */
  lemma RecordAllStep(c: Counts, outs: seq<Outcome>, teams: seq<Team>, nSemis: nat)
    requires IsDistinct(teams) && Tracks(c, teams)
    requires outs != [] && AllCountable(outs, teams, nSemis)
    ensures Countable(outs[0], teams, nSemis)
    ensures var c' := Record(c, outs[0], teams);
      && AllCountable(outs[1..], teams, nSemis)
      && RecordAll(c, outs, teams) == RecordAll(c', outs[1..], teams)
      && SumInt(teams, c'.win) == SumInt(teams, c.win) + 1
      && SumInt(teams, c'.final) == SumInt(teams, c.final) + 2
      && SumInt(teams, c'.semi) == SumInt(teams, c.semi) + 2 * nSemis
  {
    AllCountableTail(outs, teams, nSemis);
    RecordTotals(c, outs[0], teams, nSemis);
  }

  /** The per-team order title <= final <= semifinal survives any number
      of trials. */
  lemma {:induction false} RecordAllOrdered(c: Counts, outs: seq<Outcome>, teams: seq<Team>, nSemis: nat)
    requires Tracks(c, teams) && Ordered(c, teams)
    requires AllCountable(outs, teams, nSemis)
    ensures Ordered(RecordAll(c, outs, teams), teams)
    decreases |outs|
  {
    if outs != [] {
      AllCountableTail(outs, teams, nSemis);
      var c' := Record(c, outs[0], teams);
      forall t <- teams ensures c'.win[t] <= c'.final[t] <= c'.semi[t] {
        RecordMonotone(c, outs[0], teams, nSemis, t);
      }
      RecordAllOrdered(c', outs[1..], teams, nSemis);
    }
  }

  /** The podium facts of a trial's knockout. */
  lemma KnockoutPodiumOf(config: Config, cache: Cache, draws: Draws, pos: nat)
    ensures var res := Trial(config, cache, draws, pos);
      res.Ok? ==>
        var f := res.value.finals;
        && |f.semis| == |config.semiFinals| >= 2
        && (f.champion == f.finalA || f.champion == f.finalB)
        && (f.finalA == f.semis[0].0 || f.finalA == f.semis[0].1)
        && (f.finalB == f.semis[1].0 || f.finalB == f.semis[1].1)
  {
    var res := Trial(config, cache, draws, pos);
    if res.Ok? {
      var gs := GroupStage(config.groups, cache, draws, pos).value;
      var s8 := Super8Stage(config.super8, gs.positions, cache, draws, gs.pos).value;
      KnockoutPodium(config.semiFinals, s8.positions, cache, draws, s8.pos);
    }
  }

  /** One result row. */
  datatype Row = Row(team: Team, winPct: real, finalPct: real, semiPct: real, super8Pct: real)

  /** `count / n_sims * 100`. */
  function Pct(count: int, n: int): real
    requires n != 0
  {
    count as real / n as real * 100.0
  }

  function RowOf(t: Team, c: Counts, n: int): (r: Row)
    requires n != 0 && t in c.win && t in c.final && t in c.semi && t in c.super8
  {
    Row(t, Pct(c.win[t], n), Pct(c.final[t], n), Pct(c.semi[t], n), Pct(c.super8[t], n))
  }

  /** The sort key of `results.sort(key=lambda x: x["win_pct"], reverse=True)`. */
  function WinKeys(teams: seq<Team>, c: Counts, n: int): (km: map<Team, Ranking.Key>)
    requires n != 0 && Tracks(c, teams)
    ensures Ranking.HasKeys(teams, km)
  {
    map t | t in teams :: Ranking.Key(Pct(c.win[t], n), 0.0)
  }

  /** Lines 187-197: rows in `all_teams` order, then stably sorted by
      `win_pct`, best first. Sorting the teams by their rows' key and then
      building the rows gives the same list, since each team has one row. */
  function Results(teams: seq<Team>, c: Counts, n: int): (res: Result<seq<Row>>)
    requires Tracks(c, teams)
    ensures res.Err? <==> teams != [] && n == 0
    ensures res.Ok? ==> |res.value| == |teams|
  {
    if teams == [] then Ok([])
    else if n == 0 then Err(ZeroDivisionError)
    else
      var order := Ranking.SortDesc(teams, WinKeys(teams, c, n));
      assert forall t <- order :: t in multiset(teams);
      Ok(RowsOf(order, c, n))
  }

  /** `results.append({...})` for each team of `order`. */
  function RowsOf(order: seq<Team>, c: Counts, n: int): (rows: seq<Row>)
    requires n != 0 && Tracks(c, order)
    ensures |rows| == |order|
    ensures forall i :: 0 <= i < |order| ==> rows[i] == RowOf(order[i], c, n)
  {
    if order == [] then []
    else
      assert forall t <- order[1..] :: t in order;
      [RowOf(order[0], c, n)] + RowsOf(order[1..], c, n)
  }

  /** One more team, one more row at the end. */
  lemma {:induction false} RowsOfAppend(order: seq<Team>, t: Team, c: Counts, n: int)
    requires n != 0 && Tracks(c, order + [t])
    ensures Tracks(c, order)
    ensures RowsOf(order + [t], c, n) == RowsOf(order, c, n) + [RowOf(t, c, n)]
  {
    assert forall x <- order :: x in order + [t];
    if order != [] {
      assert (order + [t])[0] == order[0] && (order + [t])[1..] == order[1..] + [t];
      assert forall x <- order[1..] + [t] :: x in order + [t];
      RowsOfAppend(order[1..], t, c, n);
    } else {
      assert [t][1..] == [];
    }
  }

  /** The key `results.sort` reads from each row: its title percentage. */
  function RowKeys(rows: seq<Row>): (km: map<Row, Ranking.Key>)
    ensures Ranking.HasKeys(rows, km)
    ensures forall r <- rows :: km[r] == Ranking.Key(r.winPct, 0.0)
  {
    map r | r in rows :: Ranking.Key(r.winPct, 0.0)
  }

  /** `RowOf` as a total function: the fallback row is never built for a
      tracked team. */
  function RowFn(c: Counts, n: int): Team -> Row {
    t => if n != 0 && t in c.win && t in c.final && t in c.semi && t in c.super8
         then RowOf(t, c, n) else Row(t, 0.0, 0.0, 0.0, 0.0)
  }

  lemma {:induction false} RowsOfMap(s: seq<Team>, c: Counts, n: int)
    requires n != 0 && Tracks(c, s)
    ensures RowsOf(s, c, n) == Ranking.MapSeq(RowFn(c, n), s)
  {
    if s != [] {
      assert forall t <- s[1..] :: t in s;
      RowsOfMap(s[1..], c, n);
    }
  }

  /** `results.sort(key=win_pct, reverse=True)` on the rows built in
      `teams` order gives `Results`. */
  lemma SortRowsIsResults(teams: seq<Team>, c: Counts, n: int)
    requires Tracks(c, teams) && n != 0 && teams != []
    ensures var rows := RowsOf(teams, c, n);
      Results(teams, c, n) == Ok(Ranking.SortDesc(rows, RowKeys(rows)))
  {
    var rows := RowsOf(teams, c, n);
    var wk := WinKeys(teams, c, n);
    var rk := RowKeys(rows);
    var f := RowFn(c, n);
    forall t <- teams ensures t in wk && f(t) in rk && rk[f(t)] == wk[t] {
      var i :| 0 <= i < |teams| && teams[i] == t;
      assert rows[i] == RowOf(t, c, n);
    }
    Ranking.SortDescMap(teams, f, wk, rk);
    RowsOfMap(teams, c, n);
    var sorted := Ranking.SortDesc(teams, wk);
    assert Tracks(c, sorted);
    RowsOfMap(sorted, c, n);
  }

  function RowTeams(rows: seq<Row>): (ts: seq<Team>)
    ensures |ts| == |rows| && forall i :: 0 <= i < |rows| ==> ts[i] == rows[i].team
  {
    seq(|rows|, i requires 0 <= i < |rows| => rows[i].team)
  }

  /** Every team gets exactly one row, holding its counts over `n` as
      percentages, and the rows are ordered by title percentage, best
      first. */
  lemma ResultsShape(teams: seq<Team>, c: Counts, n: int)
    requires Tracks(c, teams) && n != 0
    ensures var rows := Results(teams, c, n).value;
      && multiset(RowTeams(rows)) == multiset(teams)
      && (forall r <- rows :: r.team in teams && r == RowOf(r.team, c, n))
      && (forall i, j :: 0 <= i < j < |rows| ==> rows[i].winPct >= rows[j].winPct)
  {
    if teams != [] {
      var km := WinKeys(teams, c, n);
      var order := Ranking.SortDesc(teams, km);
      assert Results(teams, c, n).value == RowsOf(order, c, n);
      assert forall t <- order :: t in teams by {
        forall t <- order ensures t in teams {
          assert t in multiset(order);
        }
      }
      Ranking.SortDescSorted(teams, km);
      RowsOfShape(order, c, n);
      RowsOfSorted(order, c, n, km);
    }
  }

  lemma RowsOfShape(order: seq<Team>, c: Counts, n: int)
    requires n != 0 && Tracks(c, order)
    ensures var rows := RowsOf(order, c, n);
      && RowTeams(rows) == order
      && forall r <- rows :: r.team in order && r == RowOf(r.team, c, n)
  {
    var rows := RowsOf(order, c, n);
    forall r <- rows ensures r.team in order && r == RowOf(r.team, c, n) {
      var i :| 0 <= i < |rows| && rows[i] == r;
    }
  }

  /** Rows built from a list sorted by title percentage are sorted by it. */
  lemma RowsOfSorted(order: seq<Team>, c: Counts, n: int, km: map<Team, Ranking.Key>)
    requires n != 0 && Tracks(c, order) && Ranking.HasKeys(order, km)
    requires forall t <- order :: km[t] == Ranking.Key(Pct(c.win[t], n), 0.0)
    requires Ranking.SortedDesc(order, km)
    ensures var rows := RowsOf(order, c, n);
      forall i, j :: 0 <= i < j < |rows| ==> rows[i].winPct >= rows[j].winPct
  {
    var rows := RowsOf(order, c, n);
    forall i, j | 0 <= i < j < |rows| ensures rows[i].winPct >= rows[j].winPct {
      assert Ranking.AtLeast(km[order[i]], km[order[j]]);
    }
  }

  /** Teams with the same title percentage keep their order in `teams`;
      with `teams` sorted, such ties are listed alphabetically. */
  lemma ResultsTies(teams: seq<Team>, c: Counts, n: int, pct: real)
    requires Tracks(c, teams) && n != 0 && teams != []
    ensures var km := WinKeys(teams, c, n);
      var tied := Ranking.WithKey(RowTeams(Results(teams, c, n).value), km, Ranking.Key(pct, 0.0));
      && tied == Ranking.WithKey(teams, km, Ranking.Key(pct, 0.0))
      && (TeamOrder.Ascending(teams) ==> TeamOrder.Ascending(tied))
  {
    var km := WinKeys(teams, c, n);
    var order := Ranking.SortDesc(teams, km);
    assert RowTeams(Results(teams, c, n).value) == order;
    Ranking.SortDescStable(teams, km, Ranking.Key(pct, 0.0));
    if TeamOrder.Ascending(teams) {
      WithKeyAscending(teams, km, Ranking.Key(pct, 0.0));
    }
  }

  /** Filtering keeps an alphabetical list alphabetical. */
  lemma {:induction false} WithKeyAscending(s: seq<Team>, km: map<Team, Ranking.Key>, k: Ranking.Key)
    requires Ranking.HasKeys(s, km) && TeamOrder.Ascending(s)
    ensures TeamOrder.Ascending(Ranking.WithKey(s, km, k))
    ensures forall t <- Ranking.WithKey(s, km, k) :: t in s
  {
    if s != [] {
      WithKeyAscending(s[1..], km, k);
      var rest := Ranking.WithKey(s[1..], km, k);
      forall t <- rest ensures TeamOrder.Less(s[0], t) {
        var m :| 0 <= m < |s[1..]| && s[1..][m] == t;
        assert s[m + 1] == t;
      }
    }
  }

  function TotalWinPct(rows: seq<Row>): real {
    if rows == [] then 0.0 else rows[0].winPct + TotalWinPct(rows[1..])
  }

  lemma {:induction false} TotalWinPctOf(order: seq<Team>, c: Counts, n: int)
    requires n != 0 && Tracks(c, order)
    ensures TotalWinPct(RowsOf(order, c, n)) == Pct(SumInt(order, c.win), n)
  {
    if order != [] {
      assert forall t <- order[1..] :: t in order;
      TotalWinPctOf(order[1..], c, n);
      assert RowsOf(order, c, n)[1..] == RowsOf(order[1..], c, n);
      PctAdd(c.win[order[0]], SumInt(order[1..], c.win), n);
    }
  }

  lemma PctAdd(a: int, b: int, n: int)
    requires n != 0
    ensures Pct(a + b, n) == Pct(a, n) + Pct(b, n)
  {
  }

  /** Inserting a key into the list adds its value to the sum. */
  lemma {:induction false} SumIntInsert(x: Team, s: seq<Team>, km: map<Team, Ranking.Key>, m: Counter)
    requires x in km && Ranking.HasKeys(s, km)
    requires x in m && forall y <- s :: y in m
    ensures forall y <- Ranking.Insert(x, s, km) :: y in m
    ensures SumInt(Ranking.Insert(x, s, km), m) == m[x] + SumInt(s, m)
  {
    if s != [] && !Ranking.AtLeast(km[x], km[s[0]]) {
      assert forall y <- s[1..] :: y in s;
      SumIntInsert(x, s[1..], km, m);
      var r := Ranking.Insert(x, s, km);
      assert r[0] == s[0] && r[1..] == Ranking.Insert(x, s[1..], km);
    } else {
      assert ([x] + s)[1..] == s;
    }
  }

  /** Sorting the key list does not change the sum. */
  lemma {:induction false} SumIntSortDesc(s: seq<Team>, km: map<Team, Ranking.Key>, m: Counter)
    requires Ranking.HasKeys(s, km) && forall y <- s :: y in m
    ensures forall y <- Ranking.SortDesc(s, km) :: y in m
    ensures SumInt(Ranking.SortDesc(s, km), m) == SumInt(s, m)
  {
    if s != [] {
      assert forall y <- s[1..] :: y in s;
      SumIntSortDesc(s[1..], km, m);
      SumIntInsert(s[0], Ranking.SortDesc(s[1..], km), km, m);
    }
  }

  /** When every trial crowned exactly one listed champion, the title
      percentages add up to 100. */
  lemma WinPctTotal(teams: seq<Team>, c: Counts, n: int)
    requires Tracks(c, teams) && n != 0 && teams != []
    requires SumInt(teams, c.win) == n
    ensures TotalWinPct(Results(teams, c, n).value) == 100.0
  {
    var km := WinKeys(teams, c, n);
    var order := Ranking.SortDesc(teams, km);
    assert Results(teams, c, n).value == RowsOf(order, c, n);
    SumIntSortDesc(teams, km, c.win);
    TotalWinPctOf(order, c, n);
    PctFull(n);
  }

  lemma PctFull(n: int)
    requires n != 0
    ensures Pct(n, n) == 100.0
  {
    assert n as real / n as real == 1.0;
  }

  /** `k` more trials from draw `pos`, recorded in counters `c`. */
  function RunFrom(k: nat, config: Config, cache: Cache, draws: Draws, pos: nat, c: Counts): (res: Result<Counts>)
    requires Tracks(c, AllTeams(config))
    ensures res.Ok? <==> Trials(k, config, cache, draws, pos).Ok?
  {
    var outs :- Trials(k, config, cache, draws, pos);
    Ok(RecordAll(c, outs, AllTeams(config)))
  }

  /** The whole of `simulate_tournament` after the cache is built: all
      trials from draw 0 into zero counters, then the result rows. A
      negative `n_sims` runs no trial, as `range` does. */
  function Simulation(config: Config, nSims: int, cache: Cache, draws: Draws): (res: Result<seq<Row>>)
    ensures res.Ok? ==> |res.value| == |AllTeams(config)|
  {
    var all := AllTeams(config);
    var c :- RunFrom(if nSims < 0 then 0 else nSims, config, cache, draws, 0, ZeroCounts(all));
    Results(all, c, nSims)
  }

  /** For a successful run with at least one trial: one row per team,
      rows best title percentage first, title % <= final % <= semifinal %
      in every row, and the title percentages total 100. */
  lemma SimulationProperties(config: Config, nSims: int, cache: Cache, draws: Draws)
    requires nSims > 0
    ensures var res := Simulation(config, nSims, cache, draws);
      res.Ok? ==>
        && multiset(RowTeams(res.value)) == multiset(AllTeams(config))
        && (forall i, j :: 0 <= i < j < |res.value| ==> res.value[i].winPct >= res.value[j].winPct)
        && (forall r <- res.value :: r.winPct <= r.finalPct <= r.semiPct)
        && (AllTeams(config) != [] ==> TotalWinPct(res.value) == 100.0)
        && (forall r <- res.value ::
              0.0 <= r.winPct <= 100.0 && 0.0 <= r.finalPct && 0.0 <= r.semiPct && 0.0 <= r.super8Pct)
  {
    var all := AllTeams(config);
    var run := RunFrom(nSims, config, cache, draws, 0, ZeroCounts(all));
    if run.Ok? {
      RunFromZero(nSims, config, cache, draws);
      AllTeamsSorted(config);
      ResultsProperties(all, run.value, nSims);
      ResultsBounds(all, run.value, nSims);
    }
  }

  /** From zero counters, `k` trials leave exactly `k` titles, `2k` final
      places and `2k` semifinal places per configured semifinal in total,
      and every team's counts ordered title <= final <= semifinal. */
  lemma RunFromZero(k: nat, config: Config, cache: Cache, draws: Draws)
    ensures var all := AllTeams(config);
      var run := RunFrom(k, config, cache, draws, 0, ZeroCounts(all));
      run.Ok? ==>
        && SumInt(all, run.value.win) == k
        && SumInt(all, run.value.final) == 2 * k
        && SumInt(all, run.value.semi) == k * (2 * |config.semiFinals|)
        && Ordered(run.value, all)
        && NonNegative(run.value, all)
        && (forall t <- all :: run.value.win[t] <= k)
  {
    var all := AllTeams(config);
    var z := ZeroCounts(all);
    var trials := Trials(k, config, cache, draws, 0);
    if trials.Ok? {
      var outs := trials.value;
      var nSemis := |config.semiFinals|;
      assert RunFrom(k, config, cache, draws, 0, z) == Ok(RecordAll(z, outs, all)) && |outs| == k;
      AllTeamsSorted(config);
      SumIntZero(all, z.win);
      SumIntZero(all, z.final);
      SumIntZero(all, z.semi);
      RecordAllTitles(z, outs, all, nSemis);
      RecordAllFinals(z, outs, all, nSemis);
      RecordAllSemis(z, outs, all, nSemis);
      RecordAllOrdered(z, outs, all, nSemis);
      RecordAllNonNegative(z, outs, all, nSemis);
      var c := RecordAll(z, outs, all);
      forall t <- all ensures c.win[t] <= k {
        SumIntBound(all, c.win, t);
      }
    }
  }

  /** The result rows of ordered counters with `n` titles in total. */
  lemma ResultsProperties(teams: seq<Team>, c: Counts, n: int)
    requires Tracks(c, teams) && n > 0
    requires Ordered(c, teams) && SumInt(teams, c.win) == n
    ensures var rows := Results(teams, c, n).value;
      && multiset(RowTeams(rows)) == multiset(teams)
      && (forall i, j :: 0 <= i < j < |rows| ==> rows[i].winPct >= rows[j].winPct)
      && (forall r <- rows :: r.winPct <= r.finalPct <= r.semiPct)
      && (teams != [] ==> TotalWinPct(rows) == 100.0)
  {
    ResultsShape(teams, c, n);
    var rows := Results(teams, c, n).value;
    forall r <- rows ensures r.winPct <= r.finalPct <= r.semiPct {
      assert r == RowOf(r.team, c, n);
      PctMonotone(c.win[r.team], c.final[r.team], n);
      PctMonotone(c.final[r.team], c.semi[r.team], n);
    }
    if teams != [] {
      WinPctTotal(teams, c, n);
    }
  }

  /** Counts that are never negative, with no team above `n` titles, give
      percentages that are never negative and title percentages of at most
      100. */
  lemma ResultsBounds(teams: seq<Team>, c: Counts, n: int)
    requires Tracks(c, teams) && n > 0
    requires NonNegative(c, teams) && forall t <- teams :: c.win[t] <= n
    ensures var rows := Results(teams, c, n).value;
      forall r <- rows ::
        0.0 <= r.winPct <= 100.0 && 0.0 <= r.finalPct && 0.0 <= r.semiPct && 0.0 <= r.super8Pct
  {
    ResultsShape(teams, c, n);
    var rows := Results(teams, c, n).value;
    forall r <- rows
      ensures 0.0 <= r.winPct <= 100.0 && 0.0 <= r.finalPct && 0.0 <= r.semiPct && 0.0 <= r.super8Pct
    {
      assert r == RowOf(r.team, c, n);
      RowBounds(r.team, c, n);
    }
  }

  lemma RowBounds(t: Team, c: Counts, n: int)
    requires n > 0 && t in c.win && t in c.final && t in c.semi && t in c.super8
    requires 0 <= c.win[t] <= n && 0 <= c.final[t] && 0 <= c.semi[t] && 0 <= c.super8[t]
    ensures var r := RowOf(t, c, n);
      0.0 <= r.winPct <= 100.0 && 0.0 <= r.finalPct && 0.0 <= r.semiPct && 0.0 <= r.super8Pct
  {
    PctMonotone(0, c.win[t], n);
    PctMonotone(c.win[t], n, n);
    PctFull(n);
    PctMonotone(0, c.final[t], n);
    PctMonotone(0, c.semi[t], n);
    PctMonotone(0, c.super8[t], n);
  }

  lemma PctMonotone(a: int, b: int, n: int)
    requires n > 0 && a <= b
    ensures Pct(a, n) <= Pct(b, n)
  {
  }
}
