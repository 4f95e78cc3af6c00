/** `make_matches_table`: one row per Cricsheet match file with exactly two
    teams, then only the rows with a winner and a readable date. Each file
    is taken already decoded (or as failing to load); the path gives the
    match id. */
module MatchesTable {
  import opened Errors
  import opened History

  /** A decoded JSON value; `null` and Python's `None` are both `JNull`. */
  datatype Json =
    | JNull
    | JBool(b: bool)
    | JNum(n: real)
    | JStr(s: string)
    | JList(items: seq<Json>)
    | JObj(fields: map<string, Json>)

  /** The value at the end of the key path, `None` when a key is missing or
      a value on the way is not an object. */
  function Lookup(d: Json, keys: seq<string>): Option<Json> {
    if keys == [] then Some(d)
    else if d.JObj? && keys[0] in d.fields then Lookup(d.fields[keys[0]], keys[1..])
    else None
  }

  /** A path is followed one key at a time. */
  lemma {:induction false} LookupAppend(d: Json, k1: seq<string>, k2: seq<string>)
    ensures Lookup(d, k1 + k2) == match Lookup(d, k1) { case None => None case Some(v) => Lookup(v, k2) }
  {
    if k1 != [] {
      assert k1 + k2 != [];
      assert (k1 + k2)[0] == k1[0] && (k1 + k2)[1..] == k1[1..] + k2;
      if d.JObj? && k1[0] in d.fields {
        LookupAppend(d.fields[k1[0]], k1[1..], k2);
      }
    } else {
      assert k1 + k2 == k2;
    }
  }

  /** The empty path gives the value itself; a path through a value that is
      not an object, or through a missing key, gives nothing. */
  lemma LookupCases(d: Json, k: string, rest: seq<string>)
    ensures Lookup(d, []) == Some(d)
    ensures !d.JObj? ==> Lookup(d, [k] + rest) == None
    ensures d.JObj? && k !in d.fields ==> Lookup(d, [k] + rest) == None
    ensures d.JObj? && k in d.fields ==> Lookup(d, [k] + rest) == Lookup(d.fields[k], rest)
  {
    assert ([k] + rest)[0] == k && ([k] + rest)[1..] == rest;
  }

  /** Lines 12-18: `safe_get`. */
  method SafeGet(d: Json, keys: seq<string>, default: Json) returns (r: Json)
    ensures r == Lookup(d, keys).GetOr(default)
  {
    var cur := d;
    var i := 0;
    while i < |keys|
      invariant 0 <= i <= |keys|
      invariant Lookup(d, keys) == Lookup(cur, keys[i..])
    {
      var k := keys[i];
      if !cur.JObj? || k !in cur.fields {
        return default;
      }
      assert keys[i..][0] == k && keys[i..][1..] == keys[i + 1..];
      cur := cur.fields[k];
      i := i + 1;
    }
    return cur;
  }

  /** `o.get(k, default)` on an object. */
  function Field(o: map<string, Json>, k: string, default: Json): Json {
    if k in o then o[k] else default
  }

  /** Index of the last `c` in `s`, or -1. */
  function LastIndex(s: string, c: char): (r: int)
    ensures -1 <= r < |s|
    ensures r >= 0 ==> s[r] == c
    ensures forall j :: r < j < |s| ==> s[j] != c
  {
    if s == [] then -1
    else if s[|s| - 1] == c then |s| - 1
    else LastIndex(s[..|s| - 1], c)
  }

  /** `os.path.basename`: what follows the last `/`. */
  function Basename(path: string): (r: string)
    ensures forall j :: 0 <= j < |r| ==> r[j] != '/'
    ensures |r| <= |path| && r == path[|path| - |r|..]
    ensures |r| < |path| ==> path[|path| - |r| - 1] == '/'
  {
    if path == [] || path[|path| - 1] == '/' then []
    else Basename(path[..|path| - 1]) + [path[|path| - 1]]
  }

  /** The base name is what follows the last `/`. */
  lemma {:induction false} BasenameAfter(path: string, k: int)
    requires 0 <= k < |path| && path[k] == '/'
    requires forall j :: k < j < |path| ==> path[j] != '/'
    ensures Basename(path) == path[k + 1..]
  {
    if k < |path| - 1 {
      var init := path[..|path| - 1];
      BasenameAfter(init, k);
      assert init[k + 1..] == path[k + 1..|path| - 1];
      assert path[k + 1..] == path[k + 1..|path| - 1] + path[|path| - 1..];
      assert Basename(path) == Basename(init) + [path[|path| - 1]];
    }
  }

  /** The last occurrence is the one with none after it. */
  lemma LastIndexIs(s: string, c: char, k: int)
    requires 0 <= k < |s| && s[k] == c
    requires forall j :: k < j < |s| ==> s[j] != c
    ensures LastIndex(s, c) == k
  {
  }

  /** `os.path.splitext(name)[0]` on a name without `/`: drop from the last
      dot, unless only dots come before it (a leading-dot name has no
      extension). */
  function StripExt(name: string): string {
    var dot := LastIndex(name, '.');
    if dot > 0 && exists j :: 0 <= j < dot && name[j] != '.' then name[..dot] else name
  }

  /** Line 46. */
  function MatchId(path: string): string {
    StripExt(Basename(path))
  }

  /** The last dot of `name` is at `k`. */
  predicate LastDotAt(name: string, k: int) {
    0 <= k < |name| && name[k] == '.' && forall j :: k < j < |name| ==> name[j] != '.'
  }

  /** Something other than a dot comes before position `k`. */
  predicate HasStem(name: string, k: int) {
    exists j :: 0 <= j < k && j < |name| && name[j] != '.'
  }

  /** With no dot the name is kept. With its last dot at `k`, the name is cut
      at `k` when something other than a dot comes before it, and kept
      otherwise (`.bashrc`, `..x`). */
  lemma StripExtShape(name: string)
    ensures '.' !in name ==> StripExt(name) == name
    ensures forall k :: LastDotAt(name, k) ==> StripExt(name) == if HasStem(name, k) then name[..k] else name
  {
    forall k | LastDotAt(name, k)
      ensures StripExt(name) == if HasStem(name, k) then name[..k] else name
    {
      LastIndexIs(name, '.', k);
    }
  }

  /** The match id is the file's base name (no `/` in it, a suffix of the
      path) less its extension, as `StripExtShape` describes. */
  lemma MatchIdShape(path: string)
    ensures var name := Basename(path);
      && name == path[|path| - |name|..]
      && (forall j :: 0 <= j < |name| ==> name[j] != '/')
      && ('.' !in name ==> MatchId(path) == name)
      && (forall k :: LastDotAt(name, k) ==> MatchId(path) == if HasStem(name, k) then name[..k] else name)
  {
    StripExtShape(Basename(path));
  }

  /** The usual case: a numbered file in a directory. */
  lemma MatchIdExample()
    ensures MatchId("d/7.json") == "7"
  {
    var p := "d/7.json";
    BasenameAfter(p, 1);
    assert p[2..] == "7.json";
    var name := "7.json";
    LastIndexIs(name, '.', 1);
    assert name[0] != '.';
    assert name[..1] == "7";
  }

  /** The row `parse_match` builds (lines 45-58); absent values are `JNull`. */
  datatype MatchRow = MatchRow(matchId: string, date: Json, team1: Json, team2: Json, winner: Json,
                               result: Json, venue: Json, city: Json, tossWinner: Json,
                               tossDecision: Json, byRuns: Json, byWickets: Json)

  const Empty: Json := JObj(map[])

  /** The two-team test of line 29. */
  predicate TwoTeams(teams: Json) {
    teams.JList? && |teams.items| == 2
  }

  /** Lines 25-58 on the decoded file: `None` for a match without exactly
      two teams, an error when a value read with `get` is not an object. */
  function ParseMatch(path: string, obj: Json): Result<Option<MatchRow>> {
    if !obj.JObj? then Err(AttributeError)
    else
      var info := Field(obj.fields, "info", Empty);
      if !info.JObj? then Err(AttributeError)
      else
        var teams := Field(info.fields, "teams", JList([]));
        if !TwoTeams(teams) then Ok(None)
        else
          var outcome := Field(info.fields, "outcome", Empty);
          if !outcome.JObj? then Err(AttributeError)
          else
            var dates := Field(info.fields, "dates", JList([]));
            var matchDate := if dates.JList? && dates.items != [] then dates.items[0] else JNull;
            var toss := Field(info.fields, "toss", Empty);
            if !toss.JObj? then Err(AttributeError)
            else
              Ok(Some(MatchRow(
                MatchId(path), matchDate, teams.items[0], teams.items[1],
                Field(outcome.fields, "winner", JNull), Field(outcome.fields, "result", JNull),
                Field(info.fields, "venue", JNull), Field(info.fields, "city", JNull),
                Field(toss.fields, "winner", JNull), Field(toss.fields, "decision", JNull),
                Lookup(outcome, ["by", "runs"]).GetOr(JNull), Lookup(outcome, ["by", "wickets"]).GetOr(JNull))))
  }

  /** `o.get(k, {})`, or `{}` when `o` is not an object. */
  function Section(o: Json, k: string): Json {
    if o.JObj? && k in o.fields then o.fields[k] else Empty
  }

  /** `info.get("teams", [])`. */
  function TeamsOf(info: Json): Json {
    if info.JObj? && "teams" in info.fields then info.fields["teams"] else JList([])
  }

  /** `.get` on something that is not a dict raises: the top level and
      `info` always, `outcome` and `toss` once the file has two teams. */
  lemma ParseMatchErrors(path: string, obj: Json)
    ensures !obj.JObj? ==> ParseMatch(path, obj) == Err(AttributeError)
    ensures obj.JObj? && !Section(obj, "info").JObj? ==> ParseMatch(path, obj) == Err(AttributeError)
    ensures var info := Section(obj, "info");
      obj.JObj? && info.JObj? && TwoTeams(TeamsOf(info)) && !Section(info, "outcome").JObj? ==>
        ParseMatch(path, obj) == Err(AttributeError)
    ensures var info := Section(obj, "info");
      obj.JObj? && info.JObj? && TwoTeams(TeamsOf(info)) && Section(info, "outcome").JObj?
        && !Section(info, "toss").JObj? ==>
        ParseMatch(path, obj) == Err(AttributeError)
  {
  }

  /** A file without exactly two teams gives `None`, whatever `outcome` and
      `toss` hold, since they are read only afterwards. A two-team file whose
      `outcome` and `toss` are objects (or absent) gives a match with the two
      teams in order, the id from the path, the first listed date (or none),
      the outcome, venue, city and toss fields (or none each), and the margin
      read through `outcome.by`. */
  lemma ParseMatchShape(path: string, obj: Json)
    requires obj.JObj? && Section(obj, "info").JObj?
    ensures var info := Section(obj, "info");
      var teams := TeamsOf(info);
      var outcome := Section(info, "outcome");
      var toss := Section(info, "toss");
      var dates := if "dates" in info.fields then info.fields["dates"] else JList([]);
      var res := ParseMatch(path, obj);
      && (!TwoTeams(teams) ==> res == Ok(None))
      && (TwoTeams(teams) && outcome.JObj? && toss.JObj? ==>
          && res.Ok? && res.value.Some?
          && var row := res.value.value;
          && row.team1 == teams.items[0] && row.team2 == teams.items[1]
          && row.matchId == MatchId(path)
          && row.date == (if dates.JList? && dates.items != [] then dates.items[0] else JNull)
          && row.winner == Field(outcome.fields, "winner", JNull)
          && row.result == Field(outcome.fields, "result", JNull)
          && row.venue == Field(info.fields, "venue", JNull)
          && row.city == Field(info.fields, "city", JNull)
          && row.tossWinner == Field(toss.fields, "winner", JNull)
          && row.tossDecision == Field(toss.fields, "decision", JNull)
          && row.byRuns == Lookup(outcome, ["by", "runs"]).GetOr(JNull)
          && row.byWickets == Lookup(outcome, ["by", "wickets"]).GetOr(JNull))
  {
  }

  /** What happens to one file: parsed into a row, or skipped because it
      would not load (`None`), raised, or had no two teams. */
  function FileRow(path: string, loaded: Option<Json>): Option<MatchRow> {
    match loaded
    case None => None
    case Some(obj) =>
      match ParseMatch(path, obj)
      case Ok(Some(row)) => Some(row)
      case _ => None
  }

  /** Lines 69-77: the rows kept, in path order. */
  function Kept(files: seq<(string, Option<Json>)>): seq<MatchRow> {
    if files == [] then []
    else
      var last := files[|files| - 1];
      Kept(files[..|files| - 1]) + (match FileRow(last.0, last.1) case Some(row) => [row] case None => [])
  }

  /** Lines 69-77: the number of files skipped. */
  function Skipped(files: seq<(string, Option<Json>)>): nat {
    if files == [] then 0
    else
      var last := files[|files| - 1];
      Skipped(files[..|files| - 1]) + (if FileRow(last.0, last.1).None? then 1 else 0)
  }

  /** Every file is either kept or skipped. */
  lemma {:induction false} KeptPlusSkipped(files: seq<(string, Option<Json>)>)
    ensures |Kept(files)| + Skipped(files) == |files|
  {
    if files != [] {
      KeptPlusSkipped(files[..|files| - 1]);
    }
  }

  /** A kept row comes from a file that loaded and parsed. */
  lemma {:induction false} KeptParsed(files: seq<(string, Option<Json>)>)
    ensures forall row <- Kept(files) :: exists f <- files :: FileRow(f.0, f.1) == Some(row)
  {
    if files != [] {
      var init := files[..|files| - 1];
      KeptParsed(init);
      assert forall f <- init :: f in files;
    }
  }

  /** A written line: the row and its day. */
  datatype TableRow = TableRow(row: MatchRow, day: Date)

  /** What the script reports: files found, files skipped, rows written. */
  datatype Summary = Summary(parsed: nat, skipped: nat, table: seq<TableRow>)

  /** Lines 85-87, one row: the date read as a day, or dropped. */
  function Dated(parseDate: Json -> Option<Date>, rows: seq<MatchRow>): seq<TableRow> {
    if rows == [] then []
    else
      (match parseDate(rows[0].date) case Some(d) => [TableRow(rows[0], d)] case None => [])
      + Dated(parseDate, rows[1..])
  }

  lemma {:induction false} DatedMembers(parseDate: Json -> Option<Date>, rows: seq<MatchRow>)
    ensures forall t <- Dated(parseDate, rows) :: t.row in rows && parseDate(t.row.date) == Some(t.day)
    ensures forall r <- rows :: parseDate(r.date).Some? ==> TableRow(r, parseDate(r.date).value) in Dated(parseDate, rows)
  {
    if rows != [] {
      DatedMembers(parseDate, rows[1..]);
    }
  }

  /** `main` on the found files: no file is a `SystemExit`; no kept row
      leaves the frame without a `winner` column (a `KeyError`); otherwise
      the rows with a winner and a readable date. */
  function MatchesTableOf(files: seq<(string, Option<Json>)>, parseDate: Json -> Option<Date>): Result<Summary> {
    if files == [] then Err(SystemExit)
    else
      var rows := Kept(files);
      if rows == [] then Err(KeyError)
      else
        var won := Filter(rows, (r: MatchRow) => r.winner != JNull);
        Ok(Summary(|files|, Skipped(files), Dated(parseDate, won)))
  }

  /** The written rows are exactly the kept rows with a winner and a
      readable date, and the counts add up to the files found. */
  lemma MatchesTableProperties(files: seq<(string, Option<Json>)>, parseDate: Json -> Option<Date>)
    requires MatchesTableOf(files, parseDate).Ok?
    ensures var s := MatchesTableOf(files, parseDate).value;
      && s.parsed == |files| && |Kept(files)| + s.skipped == s.parsed
      && (forall t <- s.table :: t.row in Kept(files) && t.row.winner != JNull && parseDate(t.row.date) == Some(t.day))
      && (forall r <- Kept(files) :: r.winner != JNull && parseDate(r.date).Some? ==>
            TableRow(r, parseDate(r.date).value) in s.table)
  {
    KeptPlusSkipped(files);
    DatedMembers(parseDate, Filter(Kept(files), (r: MatchRow) => r.winner != JNull));
  }

  /** The two ways the script stops early. */
  lemma MatchesTableErrors(files: seq<(string, Option<Json>)>, parseDate: Json -> Option<Date>)
    ensures files == [] <==> MatchesTableOf(files, parseDate) == Err(SystemExit)
    ensures files != [] && Kept(files) == [] <==> MatchesTableOf(files, parseDate) == Err(KeyError)
  {
  }

  /** Lines 69-77, one pass of the loop. */
  method ParseFile(path: string, loaded: Option<Json>) returns (row: Option<MatchRow>)
    ensures row == FileRow(path, loaded)
  {
    if loaded.None? {
      return None;
    }
    var parsed := ParseMatch(path, loaded.value);
    if parsed.Err? || parsed.value.None? {
      return None;
    }
    return parsed.value;
  }

  /** Lines 61-87: `main`, with the directory listing and the file
      reading already done. */
  method BuildMatchesTable(files: seq<(string, Option<Json>)>, parseDate: Json -> Option<Date>)
    returns (res: Result<Summary>)
    ensures res == MatchesTableOf(files, parseDate)
  {
    if |files| == 0 {
      return Err(SystemExit);
    }
    var rows: seq<MatchRow> := [];
    var skipped: nat := 0;
    var i := 0;
    while i < |files|
      invariant 0 <= i <= |files|
      invariant rows == Kept(files[..i]) && skipped == Skipped(files[..i])
    {
      var row := ParseFile(files[i].0, files[i].1);
      if row.None? {
        skipped := skipped + 1;
      } else {
        rows := rows + [row.value];
      }
      assert files[..i + 1][..i] == files[..i];
      i := i + 1;
    }
    assert files[..i] == files;
    if rows == [] {
      return Err(KeyError);
    }
    var won := Filter(rows, (r: MatchRow) => r.winner != JNull);
    res := Ok(Summary(|files|, skipped, Dated(parseDate, won)));
  }
}
