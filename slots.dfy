/** Qualification slots of `simulate_tournament`: `"A1"` (rank 1 of group
    `A`) resolved against the group standings, `"S1_1"` (rank 1 of Super 8
    group `S1`) against the Super 8 standings, with Python's `int()`,
    `str.split` and list-indexing semantics written out. */
module Slots {
  import opened Errors
  import History

  type Team = string

  /** Standings of one stage: group name -> teams, best first. */
  type Positions = map<string, seq<Team>>

  predicate IsDigit(c: char) {
    '0' <= c <= '9'
  }

  function DigitValue(c: char): (d: int)
    requires IsDigit(c)
    ensures 0 <= d <= 9
  {
    (c as int) - ('0' as int)
  }

  function Digit(d: int): (c: char)
    requires 0 <= d <= 9
    ensures IsDigit(c) && DigitValue(c) == d
  {
    (('0' as int) + d) as char
  }

  function TrimLeft(s: string): (r: string)
    ensures |r| <= |s|
    ensures r == [] || !History.IsSpace(r[0])
  {
    if s != [] && History.IsSpace(s[0]) then TrimLeft(s[1..]) else s
  }

  function TrimRight(s: string): (r: string)
    ensures |r| <= |s|
    ensures r == [] || !History.IsSpace(r[|r| - 1])
  {
    if s != [] && History.IsSpace(s[|s| - 1]) then TrimRight(s[..|s| - 1]) else s
  }

  predicate AllDigits(s: string) {
    forall c <- s :: IsDigit(c)
  }

  /** The value of a string of decimal digits, most significant first. */
  function DigitsValue(s: string): nat
    requires AllDigits(s)
  {
    if s == [] then 0 else DigitsValue(s[..|s| - 1]) * 10 + DigitValue(s[|s| - 1])
  }

  /** Python `int(s)` on a `str`: surrounding whitespace, an optional sign,
      then at least one decimal digit; anything else is a ValueError. */
  function ParseInt(s: string): Result<int> {
    var t := TrimRight(TrimLeft(s));
    if t != [] && (t[0] == '+' || t[0] == '-') then
      var body := t[1..];
      if body != [] && AllDigits(body) then
        var n: int := DigitsValue(body);
        Ok(if t[0] == '-' then -n else n)
      else Err(ValueError)
    else if t != [] && AllDigits(t) then Ok(DigitsValue(t))
    else Err(ValueError)
  }

  /** Decimal rendering of a natural number (`str(n)`). */
  function Decimal(n: nat): (s: string)
    ensures s != [] && AllDigits(s)
  {
    if n < 10 then [Digit(n)] else Decimal(n / 10) + [Digit(n % 10)]
  }

  lemma {:induction false} DecimalValue(n: nat)
    ensures DigitsValue(Decimal(n)) == n
  {
    if n >= 10 {
      DecimalValue(n / 10);
      var s := Decimal(n);
      assert s[..|s| - 1] == Decimal(n / 10);
    }
  }

  /** Round trip: `int(str(n)) == n`. */
  lemma ParseDecimal(n: nat)
    ensures ParseInt(Decimal(n)) == Ok(n)
  {
    var s := Decimal(n);
    DecimalValue(n);
    assert IsDigit(s[0]) && IsDigit(s[|s| - 1]);
    assert TrimLeft(s) == s;
    assert TrimRight(s) == s;
  }

  /** `int(c)` of a single character succeeds exactly for a decimal digit. */
  lemma ParseOneChar(c: char)
    ensures ParseInt([c]).Ok? <==> IsDigit(c)
    ensures IsDigit(c) ==> ParseInt([c]) == Ok(DigitValue(c))
  {
    assert [c][..0] == [];
    if History.IsSpace(c) {
      assert TrimLeft([c]) == TrimLeft([]) == [];
    } else {
      assert TrimLeft([c]) == [c];
      assert TrimRight([c]) == [c];
      if IsDigit(c) {
        assert DigitsValue([c]) == DigitsValue([]) * 10 + DigitValue(c);
      }
    }
  }

  /** Python `s[i]` on a list: negative indices count from the end. */
  function PyIndex<T>(s: seq<T>, i: int): (r: Result<T>)
    ensures r.Ok? <==> -|s| <= i < |s|
    ensures r.Ok? ==> r.value in s
    ensures 0 <= i < |s| ==> r == Ok(s[i])
  {
    if 0 <= i < |s| then Ok(s[i])
    else if -|s| <= i < 0 then Ok(s[|s| + i])
    else Err(IndexError)
  }

  function FirstIndex(s: string, c: char): (i: nat)
    requires c in s
    ensures i < |s| && s[i] == c && c !in s[..i]
  {
    if s[0] == c then 0
    else
      assert c in s[1..];
      var j := FirstIndex(s[1..], c);
      assert s[..j + 1] == [s[0]] + s[1..][..j];
      j + 1
  }

  /** Python `a, b = s.split("_")`: a ValueError unless `s` holds exactly
      one underscore. */
  function SplitUnderscore(s: string): (r: Result<(string, string)>)
    ensures r.Ok? <==> multiset(s)['_'] == 1
    ensures r.Ok? ==> r.value.0 + "_" + r.value.1 == s
    ensures r.Ok? ==> '_' !in r.value.0 && '_' !in r.value.1
  {
    if '_' !in s then Err(ValueError)
    else
      var i := FirstIndex(s, '_');
      var head, tail := s[..i], s[i + 1..];
      assert s == head + "_" + tail;
      assert multiset(s) == multiset(head) + multiset{'_'} + multiset(tail);
      assert multiset(head)['_'] == 0;
      if '_' in tail then Err(ValueError) else Ok((head, tail))
  }

  /** `resolve_group_slot`: the first character names the group, the second
      is the rank; characters after the second are never read. */
  function ResolveGroupSlot(slot: string, positions: Positions): (r: Result<Team>)
    ensures r.Ok? ==> |slot| >= 2 && slot[..1] in positions && r.value in positions[slot[..1]]
  {
    if |slot| < 1 then Err(IndexError)
    else
      var g := slot[..1];
      if |slot| < 2 then Err(IndexError)
      else if !IsDigit(slot[1]) then Err(ValueError)
      else
        var pos := DigitValue(slot[1]) - 1;
        if g !in positions then Err(KeyError)
        else PyIndex(positions[g], pos)
  }

  /** `resolve_super8_slot`: the text before `_` names the Super 8 group,
      the text after it is the rank, read by `int()`. */
  function ResolveSuper8Slot(slot: string, positions: Positions): (r: Result<Team>)
    ensures r.Ok? ==> SplitUnderscore(slot).Ok? && SplitUnderscore(slot).value.0 in positions
    ensures r.Ok? ==> r.value in positions[SplitUnderscore(slot).value.0]
  {
    var parts :- SplitUnderscore(slot);
    var rank :- ParseInt(parts.1);
    var posI := rank - 1;
    if parts.0 !in positions then Err(KeyError)
    else PyIndex(positions[parts.0], posI)
  }

  /** Only the first two characters of a group slot are read. */
  lemma GroupSlotReadsTwoChars(slot: string, positions: Positions)
    requires |slot| >= 2
    ensures ResolveGroupSlot(slot, positions) == ResolveGroupSlot(slot[..2], positions)
  {
    assert slot[..2][..1] == slot[..1];
  }

  /** `"A1"` is the leader of group `"A"`: rank `d` reads index `d - 1`. */
  lemma GroupSlotResolves(g: char, d: char, positions: Positions)
    requires '1' <= d <= '9'
    requires [g] in positions && DigitValue(d) <= |positions[[g]]|
    ensures ResolveGroupSlot([g, d], positions) == Ok(positions[[g]][DigitValue(d) - 1])
  {
    assert [g, d][..1] == [g];
  }

  /** Rank `'0'` becomes Python index -1: the LAST team of the group. */
  lemma GroupSlotZeroIsLast(g: char, positions: Positions)
    requires [g] in positions && |positions[[g]]| > 0
    ensures ResolveGroupSlot([g, '0'], positions) == Ok(positions[[g]][|positions[[g]]| - 1])
  {
    assert [g, '0'][..1] == [g];
  }

  /** There is only one way to cut a string at its one underscore. */
  lemma SplitUnique(a: string, b: string, c: string, d: string)
    requires '_' !in a && '_' !in c
    requires a + "_" + b == c + "_" + d
    ensures a == c && b == d
  {
    var s := a + "_" + b;
    assert s[|a|] == '_' && (a + "_" + b)[|c|] == '_';
    assert a == s[..|a|] && c == s[..|c|];
    assert b == s[|a| + 1..] && d == s[|c| + 1..];
  }

  /** `"S1_1"` is the leader of Super 8 group `"S1"`: `name_r` reads index
      `r - 1` of that group. */
  lemma Super8SlotResolves(name: string, n: nat, positions: Positions)
    requires '_' !in name && name in positions && 1 <= n <= |positions[name]|
    ensures ResolveSuper8Slot(name + "_" + Decimal(n), positions) == Ok(positions[name][n - 1])
  {
    var digits := Decimal(n);
    var slot := name + "_" + digits;
    assert !IsDigit('_');
    assert multiset(slot) == multiset(name) + multiset{'_'} + multiset(digits);
    assert multiset(name)['_'] == 0 && multiset(digits)['_'] == 0;
    var parts := SplitUnderscore(slot).value;
    SplitUnique(parts.0, parts.1, name, digits);
    ParseDecimal(n);
  }
}
