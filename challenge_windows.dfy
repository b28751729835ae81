/**
 * The two importance-rating windows: water-security challenges WS01..WS04
 * and other challenges OC01..OC25. Both windows share one row widget, one
 * rating scale and one CSV layout (challenge code, importance value).
 */
module ChallengeWindows {
  import opened Wrappers
  import opened PyNum
  import opened PyParse

  /** Every challenge starts at the middle of the 1..100 scale. */
  const DefaultValue := 50

  const WaterSecurityCodes: seq<string> := ["WS01", "WS02", "WS03", "WS04"]

  /** `f'OC{str(i+1).zfill(2)}'` for the `i`-th other challenge. */
  function OtherChallengeCode(i: nat): string
  {
    "OC" + Pad2(i + 1)
  }

  function OtherChallengeCodes(): (codes: seq<string>)
    ensures |codes| == 25
    ensures forall i :: 0 <= i < 25 ==> codes[i] == OtherChallengeCode(i)
  {
    seq(25, (i: int) requires 0 <= i => OtherChallengeCode(i))
  }

  predicate Distinct(codes: seq<string>)
  {
    forall i, j :: 0 <= i < j < |codes| ==> codes[i] != codes[j]
  }

  lemma WaterSecurityCodesDistinct()
    ensures Distinct(WaterSecurityCodes)
  {
  }

  /** `zfill(2)` keeps the number readable back, so distinct numbers give distinct texts. */
  lemma Pad2Value(n: nat)
    requires 1 <= n < 100
    ensures AllDigits(Pad2(n)) && DigitsValue(Pad2(n)) == n
  {
    if n < 10 {
      var s := Pad2(n);
      assert s == ['0', DigitChar(n)];
      assert s[..1] == ['0'];
      assert s[..1][..0] == [];
      assert DigitsValue(s[..1]) == 0;
    } else {
      NatToStringDigits(n);
    }
  }

  lemma OtherChallengeCodesShape()
    ensures Distinct(OtherChallengeCodes())
    ensures OtherChallengeCodes()[0] == "OC01" && OtherChallengeCodes()[24] == "OC25"
    ensures forall i :: 0 <= i < 25 ==> |OtherChallengeCodes()[i]| == 4
  {
    var codes := OtherChallengeCodes();
    forall i, j | 0 <= i < j < 25
      ensures codes[i] != codes[j]
    {
      Pad2Value(i + 1);
      Pad2Value(j + 1);
      assert codes[i][2..] == Pad2(i + 1);
      assert codes[j][2..] == Pad2(j + 1);
    }
    forall i | 0 <= i < 25
      ensures |codes[i]| == 4
    {
      if i + 1 >= 10 {
        NatToStringDigits(i + 1);
        assert NatToString(i + 1) == NatToString((i + 1) / 10) + [DigitChar((i + 1) % 10)];
      }
    }
    assert Pad2(25) == NatToString(25) == NatToString(2) + [DigitChar(5)];
  }

  // ---------------------------------------------------------------------
  // Rating scale

  datatype Level = VeryLow | Low | Medium | High | VeryHigh

  /** `_get_importance_level`: five bands of twenty; anything outside 1..100 shows as medium. */
  function ImportanceLevel(v: int): (l: Level)
    ensures l == VeryLow <==> 1 <= v <= 20
    ensures l == Low <==> 21 <= v <= 40
    ensures l == Medium <==> (41 <= v <= 60 || v < 1 || v > 100)
    ensures l == High <==> 61 <= v <= 80
    ensures l == VeryHigh <==> 81 <= v <= 100
  {
    if 1 <= v <= 20 then VeryLow
    else if 21 <= v <= 40 then Low
    else if 41 <= v <= 60 then Medium
    else if 61 <= v <= 80 then High
    else if 81 <= v <= 100 then VeryHigh
    else Medium
  }

  function Rank(l: Level): nat
  {
    match l
    case VeryLow => 0
    case Low => 1
    case Medium => 2
    case High => 3
    case VeryHigh => 4
  }

  /** On the valid scale a higher rating never shows a lower level. */
  lemma LevelMonotone(a: int, b: int)
    requires 1 <= a <= b <= 100
    ensures Rank(ImportanceLevel(a)) <= Rank(ImportanceLevel(b))
  {
  }

  /** Each band is exactly twenty ratings wide: rating `v` lies in band `(v - 1) / 20`. */
  lemma LevelBand(v: int)
    requires 1 <= v <= 100
    ensures Rank(ImportanceLevel(v)) == (v - 1) / 20
  {
  }

  // ---------------------------------------------------------------------
  // One row of the table

  /** `ChallengeRow` / `OtherChallengeRow`: a rating held in `currentValue` and shown in an entry. */
  class ChallengeRow {
    const code: string
    var currentValue: int
    var entryText: string

    /** The entry always reads back as the value the row holds. */
    predicate Shows()
      reads this
    {
      ParseInt(entryText) == Some(currentValue)
    }

    predicate InRange()
      reads this
    {
      1 <= currentValue <= 100
    }

    constructor(code: string, defaultValue: int)
      ensures this.code == code && currentValue == defaultValue
      ensures entryText == IntToString(defaultValue)
      ensures Shows()
    {
      this.code := code;
      currentValue := defaultValue;
      entryText := IntToString(defaultValue);
      ParseIntOfIntToString(defaultValue);
    }

    /** The level label next to the entry. */
    function ShownLevel(): Level
      reads this
    {
      ImportanceLevel(currentValue)
    }

    /**
     * `_on_entry_change`: the typed text is taken only when `int()` accepts it
     * and it lies in 1..100, and then the window is told the new value;
     * otherwise the entry is reset to the held value.
     */
    method OnEntryChange(text: string) returns (notified: Option<(string, int)>)
      modifies this
      ensures ParseInt(text).Some? && 1 <= ParseInt(text).value <= 100 ==>
        currentValue == ParseInt(text).value && entryText == text
        && notified == Some((code, currentValue))
      ensures !(ParseInt(text).Some? && 1 <= ParseInt(text).value <= 100) ==>
        currentValue == old(currentValue) && entryText == IntToString(currentValue)
        && notified == None
      ensures Shows() && (old(InRange()) ==> InRange())
    {
      var parsed := ParseInt(text);
      if parsed.Some? && 1 <= parsed.value <= 100 {
        currentValue := parsed.value;
        entryText := text;
        notified := Some((code, currentValue));
      } else {
        entryText := IntToString(currentValue);
        ParseIntOfIntToString(currentValue);
        notified := None;
      }
    }

    /** `_increment`: one step up, never past 100. */
    method Increment() returns (notified: Option<(string, int)>)
      requires Shows()
      modifies this
      ensures old(currentValue) < 100 ==>
        currentValue == old(currentValue) + 1 && entryText == IntToString(currentValue)
        && notified == Some((code, currentValue))
      ensures old(currentValue) >= 100 ==>
        currentValue == old(currentValue) && entryText == old(entryText) && notified == None
      ensures Shows() && (old(InRange()) ==> InRange())
    {
      notified := None;
      if currentValue < 100 {
        currentValue := currentValue + 1;
        entryText := IntToString(currentValue);
        ParseIntOfIntToString(currentValue);
        notified := Some((code, currentValue));
      }
    }

    /** `_decrement`: one step down, never below 1. */
    method Decrement() returns (notified: Option<(string, int)>)
      requires Shows()
      modifies this
      ensures old(currentValue) > 1 ==>
        currentValue == old(currentValue) - 1 && entryText == IntToString(currentValue)
        && notified == Some((code, currentValue))
      ensures old(currentValue) <= 1 ==>
        currentValue == old(currentValue) && entryText == old(entryText) && notified == None
      ensures Shows() && (old(InRange()) ==> InRange())
    {
      notified := None;
      if currentValue > 1 {
        currentValue := currentValue - 1;
        entryText := IntToString(currentValue);
        ParseIntOfIntToString(currentValue);
        notified := Some((code, currentValue));
      }
    }

    /** `_update_widgets_with_loaded_values`: a loaded value is shown as is, without the 1..100 check. */
    method ShowLoadedValue(v: int)
      modifies this
      ensures currentValue == v && entryText == IntToString(v) && Shows()
    {
      currentValue := v;
      entryText := IntToString(v);
      ParseIntOfIntToString(v);
    }
  }

  // ---------------------------------------------------------------------
  // The CSV file of a window

  /** One data row of a previous evaluation; `None` is a cell `int(float(..))` rejects. */
  datatype LoadRow = LoadRow(code: string, value: Option<real>)

  function Get(values: map<string, int>, code: string): (v: int)
    ensures code in values ==> v == values[code]
    ensures code !in values ==> v == DefaultValue
  {
    if code in values then values[code] else DefaultValue
  }

  /** `_save`: one row per challenge, in table order, with the edited value or the default. */
  function SaveRows(codes: seq<string>, values: map<string, int>): (rows: seq<(string, int)>)
    ensures |rows| == |codes|
    ensures forall i :: 0 <= i < |codes| ==> rows[i].0 == codes[i]
  {
    seq(|codes|, (i: int) requires 0 <= i < |codes| => (codes[i], Get(values, codes[i])))
  }

  /** Number of leading rows whose value cell converts; the load stops at the first that fails. */
  function ParsedPrefix(rows: seq<LoadRow>): (n: nat)
    ensures n <= |rows|
    ensures forall k :: 0 <= k < n ==> rows[k].value.Some?
    ensures n < |rows| ==> rows[n].value.None?
  {
    if rows == [] then 0
    else if rows[0].value.None? then 0
    else 1 + ParsedPrefix(rows[1..])
  }

  /** The dictionary after the first `n` rows were read, each assigning `int(float(value))`. */
  function LoadPrefix(values: map<string, int>, rows: seq<LoadRow>, n: nat): map<string, int>
    requires n <= |rows| && forall k :: 0 <= k < n ==> rows[k].value.Some?
  {
    if n == 0 then values
    else LoadPrefix(values, rows, n - 1)[rows[n - 1].code := Trunc(rows[n - 1].value.value)]
  }

  /** Codes that no read row names keep the value they had. */
  lemma {:induction false} LoadPrefixUntouched(values: map<string, int>, rows: seq<LoadRow>, n: nat, code: string)
    requires n <= |rows| && forall k :: 0 <= k < n ==> rows[k].value.Some?
    requires forall k :: 0 <= k < n ==> rows[k].code != code
    ensures code in LoadPrefix(values, rows, n) <==> code in values
    ensures code in values ==> LoadPrefix(values, rows, n)[code] == values[code]
  {
    if n > 0 {
      LoadPrefixUntouched(values, rows, n - 1, code);
    }
  }

  /** A code's loaded value comes from the last row that names it. */
  lemma {:induction false} LoadPrefixLastWins(values: map<string, int>, rows: seq<LoadRow>, n: nat, code: string, k: nat)
    requires n <= |rows| && forall j :: 0 <= j < n ==> rows[j].value.Some?
    requires k < n && rows[k].code == code
    requires forall m :: k < m < n ==> rows[m].code != code
    ensures code in LoadPrefix(values, rows, n)
    ensures LoadPrefix(values, rows, n)[code] == Trunc(rows[k].value.value)
  {
    if k < n - 1 {
      LoadPrefixLastWins(values, rows, n - 1, code, k);
    }
  }

  /** Rows as `_save` writes them, read back through `pd.read_csv`. */
  function AsLoadRows(rows: seq<(string, int)>): (r: seq<LoadRow>)
    ensures |r| == |rows|
    ensures forall i :: 0 <= i < |rows| ==> r[i] == LoadRow(rows[i].0, Some(rows[i].1 as real))
  {
    seq(|rows|, (i: int) requires 0 <= i < |rows| => LoadRow(rows[i].0, Some(rows[i].1 as real)))
  }

  /** Loading a saved file restores every challenge's value, the defaults included. */
  lemma SaveLoadRoundTrip(codes: seq<string>, values: map<string, int>, start: map<string, int>)
    requires Distinct(codes)
    ensures var rows := AsLoadRows(SaveRows(codes, values));
      ParsedPrefix(rows) == |rows|
      && forall i :: 0 <= i < |codes| ==>
        codes[i] in LoadPrefix(start, rows, |rows|)
        && LoadPrefix(start, rows, |rows|)[codes[i]] == Get(values, codes[i])
  {
    var rows := AsLoadRows(SaveRows(codes, values));
    assert forall k :: 0 <= k < |rows| ==> rows[k].value.Some?;
    forall i | 0 <= i < |codes|
      ensures codes[i] in LoadPrefix(start, rows, |rows|)
      ensures LoadPrefix(start, rows, |rows|)[codes[i]] == Get(values, codes[i])
    {
      assert rows[i].code == codes[i];
      assert forall m :: i < m < |rows| ==> rows[m].code != codes[i];
      LoadPrefixLastWins(start, rows, |rows|, codes[i], i);
      TruncOfInteger(Get(values, codes[i]));
    }
  }

  /** The state of one rating window: its challenge codes and the edited values by code. */
  class ChallengeWindow {
    const codes: seq<string>
    var challengeValues: map<string, int>
    var hasPreviousData: bool

    constructor(codes: seq<string>)
      ensures this.codes == codes && challengeValues == map[] && !hasPreviousData
    {
      this.codes := codes;
      challengeValues := map[];
      hasPreviousData := false;
    }

    /** `_on_challenge_value_change`: the callback every row notifies. */
    method OnChallengeValueChange(code: string, value: int)
      modifies this
      ensures challengeValues == old(challengeValues)[code := value]
      ensures hasPreviousData == old(hasPreviousData)
    {
      challengeValues := challengeValues[code := value];
    }

    /**
     * `_load_previous_evaluation`: with no file nothing happens; otherwise
     * the rows are read in order until a value cell fails to convert, and
     * the evaluation counts as loaded only when every row was read.
     */
    method LoadPrevious(csv: Option<seq<LoadRow>>)
      modifies this
      ensures csv.None? ==> challengeValues == old(challengeValues) && hasPreviousData == old(hasPreviousData)
      ensures csv.Some? ==>
        challengeValues == LoadPrefix(old(challengeValues), csv.value, ParsedPrefix(csv.value))
        && hasPreviousData == (old(hasPreviousData) || ParsedPrefix(csv.value) == |csv.value|)
    {
      if csv.None? {
        return;
      }
      var rows := csv.value;
      var n := ParsedPrefix(rows);
      var values := challengeValues;
      var i := 0;
      while i < |rows| && rows[i].value.Some?
        invariant 0 <= i <= n
        invariant values == LoadPrefix(old(challengeValues), rows, i)
      {
        values := values[rows[i].code := Trunc(rows[i].value.value)];
        i := i + 1;
      }
      challengeValues := values;
      if i == |rows| {
        hasPreviousData := true;
      }
    }

    /** `_save`: the rows written, built by a loop over the challenges in order. */
    method Save() returns (rows: seq<(string, int)>)
      ensures rows == SaveRows(codes, challengeValues)
    {
      rows := [];
      for i := 0 to |codes|
        invariant rows == SaveRows(codes[..i], challengeValues)
      {
        assert codes[..i + 1] == codes[..i] + [codes[i]];
        rows := rows + [(codes[i], Get(challengeValues, codes[i]))];
      }
      assert codes[..|codes|] == codes;
    }
  }
}
