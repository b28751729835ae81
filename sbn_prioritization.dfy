/**
 * Priority scoring of the 21 nature-based solutions (SbN).
 *
 * A user evaluation (barrier values, water-security or other-challenge
 * importances) is multiplied into a weight matrix, the three score columns
 * of SbN_Weights.csv are normalised by their maxima into
 * SbN_Prioritization.csv, and the priority column ranks the SbN.
 */
module SbnPrioritization {
  import opened Wrappers
  import opened Sorting

  // ---------------------------------------------------------------------
  // Evaluations and the weight matrix
  // ---------------------------------------------------------------------

  /**
   * One row of an evaluation file. In the barrier format (4 columns) the
   * row also carries its group code and the group's enabled flag; the
   * 2-column format only uses `code` and `value`.
   */
  datatype EvalRow = EvalRow(code: string, value: real, groupCode: string, groupEnabled: real)

  datatype Evaluation = Evaluation(columnCount: nat, rows: seq<EvalRow>)

  /** Weight matrix: columns ID, SbN name, then one weight column per code. */
  datatype WeightRow = WeightRow(id: int, weights: seq<real>)
  datatype WeightMatrix = WeightMatrix(codes: seq<string>, rows: seq<WeightRow>)

  /** A table read by pandas is rectangular. */
  predicate Rectangular(m: WeightMatrix)
  {
    forall i :: 0 <= i < |m.rows| ==> |m.rows[i].weights| == |m.codes|
  }

  predicate KnownShape(e: Evaluation)
  {
    e.columnCount == 2 || e.columnCount == 4
  }

  /** The value an evaluation row contributes: barrier values are masked by their group flag. */
  function Filtered(e: Evaluation, row: EvalRow): real
  {
    if e.columnCount == 4 then row.value * row.groupEnabled else row.value
  }

  /** `dict(zip(codes, values))` over the first `n` rows: a later row overwrites an earlier one. */
  function ValuesUpTo(e: Evaluation, n: nat): (d: map<string, real>)
    requires n <= |e.rows|
    ensures d.Keys == set i | 0 <= i < n :: e.rows[i].code
  {
    if n == 0 then map[]
    else ValuesUpTo(e, n - 1)[e.rows[n - 1].code := Filtered(e, e.rows[n - 1])]
  }

  /** A code's value is the filtered value of the last row with that code. */
  lemma {:induction false} LastRowWins(e: Evaluation, n: nat, i: nat)
    requires i < n <= |e.rows|
    requires forall j :: i < j < n ==> e.rows[j].code != e.rows[i].code
    ensures ValuesUpTo(e, n)[e.rows[i].code] == Filtered(e, e.rows[i])
  {
    if i < n - 1 {
      LastRowWins(e, n - 1, i);
    }
  }

  function Values(e: Evaluation): map<string, real>
  {
    ValuesUpTo(e, |e.rows|)
  }

  /** `values_dict.get(code, 0)` for every weight column, in column order. */
  function ValueVector(codes: seq<string>, d: map<string, real>): (v: seq<real>)
    ensures |v| == |codes|
    ensures forall j :: 0 <= j < |codes| ==> v[j] == (if codes[j] in d then d[codes[j]] else 0.0)
  {
    seq(|codes|, j requires 0 <= j < |codes| => if codes[j] in d then d[codes[j]] else 0.0)
  }

  function Dot(w: seq<real>, v: seq<real>): real
    requires |w| == |v|
  {
    if w == [] then 0.0 else Dot(w[..|w| - 1], v[..|v| - 1]) + w[|w| - 1] * v[|v| - 1]
  }

  /** The score of one SbN row: its weights against the evaluation's value vector. */
  function RowScore(w: seq<real>, codes: seq<string>, d: map<string, real>): real
    requires |w| == |codes|
  {
    Dot(w, ValueVector(codes, d))
  }

  function RowIds(rows: seq<WeightRow>): set<int>
  {
    set i | 0 <= i < |rows| :: rows[i].id
  }

  /** Row `i` is the last row carrying its ID, so its score is the one kept in the result. */
  predicate LastWithId(rows: seq<WeightRow>, i: int)
    requires 0 <= i < |rows|
  {
    forall j :: i < j < |rows| ==> rows[j].id != rows[i].id
  }

  /**
   * `_calculate_scores`: an evaluation of neither 2 nor 4 columns gives the
   * empty result; otherwise every row of the weight matrix gets its
   * weighted sum, keyed by its ID.
   */
  method CalculateScores(e: Evaluation, m: WeightMatrix) returns (r: map<int, real>)
    requires Rectangular(m)
    ensures !KnownShape(e) ==> r == map[]
    ensures r == Scores(e, m)
    ensures KnownShape(e) ==> r.Keys == RowIds(m.rows)
    ensures KnownShape(e) ==> forall i :: 0 <= i < |m.rows| && LastWithId(m.rows, i) ==>
              r[m.rows[i].id] == RowScore(m.rows[i].weights, m.codes, Values(e))
  {
    if !KnownShape(e) {
      return map[];
    }
    r := ScoreRows(m, Values(e));
  }

  /** The loop of `_calculate_scores`: each row's weighted sum, a later row overwriting an earlier ID. */
  method ScoreRows(m: WeightMatrix, d: map<string, real>) returns (r: map<int, real>)
    requires Rectangular(m)
    ensures r == ScoresUpTo(m, d, |m.rows|)
  {
    r := map[];
    var idx := 0;
    while idx < |m.rows|
      invariant 0 <= idx <= |m.rows|
      invariant r == ScoresUpTo(m, d, idx)
    {
      r := r[m.rows[idx].id := RowScore(m.rows[idx].weights, m.codes, d)];
      idx := idx + 1;
    }
  }

  /** The scores as a value, for the file-level pipeline below. */
  function Scores(e: Evaluation, m: WeightMatrix): (r: map<int, real>)
    requires Rectangular(m)
    ensures !KnownShape(e) ==> r == map[]
    ensures KnownShape(e) ==> r.Keys == RowIds(m.rows)
    ensures KnownShape(e) ==> forall i :: 0 <= i < |m.rows| && LastWithId(m.rows, i) ==>
              r[m.rows[i].id] == RowScore(m.rows[i].weights, m.codes, Values(e))
  {
    if !KnownShape(e) then map[]
    else
      var d := Values(e);
      LastScoresKept(m, d);
      ScoresUpTo(m, d, |m.rows|)
  }

  function ScoresUpTo(m: WeightMatrix, d: map<string, real>, n: nat): (r: map<int, real>)
    requires Rectangular(m) && n <= |m.rows|
    ensures r.Keys == set i | 0 <= i < n :: m.rows[i].id
  {
    if n == 0 then map[]
    else ScoresUpTo(m, d, n - 1)[m.rows[n - 1].id := RowScore(m.rows[n - 1].weights, m.codes, d)]
  }

  /** The score a row writes survives every later row with a different ID. */
  lemma {:induction false} LastScoreKept(m: WeightMatrix, d: map<string, real>, n: nat, i: nat)
    requires Rectangular(m) && i < n <= |m.rows|
    requires forall j :: i < j < n ==> m.rows[j].id != m.rows[i].id
    ensures ScoresUpTo(m, d, n)[m.rows[i].id] == RowScore(m.rows[i].weights, m.codes, d)
  {
    if i < n - 1 {
      LastScoreKept(m, d, n - 1, i);
    }
  }

  /** Every row that is the last with its ID keeps its own score. */
  lemma LastScoresKept(m: WeightMatrix, d: map<string, real>)
    requires Rectangular(m)
    ensures forall i :: 0 <= i < |m.rows| && LastWithId(m.rows, i) ==>
              ScoresUpTo(m, d, |m.rows|)[m.rows[i].id] == RowScore(m.rows[i].weights, m.codes, d)
  {
    forall i | 0 <= i < |m.rows| && LastWithId(m.rows, i)
      ensures ScoresUpTo(m, d, |m.rows|)[m.rows[i].id] == RowScore(m.rows[i].weights, m.codes, d)
    {
      LastScoreKept(m, d, |m.rows|, i);
    }
  }

  // ---------------------------------------------------------------------
  // Properties of the scores
  // ---------------------------------------------------------------------

  /** Two evaluations that differ only in values of rows whose group is disabled. */
  predicate SameUpToDisabled(e1: Evaluation, e2: Evaluation)
  {
    && e1.columnCount == 4 && e2.columnCount == 4
    && |e1.rows| == |e2.rows|
    && forall i :: 0 <= i < |e1.rows| ==>
         && e1.rows[i].code == e2.rows[i].code
         && e1.rows[i].groupEnabled == e2.rows[i].groupEnabled
         && (e1.rows[i].groupEnabled != 0.0 ==> e1.rows[i].value == e2.rows[i].value)
  }

  lemma {:induction false} DisabledValuesUpTo(e1: Evaluation, e2: Evaluation, n: nat)
    requires SameUpToDisabled(e1, e2) && n <= |e1.rows|
    ensures ValuesUpTo(e1, n) == ValuesUpTo(e2, n)
  {
    if n > 0 {
      DisabledValuesUpTo(e1, e2, n - 1);
      SameFilteredRow(e1, e2, n - 1);
    }
  }

  /** Row `i` of two such evaluations has the same code and the same filtered value. */
  lemma SameFilteredRow(e1: Evaluation, e2: Evaluation, i: nat)
    requires SameUpToDisabled(e1, e2) && i < |e1.rows|
    ensures e1.rows[i].code == e2.rows[i].code
    ensures Filtered(e1, e1.rows[i]) == Filtered(e2, e2.rows[i])
  {
  }

  /**
   * The values a user enters for barriers of a disabled group (flag 0) are
   * multiplied by 0, so they change no score.
   */
  lemma DisabledGroupsDoNotScore(e1: Evaluation, e2: Evaluation, m: WeightMatrix)
    requires Rectangular(m) && SameUpToDisabled(e1, e2)
    ensures Scores(e1, m) == Scores(e2, m)
  {
    DisabledValuesUpTo(e1, e2, |e1.rows|);
  }

  lemma {:induction false} DotIgnoresZero(w: seq<real>, w2: seq<real>, v: seq<real>, j: nat)
    requires |w| == |v| == |w2| && j < |v| && v[j] == 0.0
    requires forall k :: 0 <= k < |w| && k != j ==> w2[k] == w[k]
    ensures Dot(w, v) == Dot(w2, v)
  {
    if |w| > 0 && j < |w| - 1 {
      DotIgnoresZero(w[..|w| - 1], w2[..|w2| - 1], v[..|v| - 1], j);
    } else if |w| > 0 {
      assert w[..|w| - 1] == w2[..|w2| - 1];
    }
  }

  /**
   * A weight column whose code does not occur in the evaluation counts as
   * value 0: its weight can be anything without changing the score.
   */
  lemma AbsentCodeIgnored(w: seq<real>, w2: seq<real>, codes: seq<string>, d: map<string, real>, j: nat)
    requires |w| == |codes| == |w2| && j < |codes| && codes[j] !in d
    requires forall k :: 0 <= k < |w| && k != j ==> w2[k] == w[k]
    ensures RowScore(w, codes, d) == RowScore(w2, codes, d)
  {
    DotIgnoresZero(w, w2, ValueVector(codes, d), j);
  }

  // ---------------------------------------------------------------------
  // Score files of a project
  // ---------------------------------------------------------------------

  datatype ScoreColumn = Barriers | WS | Other

  /** A row of SbN_Weights.csv: the raw score of each column. */
  datatype WeightsRow = WeightsRow(id: int, barriers: real, ws: real, other: real)
  {
    function Get(c: ScoreColumn): real
    {
      match c
      case Barriers => barriers
      case WS => ws
      case Other => other
    }

    function With(c: ScoreColumn, v: real): (r: WeightsRow)
      ensures r.id == id && r.Get(c) == v
      ensures forall c2 :: c2 != c ==> r.Get(c2) == Get(c2)
    {
      match c
      case Barriers => this.(barriers := v)
      case WS => this.(ws := v)
      case Other => this.(other := v)
    }
  }

  /** A row of SbN_Prioritization.csv. */
  datatype PriorRow = PriorRow(id: int, barriers: real, ws: real, other: real, idoneidad: real, prioridad: real)

  function ColumnMaxUpTo(w: seq<WeightsRow>, c: ScoreColumn, n: nat): (mx: real)
    requires 0 < n <= |w|
    ensures forall i :: 0 <= i < n ==> w[i].Get(c) <= mx
    ensures exists i :: 0 <= i < n && w[i].Get(c) == mx
  {
    if n == 1 then w[0].Get(c)
    else
      var m := ColumnMaxUpTo(w, c, n - 1);
      if w[n - 1].Get(c) > m then w[n - 1].Get(c) else m
  }

  /** `df[col].max() > 0`; an empty column has NaN as its maximum, which is not positive. */
  predicate HasPositiveMax(w: seq<WeightsRow>, c: ScoreColumn)
  {
    |w| > 0 && ColumnMaxUpTo(w, c, |w|) > 0.0
  }

  /** The normalised column: value / max when the max is positive, otherwise all 0. */
  function NormalizedColumn(w: seq<WeightsRow>, c: ScoreColumn): (col: seq<real>)
    ensures |col| == |w|
  {
    if HasPositiveMax(w, c) then
      var mx := ColumnMaxUpTo(w, c, |w|);
      seq(|w|, i requires 0 <= i < |w| => w[i].Get(c) / mx)
    else seq(|w|, i => 0.0)
  }

  /**
   * With a positive maximum every value is at most 1, the maximum becomes
   * exactly 1 and non-negative raw scores stay non-negative; otherwise the
   * whole column is 0.
   */
  lemma NormalizedColumnRange(w: seq<WeightsRow>, c: ScoreColumn)
    ensures var col := NormalizedColumn(w, c);
      && (HasPositiveMax(w, c) ==> forall i :: 0 <= i < |w| ==> col[i] <= 1.0)
      && (HasPositiveMax(w, c) ==> exists i :: 0 <= i < |w| && col[i] == 1.0)
      && (HasPositiveMax(w, c) ==> forall i :: 0 <= i < |w| && w[i].Get(c) >= 0.0 ==> col[i] >= 0.0)
      && (!HasPositiveMax(w, c) ==> forall i :: 0 <= i < |w| ==> col[i] == 0.0)
  {
    var col := NormalizedColumn(w, c);
    forall i | 0 <= i < |w|
      ensures HasPositiveMax(w, c) ==> col[i] <= 1.0 && (w[i].Get(c) >= 0.0 ==> col[i] >= 0.0)
      ensures !HasPositiveMax(w, c) ==> col[i] == 0.0
    {
      NormalizedCell(w, c, i);
    }
    if HasPositiveMax(w, c) {
      var mx := ColumnMaxUpTo(w, c, |w|);
      var k :| 0 <= k < |w| && w[k].Get(c) == mx;
      NormalizedCell(w, c, k);
    }
  }

  /** One cell of the normalised column. */
  lemma NormalizedCell(w: seq<WeightsRow>, c: ScoreColumn, i: nat)
    requires i < |w|
    ensures HasPositiveMax(w, c) ==> NormalizedColumn(w, c)[i] == w[i].Get(c) / ColumnMaxUpTo(w, c, |w|)
    ensures HasPositiveMax(w, c) ==> NormalizedColumn(w, c)[i] <= 1.0
    ensures HasPositiveMax(w, c) && w[i].Get(c) >= 0.0 ==> NormalizedColumn(w, c)[i] >= 0.0
    ensures HasPositiveMax(w, c) && w[i].Get(c) == ColumnMaxUpTo(w, c, |w|) ==> NormalizedColumn(w, c)[i] == 1.0
    ensures !HasPositiveMax(w, c) ==> NormalizedColumn(w, c)[i] == 0.0
  {
    if HasPositiveMax(w, c) {
      var mx := ColumnMaxUpTo(w, c, |w|);
      DivAtMostOne(w[i].Get(c), mx);
      DivNonNegative(w[i].Get(c), mx);
    }
  }

  lemma DivAtMostOne(x: real, mx: real)
    requires mx > 0.0 && x <= mx
    ensures x / mx <= 1.0
    ensures x == mx ==> x / mx == 1.0
  {
  }

  lemma DivNonNegative(x: real, mx: real)
    requires mx > 0.0
    ensures x >= 0.0 ==> x / mx >= 0.0
  {
  }

  /** Prioridad = (Barriers + WS + Other) × Idoneidad. */
  function Priority(r: PriorRow): (p: real)
    ensures r.idoneidad == 0.0 ==> p == 0.0
    ensures r.idoneidad == 1.0 ==> p == r.barriers + r.ws + r.other
  {
    (r.barriers + r.ws + r.other) * r.idoneidad
  }

  /** SbN_Weights.csv after writing `scores` into column `c` (rows whose ID has a score). */
  function WithScores(w: seq<WeightsRow>, c: ScoreColumn, scores: map<int, real>): (r: seq<WeightsRow>)
    ensures |r| == |w|
    ensures forall i :: 0 <= i < |w| && w[i].id in scores ==> r[i] == w[i].With(c, scores[w[i].id])
    ensures forall i :: 0 <= i < |w| && w[i].id !in scores ==> r[i] == w[i]
  {
    seq(|w|, i requires 0 <= i < |w| => if w[i].id in scores then w[i].With(c, scores[w[i].id]) else w[i])
  }

  /** One row of SbN_Prioritization.csv with new normalised scores and its priority recomputed. */
  function Rescored(p: PriorRow, b: real, s: real, o: real): (r: PriorRow)
    ensures r.id == p.id && r.idoneidad == p.idoneidad
    ensures r.barriers == b && r.ws == s && r.other == o
    ensures r.prioridad == (b + s + o) * p.idoneidad
  {
    var q := p.(barriers := b, ws := s, other := o);
    q.(prioridad := Priority(q))
  }

  /** SbN_Prioritization.csv recomputed from SbN_Weights.csv, row by row. */
  function Normalized(w: seq<WeightsRow>, p: seq<PriorRow>): (r: seq<PriorRow>)
    requires |w| == |p|
    ensures |r| == |p|
  {
    var b, s, o := NormalizedColumn(w, Barriers), NormalizedColumn(w, WS), NormalizedColumn(w, Other);
    seq(|p|, i requires 0 <= i < |p| => Rescored(p[i], b[i], s[i], o[i]))
  }

  /**
   * Every SbN_Prioritization row keeps its ID and Idoneidad, takes the
   * normalised scores, and gets Prioridad = (Barriers + WS + Other) × Idoneidad;
   * an unsuitable SbN (Idoneidad 0) gets priority 0.
   */
  lemma NormalizedRows(w: seq<WeightsRow>, p: seq<PriorRow>, i: nat)
    requires |w| == |p| && i < |p|
    ensures var r := Normalized(w, p)[i];
      && r.id == p[i].id && r.idoneidad == p[i].idoneidad
      && r.barriers == NormalizedColumn(w, Barriers)[i]
      && r.ws == NormalizedColumn(w, WS)[i]
      && r.other == NormalizedColumn(w, Other)[i]
      && r.prioridad == Priority(r)
      && (p[i].idoneidad == 0.0 ==> r.prioridad == 0.0)
  {
    var b, s, o := NormalizedColumn(w, Barriers), NormalizedColumn(w, WS), NormalizedColumn(w, Other);
    var r := Rescored(p[i], b[i], s[i], o[i]);
    assert Normalized(w, p)[i] == r;
    assert r.prioridad == Priority(r);
  }

  /** The two score files of a project folder. */
  class ProjectScores {
    var weights: seq<WeightsRow>
    var prior: seq<PriorRow>

    /** Both files come from 21-row templates and stay row-aligned. */
    predicate Valid() reads this { |weights| == |prior| }

    constructor (w: seq<WeightsRow>, p: seq<PriorRow>)
      requires |w| == |p|
      ensures Valid() && weights == w && prior == p
    {
      weights, prior := w, p;
    }

    /** `_normalize_and_save_prioritization`. */
    method NormalizeAndSave()
      requires Valid()
      modifies this
      ensures Valid() && weights == old(weights)
      ensures prior == Normalized(weights, old(prior))
    {
      var b := NormalizedColumn(weights, Barriers);
      var s := NormalizedColumn(weights, WS);
      var o := NormalizedColumn(weights, Other);
      var p := prior;
      var i := 0;
      while i < |p|
        invariant 0 <= i <= |p| == |weights| == |old(prior)|
        invariant forall k :: 0 <= k < i ==> p[k] == Rescored(old(prior)[k], b[k], s[k], o[k])
        invariant forall k :: i <= k < |p| ==> p[k] == old(prior)[k]
      {
        p := p[i := Rescored(p[i], b[i], s[i], o[i])];
        i := i + 1;
      }
      prior := p;
    }

    /** `update_sbn_prioritization`: raw scores into one column, then renormalise. */
    method UpdateColumn(c: ScoreColumn, scores: map<int, real>)
      requires Valid()
      modifies this
      ensures Valid()
      ensures weights == WithScores(old(weights), c, scores)
      ensures prior == Normalized(weights, old(prior))
    {
      // Each entry of `scores` masks the rows with its ID; since the keys
      // are distinct, this is one pass over the rows.
      var w := weights;
      var k := 0;
      while k < |w|
        invariant 0 <= k <= |w| == |old(weights)|
        invariant forall i :: 0 <= i < k ==> w[i] == WithScores(old(weights), c, scores)[i]
        invariant forall i :: k <= i < |w| ==> w[i] == old(weights)[i]
      {
        if w[k].id in scores {
          w := w[k := w[k].With(c, scores[w[k].id])];
        }
        k := k + 1;
      }
      weights := w;
      assert weights == WithScores(old(weights), c, scores);
      NormalizeAndSave();
    }

    /** `update_barriers`/`update_water_security`/`update_other_challenges`: an empty result leaves both files untouched. */
    method UpdateIfScored(c: ScoreColumn, scores: map<int, real>)
      requires Valid()
      modifies this
      ensures Valid()
      ensures scores == map[] ==> weights == old(weights) && prior == old(prior)
      ensures scores != map[] ==> weights == WithScores(old(weights), c, scores)
                                  && prior == Normalized(weights, old(prior))
    {
      if scores != map[] {
        UpdateColumn(c, scores);
      }
    }
  }

  // ---------------------------------------------------------------------
  // Choosing the evaluation and the weights for each column
  // ---------------------------------------------------------------------

  /**
   * What the project folder holds for one challenge family: the user's
   * evaluation (DF_WS.csv / D_O.csv), the cost-adjusted matrix under Tmp/,
   * and the matrix sheet of Weight_Matrix.xlsx.
   */
  datatype ChallengeFiles = ChallengeFiles(
    evaluation: Option<Evaluation>,
    adjusted: Option<WeightMatrix>,
    sheet: WeightMatrix)

  predicate FilesRectangular(f: ChallengeFiles)
  {
    Rectangular(f.sheet) && (f.adjusted.Some? ==> Rectangular(f.adjusted.value))
  }

  /** A weight matrix read back as if it were an evaluation: 2 + one column per code. */
  function AsEvaluation(m: WeightMatrix): Evaluation
  {
    Evaluation(2 + |m.codes|, [])
  }

  /**
   * `calculate_water_security_scores` / `calculate_other_challenges_scores`
   * as written: when the adjusted matrix exists it is read as the evaluation
   * AND as the weights.
   */
  function ChallengeScoresAsWritten(f: ChallengeFiles): map<int, real>
    requires FilesRectangular(f)
  {
    if f.adjusted.Some? then Scores(AsEvaluation(f.adjusted.value), f.adjusted.value)
    else if f.evaluation.Some? then Scores(f.evaluation.value, f.sheet)
    else map[]
  }

  /**
   * With the adjusted matrix of the water-security family (ID, SbN and
   * WS01..WS04) or of the other-challenge family, the evaluation has more
   * than 4 columns and the scores are always empty, whatever the user entered.
   */
  lemma AdjustedMatrixGivesNoScores(f: ChallengeFiles)
    requires FilesRectangular(f) && f.adjusted.Some? && |f.adjusted.value.codes| >= 3
    ensures ChallengeScoresAsWritten(f) == map[]
  {
  }

  /** The intended rule: the user's evaluation against the adjusted matrix when there is one. */
  function ChallengeScores(f: ChallengeFiles): (r: map<int, real>)
    requires FilesRectangular(f)
    ensures f.evaluation.None? ==> r == map[]
    ensures f.evaluation.Some? && KnownShape(f.evaluation.value) && f.adjusted.Some? ==>
              r.Keys == RowIds(f.adjusted.value.rows)
    ensures f.evaluation.Some? && KnownShape(f.evaluation.value) && f.adjusted.None? ==>
              r.Keys == RowIds(f.sheet.rows)
  {
    if f.evaluation.None? then map[]
    else if f.adjusted.Some? then Scores(f.evaluation.value, f.adjusted.value)
    else Scores(f.evaluation.value, f.sheet)
  }

  /** With a 2-column evaluation and a non-empty adjusted matrix, the corrected rule does score. */
  lemma AdjustedMatrixScoresEvaluation(f: ChallengeFiles)
    requires FilesRectangular(f) && f.evaluation.Some? && f.evaluation.value.columnCount == 2
    requires f.adjusted.Some? && |f.adjusted.value.rows| > 0
    ensures ChallengeScores(f) != map[]
    ensures f.adjusted.value.rows[0].id in ChallengeScores(f)
  {
    var rows := f.adjusted.value.rows;
    assert rows[0].id in RowIds(rows);
  }

  // ---------------------------------------------------------------------
  // Ranking
  // ---------------------------------------------------------------------

  datatype PriorityEntry = PriorityEntry(id: int, value: real, rank: Option<nat>, enabled: bool)

  /** (ID, Prioridad) of the rows with positive priority, in file order. */
  function Positives(rows: seq<PriorRow>): seq<(int, real)>
  {
    if rows == [] then []
    else if rows[0].prioridad > 0.0 then [(rows[0].id, rows[0].prioridad)] + Positives(rows[1..])
    else Positives(rows[1..])
  }

  /** IDs of the rows whose priority is exactly 0, in file order. */
  function Zeros(rows: seq<PriorRow>): seq<int>
  {
    if rows == [] then []
    else if rows[0].prioridad == 0.0 then [rows[0].id] + Zeros(rows[1..])
    else Zeros(rows[1..])
  }

  /** Positives keeps exactly the rows with positive priority. */
  lemma {:induction false} PositivesExactly(rows: seq<PriorRow>, p: (int, real))
    ensures p in Positives(rows) <==> exists i :: 0 <= i < |rows| && rows[i].prioridad > 0.0 && p == (rows[i].id, rows[i].prioridad)
  {
    if rows != [] {
      PositivesExactly(rows[1..], p);
      if exists i :: 0 <= i < |rows| && rows[i].prioridad > 0.0 && p == (rows[i].id, rows[i].prioridad) {
        var i :| 0 <= i < |rows| && rows[i].prioridad > 0.0 && p == (rows[i].id, rows[i].prioridad);
        if i > 0 { assert rows[1..][i - 1] == rows[i]; }
      }
      if p in Positives(rows[1..]) {
        var i :| 0 <= i < |rows[1..]| && rows[1..][i].prioridad > 0.0 && p == (rows[1..][i].id, rows[1..][i].prioridad);
        assert rows[i + 1] == rows[1..][i];
      }
    }
  }

  /** Zeros keeps exactly the IDs of rows with priority 0. */
  lemma {:induction false} ZerosExactly(rows: seq<PriorRow>, id: int)
    ensures id in Zeros(rows) <==> exists i :: 0 <= i < |rows| && rows[i].prioridad == 0.0 && rows[i].id == id
  {
    if rows != [] {
      ZerosExactly(rows[1..], id);
      if exists i :: 0 <= i < |rows| && rows[i].prioridad == 0.0 && rows[i].id == id {
        var i :| 0 <= i < |rows| && rows[i].prioridad == 0.0 && rows[i].id == id;
        if i > 0 { assert rows[1..][i - 1] == rows[i]; }
      }
      if id in Zeros(rows[1..]) {
        var i :| 0 <= i < |rows[1..]| && rows[1..][i].prioridad == 0.0 && rows[1..][i].id == id;
        assert rows[i + 1] == rows[1..][i];
      }
    }
  }

  /** `sort_values('Prioridad', ascending=False)`. */
  function ByPriorityDesc(a: (int, real), b: (int, real)): bool { a.1 >= b.1 }

  /** The final order key `(rank is None, rank or 0)`. */
  function RankKeyLe(a: PriorityEntry, b: PriorityEntry): bool
  {
    match (a.rank, b.rank)
    case (Some(x), Some(y)) => x <= y
    case (Some(_), None) => true
    case (None, Some(_)) => false
    case (None, None) => true
  }

  function IdValues(es: seq<PriorityEntry>): (r: seq<(int, real)>)
    ensures |r| == |es| && forall k :: 0 <= k < |es| ==> r[k] == (es[k].id, es[k].value)
  {
    seq(|es|, k requires 0 <= k < |es| => (es[k].id, es[k].value))
  }

  function RankedEntry(p: (int, real), k: nat): PriorityEntry
  {
    PriorityEntry(p.0, p.1, Some(k + 1), true)
  }

  function DisabledEntry(id: int): PriorityEntry
  {
    PriorityEntry(id, 0.0, None, false)
  }

  function RankedEntries(sorted: seq<(int, real)>): (r: seq<PriorityEntry>)
    ensures |r| == |sorted|
    ensures forall k :: 0 <= k < |r| ==> r[k] == RankedEntry(sorted[k], k)
  {
    seq(|sorted|, k requires 0 <= k < |sorted| => RankedEntry(sorted[k], k))
  }

  function DisabledEntries(zeros: seq<int>): (r: seq<PriorityEntry>)
    ensures |r| == |zeros|
    ensures forall k :: 0 <= k < |r| ==> r[k] == DisabledEntry(zeros[k])
  {
    seq(|zeros|, k requires 0 <= k < |zeros| => DisabledEntry(zeros[k]))
  }

  /** The ranked entries and the disabled entries, as the method below builds them. */
  ghost function PriorityTable(rows: seq<PriorRow>): seq<PriorityEntry>
  {
    RankedEntries(SortBy(Positives(rows), ByPriorityDesc)) + DisabledEntries(Zeros(rows))
  }

  lemma RankedThenDisabledOrdered(sorted: seq<(int, real)>, zeros: seq<int>)
    ensures SortedBy(RankedEntries(sorted) + DisabledEntries(zeros), RankKeyLe)
  {
    var a, b := RankedEntries(sorted), DisabledEntries(zeros);
    var out := a + b;
    forall i, j | 0 <= i < j < |out| ensures RankKeyLe(out[i], out[j]) {
      if j < |a| {
        assert out[i] == a[i] && out[j] == a[j];
      } else if i >= |a| {
        assert out[i] == b[i - |a|] && out[j] == b[j - |a|];
      } else {
        assert out[i] == a[i] && out[j] == b[j - |a|];
      }
    }
  }

  lemma PositivesArePositive(rows: seq<PriorRow>, sorted: seq<(int, real)>)
    requires sorted == SortBy(Positives(rows), ByPriorityDesc)
    ensures forall k :: 0 <= k < |sorted| ==> sorted[k].1 > 0.0
  {
    forall k | 0 <= k < |sorted| ensures sorted[k].1 > 0.0 {
      assert sorted[k] in multiset(Positives(rows));
      PositivesExactly(rows, sorted[k]);
    }
  }

  /** The ranked part: ranks 1..k, enabled, positive, descending, carrying exactly the sorted pairs. */
  lemma RankedRules(sorted: seq<(int, real)>)
    requires SortedBy(sorted, ByPriorityDesc)
    requires forall k :: 0 <= k < |sorted| ==> sorted[k].1 > 0.0
    ensures var a := RankedEntries(sorted);
      && (forall k :: 0 <= k < |a| ==> a[k].rank == Some(k + 1) && a[k].enabled && a[k].value > 0.0)
      && (forall i, j :: 0 <= i < j < |a| ==> a[i].value >= a[j].value)
      && IdValues(a) == sorted
  {
    var a := RankedEntries(sorted);
    forall i, j | 0 <= i < j < |a| ensures a[i].value >= a[j].value {
      assert ByPriorityDesc(sorted[i], sorted[j]);
    }
  }

  /** The first `n` entries are ranked 1..n, enabled, positive and in descending priority. */
  predicate RankedPrefix(out: seq<PriorityEntry>, n: nat)
    requires n <= |out|
  {
    && (forall k :: 0 <= k < n ==> out[k].rank == Some(k + 1) && out[k].enabled && out[k].value > 0.0)
    && (forall i, j :: 0 <= i < j < n ==> out[i].value >= out[j].value)
  }

  /** The entries after the first `n` are the zero-priority IDs, disabled, in file order. */
  predicate DisabledTail(out: seq<PriorityEntry>, n: nat, zeros: seq<int>)
    requires n <= |out|
  {
    |out| == n + |zeros| && forall k :: n <= k < |out| ==> out[k] == DisabledEntry(zeros[k - n])
  }

  lemma TableParts(sorted: seq<(int, real)>, zeros: seq<int>)
    requires SortedBy(sorted, ByPriorityDesc)
    requires forall k :: 0 <= k < |sorted| ==> sorted[k].1 > 0.0
    ensures var out := RankedEntries(sorted) + DisabledEntries(zeros);
      && RankedPrefix(out, |sorted|)
      && DisabledTail(out, |sorted|, zeros)
      && IdValues(out[..|sorted|]) == sorted
  {
    var a, b := RankedEntries(sorted), DisabledEntries(zeros);
    RankedRules(sorted);
    assert (a + b)[..|a|] == a;
    assert forall k :: 0 <= k < |a| ==> (a + b)[k] == a[k];
  }

  /**
   * The ranking rules: ranks 1..k in descending priority for the positive
   * rows (a permutation of them), then the zero rows, disabled and
   * unranked, in file order; the whole table is ordered by the rank key.
   */
  lemma PriorityTableRules(rows: seq<PriorRow>)
    ensures var out := PriorityTable(rows); var n := |Positives(rows)|;
      && n <= |out|
      && RankedPrefix(out, n)
      && multiset(IdValues(out[..n])) == multiset(Positives(rows))
      && DisabledTail(out, n, Zeros(rows))
      && SortedBy(out, RankKeyLe)
  {
    var sorted := SortBy(Positives(rows), ByPriorityDesc);
    SortBySorted(Positives(rows), ByPriorityDesc);
    PositivesArePositive(rows, sorted);
    TableParts(sorted, Zeros(rows));
    RankedThenDisabledOrdered(sorted, Zeros(rows));
  }

  /**
   * `get_sbn_priorities`: the SbN with positive priority come first with
   * ranks 1..k in descending priority and are enabled; then the SbN with
   * priority 0, disabled and unranked; negative rows are left out.
   */
  method GetSbnPriorities(rows: seq<PriorRow>) returns (out: seq<PriorityEntry>)
    ensures out == PriorityTable(rows)
  {
    var sorted := SortBy(Positives(rows), ByPriorityDesc);
    var ranked := AppendRanked(sorted);
    out := AppendDisabled(ranked, Zeros(rows));
  }

  /** The first loop: rank `k + 1` for the `k`-th positive score, highest first. */
  method AppendRanked(sorted: seq<(int, real)>) returns (out: seq<PriorityEntry>)
    ensures out == RankedEntries(sorted)
  {
    out := [];
    var rank := 1;
    while rank <= |sorted|
      invariant 1 <= rank <= |sorted| + 1
      invariant out == RankedEntries(sorted[..rank - 1])
    {
      RankedEntriesSnoc(sorted, rank - 1);
      out := out + [RankedEntry(sorted[rank - 1], rank - 1)];
      rank := rank + 1;
    }
    assert sorted[..|sorted|] == sorted;
  }

  /** The second loop: every disabled SbN after the ranked ones, without a rank. */
  method AppendDisabled(ranked: seq<PriorityEntry>, zeros: seq<int>) returns (out: seq<PriorityEntry>)
    ensures out == ranked + DisabledEntries(zeros)
  {
    out := ranked;
    var z := 0;
    while z < |zeros|
      invariant 0 <= z <= |zeros|
      invariant out == ranked + DisabledEntries(zeros[..z])
    {
      DisabledEntriesSnoc(zeros, z);
      out := out + [DisabledEntry(zeros[z])];
      z := z + 1;
    }
    assert zeros[..|zeros|] == zeros;
  }

  lemma RankedEntriesSnoc(sorted: seq<(int, real)>, k: nat)
    requires k < |sorted|
    ensures RankedEntries(sorted[..k + 1]) == RankedEntries(sorted[..k]) + [RankedEntry(sorted[k], k)]
  {
  }

  lemma DisabledEntriesSnoc(zeros: seq<int>, z: nat)
    requires z < |zeros|
    ensures DisabledEntries(zeros[..z + 1]) == DisabledEntries(zeros[..z]) + [DisabledEntry(zeros[z])]
  {
  }
}
