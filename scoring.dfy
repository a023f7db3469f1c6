/**
 * Scoring: dispatch on the name type to one scorer, and the personal-name
 * scorer's weighted average over a fixed table of factors.
 */
module Scoring {
  import opened Wrappers
  import opened AuthorityNames
  import opened Categorization

  /** A factor's exponent: `Linear` is Ruby's integer `1`, `ThreeHalves` the float `1.5`. */
  datatype Severity = Linear | ThreeHalves

  /** `base ** severity`: a float to the integer power 1 is itself; `** 1.5` is the collaborator's. */
  function Raise(pow15: real -> real, base: real, severity: Severity): real
  {
    match severity
    case Linear => base
    case ThreeHalves => pow15(base)
  }

  /** One row of the personal scorer's `factors` table. */
  datatype Row = Row(factorName: string, baseScore: real, severity: Severity, weight: nat)

  /** One entry of an explanation: how a factor's contribution was derived. */
  datatype Factor = Factor(baseScore: real, severity: Severity, weight: nat, score: real)

  /** The explanation hash, keyed by factor name. */
  type Explanation = map<string, Factor>

  /** What a scorer hands back: the score and, for personal names only, the explanation. */
  datatype Scored = Scored(score: Option<real>, explanation: Option<Explanation>)

  /**
   * `NoScorer`: there is no `<type>_score` method for the type.
   * `NilScore`: a missing score was negated while ranking.
   */
  datatype Error = NoScorer(nameType: NameType) | NilScore

  const SurnameLevenshtein: string := "surname levenshtein"
  const ForenameLevenshtein: string := "forename levenshtein"
  const ForenameTokens: string := "forename tokens"
  const Supplemental: string := "supplemental"

  /** The supplemental base score: a NaN trigram counts as 0.0. */
  function SupplementalBase(t: Trigram): real
  {
    match t
    case NaN => 0.0
    case Similarity(v) => v
  }

  /** The four factors of the personal scorer, in table order. */
  function PersonalRows(cmp: Comparator, name: Name, other: Name): seq<Row>
  {
    [ Row(SurnameLevenshtein, cmp.levenshtein(name.record.surname, other.record.surname), ThreeHalves, 5),
      Row(ForenameLevenshtein, cmp.levenshtein(name.record.forename, other.record.forename), Linear, 1),
      Row(ForenameTokens, cmp.forenameTokens(name.record.forename, other.record.forename), Linear, 4),
      Row(Supplemental, SupplementalBase(cmp.trigram(name.record.supplemental, other.record.supplemental)), Linear, 1) ]
  }

  /** The explanation entry of one row: its contribution is `base ** severity * weight`. */
  function FactorOf(pow15: real -> real, row: Row): Factor
  {
    Factor(row.baseScore, row.severity, row.weight, Raise(pow15, row.baseScore, row.severity) * row.weight as real)
  }

  function Labels(rows: seq<Row>): (labels: seq<string>)
    ensures |labels| == |rows|
    ensures forall i :: 0 <= i < |rows| ==> labels[i] == rows[i].factorName
  {
    seq(|rows|, i requires 0 <= i < |rows| => rows[i].factorName)
  }

  predicate DistinctLabels(rows: seq<Row>)
  {
    forall i, j :: 0 <= i < j < |rows| ==> rows[i].factorName != rows[j].factorName
  }

  /**
   * The explanation hash after storing the rows one after another; a later
   * row overwrites an earlier one with the same factorName.
   */
  function ExplanationOf(pow15: real -> real, rows: seq<Row>): Explanation
  {
    if rows == [] then map[]
    else
      var last := rows[|rows| - 1];
      ExplanationOf(pow15, rows[..|rows| - 1])[last.factorName := FactorOf(pow15, last)]
  }

  /**
   * The explanation's keys are exactly the rows' names and, when the names
   * are distinct, each row's entry is its own factor.
   */
  lemma {:induction false} ExplanationOfRows(pow15: real -> real, rows: seq<Row>)
    ensures forall l :: l in ExplanationOf(pow15, rows) <==> l in Labels(rows)
    ensures DistinctLabels(rows) ==>
      forall i :: 0 <= i < |rows| ==> ExplanationOf(pow15, rows)[rows[i].factorName] == FactorOf(pow15, rows[i])
  {
    if rows != [] {
      var init := rows[..|rows| - 1];
      ExplanationOfRows(pow15, init);
      assert Labels(rows) == Labels(init) + [rows[|rows| - 1].factorName];
      if DistinctLabels(rows) {
        assert DistinctLabels(init);
        forall i | 0 <= i < |rows|
          ensures ExplanationOf(pow15, rows)[rows[i].factorName] == FactorOf(pow15, rows[i])
        {
          if i < |rows| - 1 {
            assert init[i] == rows[i];
          }
        }
      }
    }
  }

  /** The sum of the explanation's contributions, taken in the given key order. */
  function SumScores(ex: Explanation, keys: seq<string>): real
    requires forall k :: k in keys ==> k in ex
  {
    if keys == [] then 0.0
    else SumScores(ex, keys[..|keys| - 1]) + ex[keys[|keys| - 1]].score
  }

  /** The sum of the explanation's weights, taken in the given key order. */
  function SumWeights(ex: Explanation, keys: seq<string>): nat
    requires forall k :: k in keys ==> k in ex
  {
    if keys == [] then 0
    else SumWeights(ex, keys[..|keys| - 1]) + ex[keys[|keys| - 1]].weight
  }

  /** The base scores of the four factors of a personal pair, in table order. */
  function PersonalBases(env: Collaborators, name: Name, other: Name): seq<real>
  {
    var rows := PersonalRows(env.compare, name, other);
    [rows[0].baseScore, rows[1].baseScore, rows[2].baseScore, rows[3].baseScore]
  }

  /** The weighted average of the four factors of a personal pair, in closed form. */
  function PersonalAverage(env: Collaborators, name: Name, other: Name): real
  {
    var b := PersonalBases(env, name, other);
    (env.pow15(b[0]) * 5.0 + b[1] * 1.0 + b[2] * 4.0 + b[3] * 1.0) / 11.0
  }

  /** The table names its four factors in order, each once. */
  lemma PersonalTable(env: Collaborators, name: Name, other: Name)
    ensures var rows := PersonalRows(env.compare, name, other);
      && DistinctLabels(rows)
      && Labels(rows) == [SurnameLevenshtein, ForenameLevenshtein, ForenameTokens, Supplemental]
  {
  }

  /**
   * The personal scorer's result: the explanation of the four rows, and the
   * sum of their contributions divided by the sum of their weights.
   */
  function PersonalScoreOf(env: Collaborators, name: Name, other: Name): (s: Scored)
    ensures s.score.Some? && s.explanation.Some?
  {
    var rows := PersonalRows(env.compare, name, other);
    var ex := ExplanationOf(env.pow15, rows);
    PersonalWeights(env, name, other);
    Scored(Some(SumScores(ex, Labels(rows)) / SumWeights(ex, Labels(rows)) as real), Some(ex))
  }

  /** Both sums over four distinct keys, written out. */
  lemma {:induction false} SumsOfFour(ex: Explanation, a: string, b: string, c: string, d: string)
    requires a in ex && b in ex && c in ex && d in ex
    ensures SumScores(ex, [a, b, c, d]) == ex[a].score + ex[b].score + ex[c].score + ex[d].score
    ensures SumWeights(ex, [a, b, c, d]) == ex[a].weight + ex[b].weight + ex[c].weight + ex[d].weight
  {
    var k1, k2, k3, k4 := [a], [a, b], [a, b, c], [a, b, c, d];
    assert k1[..0] == [];
    assert SumScores(ex, k1) == ex[a].score;
    assert SumWeights(ex, k1) == ex[a].weight;
    assert k2[..1] == k1;
    assert SumScores(ex, k2) == SumScores(ex, k1) + ex[b].score;
    assert SumWeights(ex, k2) == SumWeights(ex, k1) + ex[b].weight;
    assert k3[..2] == k2;
    assert SumScores(ex, k3) == SumScores(ex, k2) + ex[c].score;
    assert SumWeights(ex, k3) == SumWeights(ex, k2) + ex[c].weight;
    assert k4[..3] == k3;
    assert SumScores(ex, k4) == SumScores(ex, k3) + ex[d].score;
    assert SumWeights(ex, k4) == SumWeights(ex, k3) + ex[d].weight;
  }

  /** The rows' explanation holds every row, so the sums are defined, and the weights add up to 11. */
  lemma {:induction false} PersonalWeights(env: Collaborators, name: Name, other: Name)
    ensures var rows := PersonalRows(env.compare, name, other);
      var ex := ExplanationOf(env.pow15, rows);
      && (forall k :: k in Labels(rows) ==> k in ex)
      && SumWeights(ex, Labels(rows)) == 11
  {
    var rows := PersonalRows(env.compare, name, other);
    var ex := ExplanationOf(env.pow15, rows);
    PersonalTable(env, name, other);
    ExplanationOfRows(env.pow15, rows);
    SumsOfFour(ex, SurnameLevenshtein, ForenameLevenshtein, ForenameTokens, Supplemental);
  }

  /**
   * What the personal scorer hands back: exactly the four labelled factors,
   * each `base ** severity * weight` with the table's severity and weight,
   * and the score is their weighted average.
   */
  lemma {:induction false} PersonalExplanation(env: Collaborators, name: Name, other: Name)
    ensures var s := PersonalScoreOf(env, name, other);
      var b := PersonalBases(env, name, other);
      var ex := s.explanation.value;
      && ex.Keys == {SurnameLevenshtein, ForenameLevenshtein, ForenameTokens, Supplemental}
      && ex[SurnameLevenshtein] == Factor(b[0], ThreeHalves, 5, env.pow15(b[0]) * 5.0)
      && ex[ForenameLevenshtein] == Factor(b[1], Linear, 1, b[1] * 1.0)
      && ex[ForenameTokens] == Factor(b[2], Linear, 4, b[2] * 4.0)
      && ex[Supplemental] == Factor(b[3], Linear, 1, b[3] * 1.0)
      && s.score == Some(PersonalAverage(env, name, other))
  {
    var rows := PersonalRows(env.compare, name, other);
    var ex := ExplanationOf(env.pow15, rows);
    PersonalTable(env, name, other);
    PersonalWeights(env, name, other);
    ExplanationOfRows(env.pow15, rows);
    assert ex[SurnameLevenshtein] == FactorOf(env.pow15, rows[0]);
    assert ex[ForenameLevenshtein] == FactorOf(env.pow15, rows[1]);
    assert ex[ForenameTokens] == FactorOf(env.pow15, rows[2]);
    assert ex[Supplemental] == FactorOf(env.pow15, rows[3]);
    SumsOfFour(ex, SurnameLevenshtein, ForenameLevenshtein, ForenameTokens, Supplemental);
  }

  /** The `factors.each` loop: stores each row's explanation entry in turn. */
  method Explain(pow15: real -> real, rows: seq<Row>) returns (explanation: Explanation)
    ensures explanation == ExplanationOf(pow15, rows)
  {
    explanation := map[];
    for i := 0 to |rows|
      invariant explanation == ExplanationOf(pow15, rows[..i])
    {
      var row := rows[i];
      var contribution := Raise(pow15, row.baseScore, row.severity) * row.weight as real;
      assert rows[..i + 1][..i] == rows[..i];
      assert ExplanationOf(pow15, rows[..i + 1]) == ExplanationOf(pow15, rows[..i])[row.factorName := FactorOf(pow15, row)];
      assert FactorOf(pow15, row) == Factor(row.baseScore, row.severity, row.weight, contribution);
      explanation := explanation[row.factorName := Factor(row.baseScore, row.severity, row.weight, contribution)];
    }
    assert rows[..|rows|] == rows;
  }

  /**
   * The personal scorer: the explanation of the four rows, then the sum of
   * the contributions over the sum of the weights.
   */
  method PersonalScore(env: Collaborators, name: Name, other: Name) returns (score: real, explanation: Explanation)
    ensures Scored(Some(score), Some(explanation)) == PersonalScoreOf(env, name, other)
  {
    var rows := PersonalRows(env.compare, name, other);
    explanation := Explain(env.pow15, rows);
    PersonalWeights(env, name, other);
    var labels := Labels(rows);
    score := SumScores(explanation, labels) / SumWeights(explanation, labels) as real;
  }

  /**
   * Dispatch on the name type to exactly one scorer, with the family,
   * corporate and meeting scorers written inline. A type with no scorer
   * fails. Family names score the levenshtein ratio of their basenames.
   * Corporate names carry a score assigned from outside, so their scorer
   * gives none, and meeting names follow the corporate scorer. Only
   * personal names get an explanation.
   */
  function ScoreFor(env: Collaborators, name: Name, other: Name, t: NameType): (r: Result<Scored, Error>)
    ensures r.Failure? <==> t.Other?
    ensures r.Failure? ==> r.error == NoScorer(t)
    ensures r.Success? ==> (r.value.score.Some? <==> t.Personal? || t.Family?)
    ensures r.Success? ==> (r.value.explanation.Some? <==> t.Personal?)
    ensures t.Family? ==>
      r.value.score == Some(env.compare.levenshtein(name.record.basename, other.record.basename))
    ensures t.Corporate? || t.Meeting? ==> r == Success(Scored(None, None))
    ensures t.Personal? ==> r.value == PersonalScoreOf(env, name, other)
  {
    match t
    case Personal => Success(PersonalScoreOf(env, name, other))
    case Family => Success(Scored(Some(env.compare.levenshtein(name.record.basename, other.record.basename)), None))
    case Corporate | Meeting => Success(Scored(None, None))
    case Other(_) => Failure(NoScorer(t))
  }

  /** The dispatch as the source runs it, calling the personal scorer's loop. */
  method ScoreByType(env: Collaborators, name: Name, other: Name, t: NameType) returns (r: Result<Scored, Error>)
    ensures r == ScoreFor(env, name, other, t)
  {
    match t {
      case Personal =>
        var score, explanation := PersonalScore(env, name, other);
        r := Success(Scored(Some(score), Some(explanation)));
      case Family =>
        r := Success(Scored(Some(env.compare.levenshtein(name.record.basename, other.record.basename)), None));
      case Corporate | Meeting =>
        r := Success(Scored(None, None));
      case Other(_) =>
        r := Failure(NoScorer(t));
    }
  }

  /** A NaN trigram makes the supplemental factor contribute exactly 0.0. */
  lemma NaNSupplementalContributesZero(env: Collaborators, name: Name, other: Name)
    requires env.compare.trigram(name.record.supplemental, other.record.supplemental).NaN?
    ensures PersonalScoreOf(env, name, other).explanation.value[Supplemental] == Factor(0.0, Linear, 1, 0.0)
    ensures PersonalScoreOf(env, name, other).score.value == (env.pow15(PersonalBases(env, name, other)[0]) * 5.0
      + PersonalBases(env, name, other)[1] + PersonalBases(env, name, other)[2] * 4.0) / 11.0
  {
    PersonalExplanation(env, name, other);
  }

  /** Two names that agree on every metric score 1.0, which is strong. */
  lemma IdenticalPersonalNamesScoreOne(env: Collaborators, name: Name, other: Name)
    requires env.compare.levenshtein(name.record.surname, other.record.surname) == 1.0
    requires env.compare.levenshtein(name.record.forename, other.record.forename) == 1.0
    requires env.compare.forenameTokens(name.record.forename, other.record.forename) == 1.0
    requires env.compare.trigram(name.record.supplemental, other.record.supplemental) == Similarity(1.0)
    requires env.pow15(1.0) == 1.0
    ensures PersonalScoreOf(env, name, other).score == Some(1.0)
    ensures Categorize(Some(1.0), Personal) == Some(Strong)
  {
    PersonalExplanation(env, name, other);
  }

  /**
   * Two names that agree on every metric but have empty supplementals (NaN
   * trigram) score 10/11, which is still strong.
   */
  lemma IdenticalNamesWithoutSupplementalScoreTenElevenths(env: Collaborators, name: Name, other: Name)
    requires env.compare.levenshtein(name.record.surname, other.record.surname) == 1.0
    requires env.compare.levenshtein(name.record.forename, other.record.forename) == 1.0
    requires env.compare.forenameTokens(name.record.forename, other.record.forename) == 1.0
    requires env.compare.trigram(name.record.supplemental, other.record.supplemental) == NaN
    requires env.pow15(1.0) == 1.0
    ensures PersonalScoreOf(env, name, other).score == Some(10.0 / 11.0)
    ensures Categorize(Some(10.0 / 11.0), Personal) == Some(Strong)
  {
    PersonalExplanation(env, name, other);
  }

  /**
   * When every metric lies in [0, 1] and `** 1.5` keeps the surname ratio
   * in [0, 1], the personal score lies in [0, 1].
   */
  lemma PersonalScoreInUnitInterval(env: Collaborators, name: Name, other: Name)
    requires var b := PersonalBases(env, name, other);
      && (forall i :: 0 <= i < 4 ==> 0.0 <= b[i] <= 1.0)
      && 0.0 <= env.pow15(b[0]) <= 1.0
    ensures 0.0 <= PersonalScoreOf(env, name, other).score.value <= 1.0
  {
    PersonalExplanation(env, name, other);
  }
}
