/**
 * A `Match` pairs a reference name with a candidate. Its score is computed
 * on the first read that finds none and kept from then on; its category is
 * derived again from the current score on every read.
 */
module MatchObject {
  import opened Wrappers
  import opened AuthorityNames
  import opened Categorization
  import opened Scoring

  class Match {
    const name: Name
    const otherName: Name
    /** The comparator and power the scorers call. */
    const env: Collaborators
    var score: Option<real>
    var explanation: Option<Explanation>
    var category: Option<Category>

    /** The category agrees with the current score and the reference name's type. */
    predicate Consistent()
      reads this
    {
      category == Categorize(score, name.Kind())
    }

    /** A supplied score is kept as it is; no score (nil) leaves it to be computed. */
    constructor (name: Name, otherName: Name, env: Collaborators, score: Option<real>)
      ensures this.name == name && this.otherName == otherName && this.env == env
      ensures this.score == score && explanation == None && category == None
    {
      this.name := name;
      this.otherName := otherName;
      this.env := env;
      this.score := score;
      explanation := None;
      category := None;
    }

    /** The reference name and the candidate, unchanged. */
    method Names() returns (reference: Name, candidate: Name)
      ensures reference == name && candidate == otherName
    {
      reference, candidate := name, otherName;
    }

    /**
     * Reads the score. A score already present is returned as it is, with
     * the explanation untouched; otherwise the scorer for the reference
     * name's type runs and both are stored. A scorer that fails leaves the
     * object as it was; one that finds no score leaves none, so the next
     * read runs it again. A successful read leaves the category consistent.
     */
    method Score() returns (r: Result<Option<real>, Error>)
      modifies this
      ensures old(score).Some? ==>
        r == Success(old(score)) && score == old(score) && explanation == old(explanation)
      ensures old(score).None? ==>
        match ScoreFor(env, name, otherName, name.Kind())
        case Failure(e) => r == Failure(e)
        case Success(s) => r == Success(s.score) && score == s.score && explanation == s.explanation
      ensures r.Success? ==> Consistent()
      ensures r.Failure? ==> unchanged(this)
    {
      if score.None? {
        var scored := ScoreByType(env, name, otherName, name.Kind());
        match scored {
          case Failure(e) =>
            r := Failure(e);
            return;
          case Success(s) =>
            score, explanation := s.score, s.explanation;
        }
      }
      category := Categorize(score, name.Kind());
      r := Success(score);
    }

    /**
     * Reads the category: resolves the score first when there is none,
     * then derives the category from it and stores it.
     */
    method Category() returns (r: Result<Option<Category>, Error>)
      modifies this
      ensures old(score).Some? ==>
        && score == old(score) && explanation == old(explanation)
        && r == Success(Categorize(old(score), name.Kind()))
      ensures old(score).None? ==>
        match ScoreFor(env, name, otherName, name.Kind())
        case Failure(e) => r == Failure(e)
        case Success(s) =>
          score == s.score && explanation == s.explanation && r == Success(Categorize(s.score, name.Kind()))
      ensures r.Success? ==> Consistent() && r.value == category
      ensures r.Failure? ==> unchanged(this)
    {
      if score.None? {
        var s := Score();
        if s.Failure? {
          r := Failure(s.error);
          return;
        }
      }
      category := Categorize(score, name.Kind());
      r := Success(category);
    }
  }

  /**
   * Reading the score twice, from any state, gives the same answer, whether
   * the first read found a score, stored one, found none, or failed.
   */
  method ScoreReadsAgree(m: Match) returns (s1: Result<Option<real>, Error>, s2: Result<Option<real>, Error>)
    modifies m
    ensures s1 == s2
    ensures s1.Success? ==> s1.value == m.score && m.Consistent()
  {
    s1 := m.Score();
    s2 := m.Score();
  }

  /**
   * Reading the category twice, from any state, gives the same answer, and
   * a successful answer is the category of the score the object then holds.
   */
  method CategoryReadsAgree(m: Match) returns (c1: Result<Option<Category>, Error>, c2: Result<Option<Category>, Error>)
    modifies m
    ensures c1 == c2
    ensures c1.Success? ==> c1.value == m.category == Categorize(m.score, m.name.Kind())
  {
    c1 := m.Category();
    c2 := m.Category();
  }
}
