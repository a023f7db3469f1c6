/**
 * Ranking: the candidates, de-duplicated by value and without the
 * reference name itself, each paired with the reference and ordered by
 * descending score, then by the candidate's name.
 */
module Ranking {
  import opened Wrappers
  import opened AuthorityNames
  import opened Scoring
  import opened MatchObject

  /** Some name in `xs` has the value `r`. */
  predicate HasRecord(xs: seq<Name>, r: NameRecord)
  {
    exists i :: 0 <= i < |xs| && xs[i].record == r
  }

  /** No two names in `xs` have the same value. */
  predicate DistinctRecords(xs: seq<Name>)
  {
    forall i, j :: 0 <= i < j < |xs| ==> xs[i].record != xs[j].record
  }

  /** `xs[i]` is the first name in `xs` with its value. */
  predicate FirstOfItsValue(xs: seq<Name>, i: int)
    requires 0 <= i < |xs|
  {
    forall j :: 0 <= j < i ==> xs[j].record != xs[i].record
  }

  /**
   * `uniq` by value: keeps every value once, in the object that carries
   * it first.
   */
  function Uniq(xs: seq<Name>): (ys: seq<Name>)
    ensures forall y :: y in ys ==> y in xs
    ensures DistinctRecords(ys)
    ensures forall i :: 0 <= i < |xs| ==> HasRecord(ys, xs[i].record)
  {
    if xs == [] then []
    else
      var init, last := Uniq(xs[..|xs| - 1]), xs[|xs| - 1];
      HasRecordAppend(init, last);
      if HasRecord(init, last.record) then init else init + [last]
  }

  lemma HasRecordAppend(xs: seq<Name>, y: Name)
    ensures HasRecord(xs + [y], y.record)
    ensures forall r :: HasRecord(xs, r) ==> HasRecord(xs + [y], r)
  {
    assert (xs + [y])[|xs|] == y;
    forall r | HasRecord(xs, r) ensures HasRecord(xs + [y], r) {
      var i :| 0 <= i < |xs| && xs[i].record == r;
      assert (xs + [y])[i] == xs[i];
    }
  }

  /** Every name `uniq` keeps is the first with its value. */
  lemma {:induction false} UniqMemberIsFirst(xs: seq<Name>, y: Name)
    requires y in Uniq(xs)
    ensures exists i :: 0 <= i < |xs| && xs[i] == y && FirstOfItsValue(xs, i)
  {
    var n := |xs| - 1;
    var init, last := xs[..n], xs[n];
    var u := Uniq(init);
    if y in u {
      UniqMemberIsFirst(init, y);
      var i :| 0 <= i < |init| && init[i] == y && FirstOfItsValue(init, i);
      assert xs[i] == y && FirstOfItsValue(xs, i);
    } else {
      assert y == last && !HasRecord(u, last.record);
      forall j | 0 <= j < n ensures xs[j].record != last.record {
        assert HasRecord(u, init[j].record);
      }
      assert FirstOfItsValue(xs, n);
    }
  }

  /** Every name that is the first with its value is kept by `uniq`. */
  lemma {:induction false} FirstIsUniqMember(xs: seq<Name>, i: int)
    requires 0 <= i < |xs| && FirstOfItsValue(xs, i)
    ensures xs[i] in Uniq(xs)
  {
    var n := |xs| - 1;
    var init, last := xs[..n], xs[n];
    var u := Uniq(init);
    if i < n {
      assert FirstOfItsValue(init, i);
      FirstIsUniqMember(init, i);
    } else {
      assert !HasRecord(u, last.record) by {
        forall k | 0 <= k < |u| ensures u[k].record != last.record {
          assert u[k] in init;
          var j :| 0 <= j < |init| && init[j] == u[k];
          assert xs[j] == init[j];
        }
      }
    }
  }

  /** `uniq` keeps exactly the names that are the first with their value. */
  lemma UniqKeepsFirstOccurrences(xs: seq<Name>)
    ensures forall y :: y in Uniq(xs) <==>
      exists i :: 0 <= i < |xs| && xs[i] == y && FirstOfItsValue(xs, i)
  {
    forall y | y in Uniq(xs) ensures exists i :: 0 <= i < |xs| && xs[i] == y && FirstOfItsValue(xs, i) {
      UniqMemberIsFirst(xs, y);
    }
    forall i | 0 <= i < |xs| && FirstOfItsValue(xs, i) ensures xs[i] in Uniq(xs) {
      FirstIsUniqMember(xs, i);
    }
  }

  /** `reject { |m| m.equal? name }`: drops every occurrence of the reference object. */
  function RejectSelf(xs: seq<Name>, reference: Name): (ys: seq<Name>)
    ensures forall y :: y in ys <==> y in xs && y.id != reference.id
    ensures DistinctRecords(xs) ==> DistinctRecords(ys)
  {
    if xs == [] then []
    else
      var init, last := RejectSelf(xs[..|xs| - 1], reference), xs[|xs| - 1];
      if last.id == reference.id then init else init + [last]
  }

  /** The names that get a match: de-duplicated first, then without the reference. */
  function Candidates(reference: Name, others: seq<Name>): (kept: seq<Name>)
    ensures forall c :: c in kept ==> c in others && c.id != reference.id
    ensures DistinctRecords(kept)
  {
    RejectSelf(Uniq(others), reference)
  }

  /**
   * A candidate gets a match exactly when it is the first with its value
   * and is not the reference object itself.
   */
  lemma CandidatesAreFirstOccurrences(reference: Name, others: seq<Name>)
    ensures forall c :: c in Candidates(reference, others) <==>
      && c.id != reference.id
      && exists i :: 0 <= i < |others| && others[i] == c && FirstOfItsValue(others, i)
  {
    UniqKeepsFirstOccurrences(others);
  }

  /**
   * De-duplication comes before the identity check. When the reference
   * itself is among the names, an object equal to it in value that comes
   * later (and is not listed earlier) never gets a match; one that comes
   * earlier gets a match exactly when it is the first with its value.
   */
  lemma CopyOfReferenceKeptOnlyBeforeIt(reference: Name, others: seq<Name>, i: int, j: int)
    requires 0 <= i < |others| && others[i] == reference
    requires 0 <= j < |others| && others[j] !in others[..j]
    requires others[j].record == reference.record && others[j].id != reference.id
    ensures i < j ==> others[j] !in Candidates(reference, others)
    ensures j < i ==> (others[j] in Candidates(reference, others) <==> FirstOfItsValue(others, j))
  {
    CandidatesAreFirstOccurrences(reference, others);
    forall k | 0 <= k < j
      ensures others[k] != others[j]
    {
      assert others[k] in others[..j];
    }
    forall k | j <= k < |others| && others[k] == others[j] && (i < j || j < k)
      ensures !FirstOfItsValue(others, k)
    {
      if i < j {
        assert others[i].record == others[k].record;
      } else {
        assert others[j].record == others[k].record;
      }
    }
  }

  /** A match after its score has been read, as a value. */
  datatype Ranked = Ranked(name: Name, otherName: Name, score: real, explanation: Option<Explanation>)

  /** The score and explanation are what the scorer gives for the pair. */
  predicate ScoredAs(env: Collaborators, r: Ranked)
  {
    ScoreFor(env, r.name, r.otherName, r.name.Kind()) == Success(Scored(Some(r.score), r.explanation))
  }

  function Others(rs: seq<Ranked>): (os: seq<Name>)
    ensures |os| == |rs|
    ensures forall i :: 0 <= i < |rs| ==> os[i] == rs[i].otherName
  {
    if rs == [] then [] else [rs[0].otherName] + Others(rs[1..])
  }

  /**
   * Reads the score of a match for every candidate, in order. The first
   * failure is the answer: no scorer for the type, or a missing score,
   * which cannot be negated for the sort key.
   */
  function ScoreAll(env: Collaborators, reference: Name, kept: seq<Name>): (r: Result<seq<Ranked>, Error>)
    ensures r.Failure? <==> kept != [] && !(reference.Kind().Personal? || reference.Kind().Family?)
    ensures r.Failure? ==> r.error == if reference.Kind().Other? then NoScorer(reference.Kind()) else NilScore
    ensures r.Success? ==> Others(r.value) == kept
    ensures r.Success? ==> forall i :: 0 <= i < |r.value| ==> r.value[i].name == reference && ScoredAs(env, r.value[i])
  {
    if kept == [] then Success([])
    else
      match ScoreFor(env, reference, kept[0], reference.Kind())
      case Failure(e) => Failure(e)
      case Success(Scored(None, _)) => Failure(NilScore)
      case Success(Scored(Some(s), ex)) =>
        match ScoreAll(env, reference, kept[1..])
        case Failure(e) => Failure(e)
        case Success(rest) => Success([Ranked(reference, kept[0], s, ex)] + rest)
  }

  /** The sort key `[-score, other_name]`: higher score first, then the smaller name. */
  predicate Before(a: Ranked, b: Ranked)
  {
    a.score > b.score || (a.score == b.score && a.otherName.record.sortKey <= b.otherName.record.sortKey)
  }

  predicate Sorted(rs: seq<Ranked>)
  {
    forall i, j :: 0 <= i < j < |rs| ==> Before(rs[i], rs[j])
  }

  /** Inserts one match into a sorted sequence, keeping it sorted. */
  function Insert(x: Ranked, rs: seq<Ranked>): (out: seq<Ranked>)
    requires Sorted(rs)
    ensures Sorted(out)
    ensures multiset(out) == multiset(rs) + multiset{x}
  {
    if rs == [] || Before(x, rs[0]) then [x] + rs
    else
      var tail := Insert(x, rs[1..]);
      InsertBelowHead(x, rs, tail);
      [rs[0]] + tail
  }

  /** A match that does not go before the head goes after it, as does the rest. */
  lemma InsertBelowHead(x: Ranked, rs: seq<Ranked>, tail: seq<Ranked>)
    requires rs != [] && Sorted(rs) && !Before(x, rs[0])
    requires Sorted(tail) && multiset(tail) == multiset(rs[1..]) + multiset{x}
    ensures Sorted([rs[0]] + tail)
    ensures multiset([rs[0]] + tail) == multiset(rs) + multiset{x}
  {
    forall k | 0 <= k < |tail| ensures Before(rs[0], tail[k]) {
      assert tail[k] in multiset(tail);
      if tail[k] != x {
        assert tail[k] in rs[1..];
      }
    }
    assert rs == [rs[0]] + rs[1..];
  }

  /** `sort_by` on the key: sorted, and a permutation of its input. */
  function SortRanked(rs: seq<Ranked>): (out: seq<Ranked>)
    ensures Sorted(out)
    ensures multiset(out) == multiset(rs)
  {
    if rs == [] then []
    else
      assert rs == [rs[0]] + rs[1..];
      Insert(rs[0], SortRanked(rs[1..]))
  }

  /** No two matches are for candidates with the same value. */
  predicate DistinctOthers(rs: seq<Ranked>)
  {
    forall i, j :: 0 <= i < j < |rs| ==> rs[i].otherName.record != rs[j].otherName.record
  }

  /**
   * `rank`: one match for each value-distinct candidate other than the
   * reference object, each candidate once, ordered by descending score and
   * then by name. It fails as soon as one candidate's score cannot be read.
   */
  function Rank(env: Collaborators, reference: Name, others: seq<Name>): (r: Result<seq<Ranked>, Error>)
    ensures r.Failure? <==>
      Candidates(reference, others) != [] && !(reference.Kind().Personal? || reference.Kind().Family?)
    ensures r.Failure? ==> r.error == if reference.Kind().Other? then NoScorer(reference.Kind()) else NilScore
    ensures r.Success? ==> Sorted(r.value)
    ensures r.Success? ==> |r.value| == |Candidates(reference, others)|
    ensures r.Success? ==> forall c :: c in Candidates(reference, others) <==> c in Others(r.value)
    ensures r.Success? ==> DistinctOthers(r.value)
    ensures r.Success? ==> forall i :: 0 <= i < |r.value| ==>
      && r.value[i].name == reference
      && r.value[i].otherName.id != reference.id
      && r.value[i].otherName in others
      && ScoredAs(env, r.value[i])
  {
    var kept := Candidates(reference, others);
    match ScoreAll(env, reference, kept)
    case Failure(e) => Failure(e)
    case Success(scored) =>
      var sorted := SortRanked(scored);
      RankedFacts(env, reference, others, kept, scored, sorted);
      Success(sorted)
  }

  /** What the sorted matches inherit from the scored candidates they permute. */
  lemma RankedFacts(env: Collaborators, reference: Name, others: seq<Name>, kept: seq<Name>,
                    scored: seq<Ranked>, sorted: seq<Ranked>)
    requires forall c :: c in kept ==> c in others && c.id != reference.id
    requires DistinctRecords(kept)
    requires Others(scored) == kept
    requires forall k :: 0 <= k < |scored| ==> scored[k].name == reference && ScoredAs(env, scored[k])
    requires multiset(sorted) == multiset(scored)
    ensures |sorted| == |kept|
    ensures forall c :: c in kept <==> c in Others(sorted)
    ensures DistinctOthers(sorted)
    ensures forall i :: 0 <= i < |sorted| ==>
      && sorted[i].name == reference
      && sorted[i].otherName.id != reference.id
      && sorted[i].otherName in others
      && ScoredAs(env, sorted[i])
  {
    assert |sorted| == |multiset(sorted)| == |multiset(scored)| == |scored|;
    assert DistinctOthers(scored) by {
      forall i, j | 0 <= i < j < |scored| ensures scored[i].otherName.record != scored[j].otherName.record {
        assert Others(scored)[i] == kept[i] && Others(scored)[j] == kept[j];
      }
    }
    DistinctUnderPermutation(sorted, scored);
    forall i | 0 <= i < |sorted|
      ensures sorted[i].name == reference && ScoredAs(env, sorted[i]) && sorted[i].otherName in kept
    {
      assert sorted[i] in multiset(scored);
      var k :| 0 <= k < |scored| && scored[k] == sorted[i];
      assert Others(scored)[k] == sorted[i].otherName;
    }
    forall c | c in kept ensures c in Others(sorted) {
      var k :| 0 <= k < |kept| && kept[k] == c;
      assert Others(scored)[k] == c;
      assert scored[k] in multiset(sorted);
      var i :| 0 <= i < |sorted| && sorted[i] == scored[k];
      assert Others(sorted)[i] == c;
    }
  }

  /** A match occurs at most once in a sequence whose candidates have distinct values. */
  lemma {:induction false} DistinctCountsAtMostOne(b: seq<Ranked>, x: Ranked)
    requires DistinctOthers(b)
    ensures multiset(b)[x] <= 1
  {
    if b != [] {
      var init := b[..|b| - 1];
      assert b == init + [b[|b| - 1]];
      DistinctCountsAtMostOne(init, x);
    }
  }

  /** In a sequence whose candidates have distinct values, a candidate value picks out one match. */
  lemma DistinctOthersInjective(b: seq<Ranked>, x: Ranked, y: Ranked)
    requires DistinctOthers(b)
    requires x in b && y in b && x.otherName.record == y.otherName.record
    ensures x == y
  {
  }

  /** A match at two positions occurs at least twice. */
  lemma CountAtLeastTwo(a: seq<Ranked>, i: int, j: int)
    requires 0 <= i < j < |a| && a[i] == a[j]
    ensures multiset(a)[a[i]] >= 2
  {
    assert a == a[..j] + a[j..];
    assert a[i] in multiset(a[..j]) && a[j] in multiset(a[j..]);
  }

  /** Distinct candidate values survive a permutation. */
  lemma DistinctUnderPermutation(a: seq<Ranked>, b: seq<Ranked>)
    requires multiset(a) == multiset(b)
    requires DistinctOthers(b)
    ensures DistinctOthers(a)
  {
    forall i, j | 0 <= i < j < |a| ensures a[i].otherName.record != a[j].otherName.record {
      if a[i].otherName.record == a[j].otherName.record {
        assert a[i] in multiset(b) && a[j] in multiset(b);
        DistinctOthersInjective(b, a[i], a[j]);
        CountAtLeastTwo(a, i, j);
        DistinctCountsAtMostOne(b, a[i]);
        assert false;
      }
    }
  }

  /** A `Match` object as `rank` returns it: its score read, matching the ranked value. */
  predicate Resolved(m: Match, r: Ranked)
    reads m
  {
    && m.name == r.name && m.otherName == r.otherName
    && m.score == Some(r.score) && m.explanation == r.explanation
    && m.Consistent()
  }

  /** A fresh `Match` for one ranked value, whose score is then read. */
  method ResolvedMatch(env: Collaborators, reference: Name, rr: Ranked) returns (m: Match)
    requires rr.name == reference && ScoredAs(env, rr)
    ensures fresh(m) && m.env == env && Resolved(m, rr)
  {
    m := new Match(reference, rr.otherName, env, None);
    var _ := m.Score();
  }

  /**
   * `rank` as objects: a fresh `Match` for each ranked value, in the same
   * order, whose score has been read (and category derived) through the
   * object itself.
   */
  method RankMatches(env: Collaborators, reference: Name, others: seq<Name>) returns (r: Result<seq<Match>, Error>)
    ensures match Rank(env, reference, others)
      case Failure(e) => r == Failure(e)
      case Success(rs) =>
        && r.Success? && |r.value| == |rs|
        && forall i :: 0 <= i < |rs| ==> fresh(r.value[i]) && r.value[i].env == env && Resolved(r.value[i], rs[i])
  {
    match Rank(env, reference, others) {
      case Failure(e) =>
        r := Failure(e);
      case Success(rs) =>
        var ms: seq<Match> := [];
        for i := 0 to |rs|
          invariant |ms| == i
          invariant forall k :: 0 <= k < i ==> fresh(ms[k]) && ms[k].env == env && Resolved(ms[k], rs[k])
        {
          assert rs[i].name == reference && ScoredAs(env, rs[i]);
          var m := ResolvedMatch(env, reference, rs[i]);
          ms := ms + [m];
        }
        r := Success(ms);
    }
  }
}
