# Authority-name matching: scoring, categorising and ranking

A Dafny model of the matching engine of `ncmc_authorities`
(`lib/ncmc_authorities/matching/match.rb`). A `Match` pairs a reference
authority name with a candidate name. Its score is computed lazily by a
scorer chosen by the reference name's type and is then kept. A threshold
table per type turns the score into a confidence category (`Strong`,
`Moderate`, `Weak`, `Bad`). `rank` orders a set of candidates against a
reference name.

Files, one module each:

- `wrappers.dfy` (`Wrappers`): `Option` stands for Ruby's `nil`, `Result` for a raised error.
- `names.dfy` (`AuthorityNames`): the parts of the name records and of the string comparator that the matcher reads.
  - A name has an object identity (`id`) and a value (`record`). `uniq` compares values; the self-match check compares identities.
  - The comparator's metrics and Ruby's `x ** 1.5` are opaque functions. Together they are passed in as `Collaborators`.
- `categorize.dfy` (`Categorization`): `categorize`, the threshold tables.
- `scoring.dfy` (`Scoring`): the scorers and the dispatch between them.
  - The personal scorer's factor table and its explanation hash.
  - The `factors.each` loop is a method (`Explain`), proved against the fold it performs (`ExplanationOf`).
- `match.dfy` (`MatchObject`): the `Match` class with its lazily memoised `score`, `explanation` and `category` fields.
- `ranking.dfy` (`Ranking`): the `uniq` / `reject` / `map` / `sort_by` pipeline of `rank`.
  - `Rank` gives it as values.
  - `RankMatches` builds the `Match` objects it returns.

The model keeps these behaviours of the code:

- `categorize` of a type outside the four known ones returns no category (`nil`); it does not raise. Only scoring raises for such a type, because no `<type>_score` method exists.
- The top tier is the range `x..100.0`, so a score above 100.0 is `Bad`; it is not unbounded.
- Only the supplemental (trigram) metric has NaN replaced by 0.0; no other metric is normalised.
- De-duplication happens before the identity check. So when the reference itself is among the candidates, a distinct object equal to it in value that comes after it, and is not also listed before it, never gets a match. One that comes before it gets a match when it is the first with its value (`CopyOfReferenceKeptOnlyBeforeIt`).
- A corporate or meeting match without a supplied score has no score. Its category is `Bad`, and `rank` fails for it, because it negates the missing score.

## Model

| member | source | states |
|---|---|---|
| `Categorization.Categorize` | lib/ncmc_authorities/matching/match.rb:37-62 | personal/family: Strong exactly on [0.9, 100.0], Moderate on [0.8, 0.9), Weak on [0.7, 0.8), Bad otherwise, including a missing score and a score above 100.0; corporate/meeting: the same with 0.75, 0.60, 0.55; no category exactly for an unknown type |
| `Scoring.PersonalTable` | lib/ncmc_authorities/matching/match.rb:90-96 | the factor table names `surname levenshtein`, `forename levenshtein`, `forename tokens`, `supplemental` in that order, each once |
| `Scoring.ExplanationOfRows` | lib/ncmc_authorities/matching/match.rb:98-104 | the explanation hash has exactly the rows' names as keys, and with distinct names each key maps to its row's base score, severity, weight and `base ** severity * weight` |
| `Scoring.Explain` | lib/ncmc_authorities/matching/match.rb:98-104 | the `each` loop leaves the hash equal to the fold of the rows into it |
| `Scoring.PersonalWeights` | lib/ncmc_authorities/matching/match.rb:106-107 | every row is in the explanation and the weights sum to 11 |
| `Scoring.PersonalScoreOf` | lib/ncmc_authorities/matching/match.rb:83-110 | the personal scorer always yields a score and an explanation |
| `Scoring.PersonalExplanation` | lib/ncmc_authorities/matching/match.rb:83-109 | the explanation has exactly the four keys, with (severity, weight) (1.5, 5), (1, 1), (1, 4), (1, 1) and contribution `base ** severity * weight`; the score is the contributions' sum over 11 |
| `Scoring.PersonalScore` | lib/ncmc_authorities/matching/match.rb:83-110 | the imperative scorer returns exactly the score and explanation of `PersonalScoreOf` |
| `Scoring.NaNSupplementalContributesZero` | lib/ncmc_authorities/matching/match.rb:94-95 | a NaN trigram gives the supplemental factor base 0.0 and contribution 0.0; the score is then the other three contributions over 11 |
| `Scoring.IdenticalPersonalNamesScoreOne` | lib/ncmc_authorities/matching/match.rb:90-109 | with every base score 1.0 (and 1.0 ** 1.5 = 1.0) the score is 1.0, which categorises as Strong |
| `Scoring.IdenticalNamesWithoutSupplementalScoreTenElevenths` | lib/ncmc_authorities/matching/match.rb:90-109 | with three base scores 1.0 and a NaN trigram the score is 10/11, still Strong |
| `Scoring.PersonalScoreInUnitInterval` | lib/ncmc_authorities/matching/match.rb:90-109 | when every metric is in [0, 1] and `** 1.5` keeps the surname ratio in [0, 1], the score is in [0, 1] |
| `Scoring.ScoreFor` | lib/ncmc_authorities/matching/match.rb:64-81 | dispatch picks one scorer by type: an unknown type fails with no scorer; only personal and family give a score; only personal gives an explanation; family's score is the basenames' levenshtein ratio (`family_score`); corporate and meeting give neither score nor explanation (`corporate_score`, and `meeting_score` delegating to it) |
| `Scoring.ScoreByType` | lib/ncmc_authorities/matching/match.rb:64-66 | the dispatch as run, through the personal scorer's loop, returns what `ScoreFor` specifies |
| `MatchObject.Match.constructor` | lib/ncmc_authorities/matching/match.rb:6-10 | a supplied score is stored as is; a missing one leaves the score unset; no explanation and no category yet |
| `MatchObject.Match.Names` | lib/ncmc_authorities/matching/match.rb:12-14 | returns the reference name and the candidate unchanged |
| `MatchObject.Match.Score` | lib/ncmc_authorities/matching/match.rb:16-22 | a present score is returned and kept, with the explanation untouched; otherwise the dispatch runs and its score and explanation are stored (a missing score stays missing, to be re-attempted); a failing dispatch changes nothing; after success the category equals `Categorize(score, type)` |
| `MatchObject.Match.Category` | lib/ncmc_authorities/matching/match.rb:24-27 | resolves the score only when it is missing, then returns and stores `Categorize(score, type)` |
| `MatchObject.ScoreReadsAgree` | lib/ncmc_authorities/matching/match.rb:16-22 | two score reads from any state give the same answer, whatever the first read did; a successful answer is the score the object holds, with its category consistent |
| `MatchObject.CategoryReadsAgree` | lib/ncmc_authorities/matching/match.rb:24-27 | two category reads from any state give the same answer; a successful answer is the stored category of the score the object holds |
| `Ranking.Uniq` | lib/ncmc_authorities/matching/match.rb:31 | the result holds only candidates, no two of the same value, and every candidate value |
| `Ranking.UniqMemberIsFirst` | lib/ncmc_authorities/matching/match.rb:31 | every name `uniq` keeps is the first candidate with its value |
| `Ranking.FirstIsUniqMember` | lib/ncmc_authorities/matching/match.rb:31 | every candidate that is the first with its value is kept |
| `Ranking.UniqKeepsFirstOccurrences` | lib/ncmc_authorities/matching/match.rb:31 | `uniq` keeps exactly the first occurrence of each value |
| `Ranking.RejectSelf` | lib/ncmc_authorities/matching/match.rb:32 | a name is kept exactly when it is among the inputs and is not the reference object; distinct values stay distinct |
| `Ranking.Candidates` | lib/ncmc_authorities/matching/match.rb:30-32 | the names that get a match are candidates, none is the reference object, and no two share a value |
| `Ranking.CandidatesAreFirstOccurrences` | lib/ncmc_authorities/matching/match.rb:30-32 | a candidate gets a match exactly when it is the first with its value and is not the reference object |
| `Ranking.CopyOfReferenceKeptOnlyBeforeIt` | lib/ncmc_authorities/matching/match.rb:30-32 | with the reference among the names, a distinct object equal to it in value (and not listed earlier) gets no match when it comes after the reference, and gets one when it comes before exactly when it is the first with its value |
| `Ranking.ScoreAll` | lib/ncmc_authorities/matching/match.rb:33-34 | reading every candidate's score fails exactly when there is a candidate and the type is neither personal nor family (no scorer, or a nil score that cannot be negated); otherwise one match per candidate, in order, each with the dispatch's score |
| `Ranking.Insert` | lib/ncmc_authorities/matching/match.rb:34 | inserting into a sorted sequence keeps it sorted and adds exactly the one match |
| `Ranking.SortRanked` | lib/ncmc_authorities/matching/match.rb:34 | the result is ordered by descending score, then ascending name, and is a permutation of the input |
| `Ranking.Rank` | lib/ncmc_authorities/matching/match.rb:29-35 | fails exactly when some candidate's score cannot be read; otherwise one match per candidate, each candidate once, none for the reference object, all with the reference as `name` and the dispatch's score, ordered by descending score then ascending name |
| `Ranking.ResolvedMatch` | lib/ncmc_authorities/matching/match.rb:33-34 | a fresh `Match` whose score, explanation and category have been read through the object |
| `Ranking.RankMatches` | lib/ncmc_authorities/matching/match.rb:29-35 | returns `Rank`'s failure, or one fresh `Match` per ranked value in the same order, each with its score read and its category consistent |

## Left out

- Floating point: scores are exact `real`s.
  - The thresholds are exact decimals, not binary doubles.
  - No IEEE rounding is modelled; sums are taken in the source's order.
  - Only the trigram metric can be NaN. A NaN from another metric, and the way it would propagate into the score and then into a `Bad` category, are not modelled.
- `x ** 1.5` is the collaborator function `pow15`. Lemmas that need a fact about it, such as `1.0 ** 1.5 == 1.0`, take that fact as a precondition. `x ** 1` is `x`.
- The string comparator's algorithms (levenshtein ratio, forename tokens, trigram) are not part of this model. They are opaque functions of the two strings.
- The external search engine that supplies corporate and meeting scores is not part of this model. Such a score enters only as the constructor argument.
- The `Name` class is not part of this model.
  - Its `hash`/`eql?` are modelled as equality of the record value.
  - Its `<=>` is modelled as the integer `sortKey`, a total order, so `sort_by` never meets incomparable names.
- Ruby's `send` by interpolated method name is a `match` over the name type. A missing method is the `NoScorer` error.
- `Ranking.SortRanked`: Ruby's `sort_by` is not stable. The model promises no order among matches tied on both score and name key; its insertion sort fixes one order, and nothing depends on it.
- `Ranking.RankMatches`: the source creates the `Match` objects in candidate order and reads their scores while computing sort keys. The model creates them in ranked order. Each object's scoring touches only that object, so the result is the same. On failure, the objects created before the error are not modelled.
- The explanation is an unordered map. The source's hash keeps the factor table's key order; the model sums in that order but does not record it in the explanation.
- The commented-out initials and dates factors of the personal scorer are not live behaviour and are not modelled.
- The comparator and power function are passed to each `Match` at construction. The source reaches them as globals.
