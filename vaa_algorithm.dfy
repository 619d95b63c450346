/**
 * The voting-advice matching engine (app/lib/vaa-algorithm.server.ts).
 *
 * `Matches` is the specification of `calculateMatches`: one result per party
 * of `partyPositions`, each built by `TallyOver` from the user's answers in
 * their insertion order, then stably sorted by match percentage, highest
 * first. `CalculateMatches` is the loop-based method the source runs, proved
 * to compute `Matches`. `PrepareInput` / `PrepareCalculationInput` do the same
 * for `prepareCalculationInput`.
 */
module VaaAlgorithm {
  import opened Wrappers
  import opened OrderedMaps
  import opened Percent

  // ---------------------------------------------------------------- data

  /** A party's stance on a statement, and a user's non-skipped answer. */
  datatype Position = Agree | Neutral | Disagree

  /** What a user answered: one of the three stances, or SKIP. */
  datatype UserAnswer = Stated(stance: Position) | Skip

  /** The textual form the stores and the wire use for a stance. */
  function PositionWord(p: Position): string {
    match p
    case Agree => "AGREE"
    case Neutral => "NEUTRAL"
    case Disagree => "DISAGREE"
  }

  predicate IsPositionWord(w: string) {
    w == "AGREE" || w == "NEUTRAL" || w == "DISAGREE"
  }

  /** The `as Position` cast applied to a stored position string. */
  function PositionOf(w: string): (p: Position)
    requires IsPositionWord(w)
    ensures PositionWord(p) == w
  {
    if w == "AGREE" then Agree else if w == "NEUTRAL" then Neutral else Disagree
  }

  datatype CalculationInput = CalculationInput(
    answers: OrderedMap<string, UserAnswer>,            // statementId -> answer
    topicWeights: map<string, nat>,                     // topicId -> weight
    partyPositions: OrderedMap<string, map<string, Position>>, // partyId -> statementId -> position
    statementTopics: map<string, string>)               // statementId -> topicId

  datatype TopicScore = TopicScore(score: nat, maxScore: nat, percentage: nat)

  datatype PartyResult = PartyResult(
    partyId: string,
    matchPercentage: nat,
    totalPoints: nat,
    maxPossiblePoints: nat,
    topicBreakdown: OrderedMap<string, TopicScore>)

  // ------------------------------------------------------- scoring table

  /** SCORING_MATRIX[user][party]. */
  function ScoringMatrix(user: Position, party: Position): (points: nat)
    ensures points <= 2
    ensures points == 2 <==> user == party
    ensures points == 0 <==> (user == Agree && party == Disagree) || (user == Disagree && party == Agree)
    ensures points == 1 <==> user != party && (user == Neutral || party == Neutral)
  {
    match (user, party)
    case (Agree, Agree) => 2
    case (Agree, Neutral) => 1
    case (Agree, Disagree) => 0
    case (Neutral, Agree) => 1
    case (Neutral, Neutral) => 2
    case (Neutral, Disagree) => 1
    case (Disagree, Agree) => 0
    case (Disagree, Neutral) => 1
    case (Disagree, Disagree) => 2
  }

  /** calculateStatementPoints: SKIP is filtered out before the table is consulted. */
  function CalculateStatementPoints(answer: UserAnswer, party: Position): (points: nat)
    ensures points <= 2
    ensures answer == Skip ==> points == 0
    ensures answer.Stated? ==> points == ScoringMatrix(answer.stance, party)
  {
    match answer
    case Skip => 0
    case Stated(user) => ScoringMatrix(user, party)
  }

  // ------------------------------------------------ one party: the tally

  /** `topicWeights.get(topicId) ?? 1`. */
  function Weight(input: CalculationInput, topicId: string): nat {
    if topicId in input.topicWeights then input.topicWeights[topicId] else 1
  }

  /**
   * The topic under which statement `sid` counts for a party with `positions`,
   * or None when the loop body `continue`s: no answer, a SKIP answer, no
   * position of the party, or no topic (a missing or empty topic id is falsy).
   */
  function CountedTopic(input: CalculationInput, positions: map<string, Position>, sid: string): Option<string> {
    if sid !in input.answers.vals || input.answers.vals[sid] == Skip then None
    else if sid !in positions then None
    else if sid !in input.statementTopics || input.statementTopics[sid] == "" then None
    else Some(input.statementTopics[sid])
  }

  /** The running totals of the inner loop of calculateMatches. */
  datatype Tally = Tally(total: nat, max: nat, breakdown: OrderedMap<string, TopicScore>)

  function ZeroScore(): TopicScore { TopicScore(0, 0, 0) }

  /** `topicBreakdown.get(topicId) || { score: 0, maxScore: 0, percentage: 0 }`. */
  function EntryOr0(b: OrderedMap<string, TopicScore>, topicId: string): TopicScore {
    if topicId in b.vals then b.vals[topicId] else ZeroScore()
  }

  /** `points * weight`: a statement's points scaled by its topic's weight. */
  function Weighted(points: nat, weight: nat): (r: nat)
    requires points <= 2
    ensures r <= 2 * weight
  {
    points * weight
  }

  /** One iteration of the inner loop, for statement `sid`. */
  function AddStatement(input: CalculationInput, positions: map<string, Position>, acc: Tally, sid: string): Tally {
    match CountedTopic(input, positions, sid)
    case None => acc
    case Some(topicId) =>
      var w := Weight(input, topicId);
      AddScore(acc, topicId, Weighted(CalculateStatementPoints(input.answers.vals[sid], positions[sid]), w), w)
  }

  /** Books `points` earned out of `2 * w` possible under `topicId`. */
  function AddScore(acc: Tally, topicId: string, points: nat, w: nat): Tally {
    Tally(acc.total + points, acc.max + 2 * w, AddToTopic(acc.breakdown, topicId, points, 2 * w))
  }

  /** The breakdown with `points` out of `maxPoints` added to the entry of `topicId`. */
  function AddToTopic(b: OrderedMap<string, TopicScore>, topicId: string, points: nat, maxPoints: nat): OrderedMap<string, TopicScore> {
    var previous := EntryOr0(b, topicId);
    Set(b, topicId, TopicScore(previous.score + points, previous.maxScore + maxPoints, previous.percentage))
  }

  /** The inner loop run over the statement ids `ks`, in order. */
  function TallyOver(input: CalculationInput, positions: map<string, Position>, ks: seq<string>): Tally
    decreases |ks|
  {
    if ks == [] then Tally(0, 0, Empty())
    else AddStatement(input, positions, TallyOver(input, positions, ks[..|ks| - 1]), ks[|ks| - 1])
  }

  /** A breakdown entry with its rounded percentage filled in. */
  function WithPercentage(s: TopicScore): TopicScore {
    s.(percentage := RoundPercent(s.score, s.maxScore))
  }

  /** The loop that fills in every topic percentage; keys keep their order. */
  function WithPercentages(b: OrderedMap<string, TopicScore>): (r: OrderedMap<string, TopicScore>)
    ensures r.keys == b.keys && r.vals.Keys == b.vals.Keys
    ensures forall t | t in b.vals :: r.vals[t] == WithPercentage(b.vals[t])
  {
    var vals := map t | t in b.vals :: WithPercentage(b.vals[t]);
    assert vals.Keys == b.vals.Keys;
    Entries(b.keys, vals)
  }

  /** The result calculateMatches pushes for `partyId`. */
  function ResultFor(input: CalculationInput, partyId: string): PartyResult
    requires partyId in input.partyPositions.vals
  {
    var t := TallyOver(input, input.partyPositions.vals[partyId], input.answers.keys);
    PartyResult(partyId, RoundPercent(t.total, t.max), t.total, t.max, WithPercentages(t.breakdown))
  }

  /** `partyResults` before sorting: one entry per party, in map order. */
  function UnsortedResults(input: CalculationInput): (rs: seq<PartyResult>)
    ensures |rs| == |input.partyPositions.keys|
    ensures forall i | 0 <= i < |rs| :: rs[i] == ResultFor(input, input.partyPositions.keys[i])
  {
    var ks := input.partyPositions.keys;
    seq(|ks|, i requires 0 <= i < |ks| => ResultFor(input, ks[i]))
  }

  /** calculateMatches: the results, sorted by match percentage, highest first. */
  function Matches(input: CalculationInput): seq<PartyResult> {
    SortByMatch(UnsortedResults(input))
  }

  // ------------------------------------------------- the stable sort

  /** Inserts `r` after every element whose percentage is at least its own. */
  function InsertByMatch(sorted: seq<PartyResult>, r: PartyResult): seq<PartyResult>
    decreases |sorted|
  {
    if sorted == [] || sorted[|sorted| - 1].matchPercentage >= r.matchPercentage then sorted + [r]
    else InsertByMatch(sorted[..|sorted| - 1], r) + [sorted[|sorted| - 1]]
  }

  /**
   * `partyResults.sort((a, b) => b.matchPercentage - a.matchPercentage)`.
   * Array.prototype.sort is stable, so this is insertion sort.
   */
  function SortByMatch(rs: seq<PartyResult>): seq<PartyResult>
    decreases |rs|
  {
    if rs == [] then [] else InsertByMatch(SortByMatch(rs[..|rs| - 1]), rs[|rs| - 1])
  }

  predicate SortedByMatch(rs: seq<PartyResult>) {
    forall i, j | 0 <= i < j < |rs| :: rs[i].matchPercentage >= rs[j].matchPercentage
  }

  /** The results whose percentage is `p`, in order. */
  function WithMatch(rs: seq<PartyResult>, p: nat): seq<PartyResult>
    decreases |rs|
  {
    if rs == [] then []
    else WithMatch(rs[..|rs| - 1], p) + (if rs[|rs| - 1].matchPercentage == p then [rs[|rs| - 1]] else [])
  }

  function PartyIds(rs: seq<PartyResult>): (ids: seq<string>)
    ensures |ids| == |rs|
    ensures forall i | 0 <= i < |rs| :: ids[i] == rs[i].partyId
  {
    seq(|rs|, i requires 0 <= i < |rs| => rs[i].partyId)
  }

  function WithMatchOne(r: PartyResult, p: nat): seq<PartyResult> {
    if r.matchPercentage == p then [r] else []
  }

  lemma LastOfAppend(a: seq<PartyResult>, x: PartyResult)
    ensures (a + [x])[..|a|] == a && (a + [x])[|a|] == x
  {
  }

  /** Inserting `r` adds it, if anywhere, at the end of the results with its percentage. */
  lemma {:induction false} WithMatchInsert(s: seq<PartyResult>, r: PartyResult, p: nat)
    ensures WithMatch(InsertByMatch(s, r), p) == WithMatch(s, p) + WithMatchOne(r, p)
    decreases |s|
  {
    if s == [] || s[|s| - 1].matchPercentage >= r.matchPercentage {
      LastOfAppend(s, r);
    } else {
      var init, last := s[..|s| - 1], s[|s| - 1];
      WithMatchInsert(init, r, p);
      LastOfAppend(InsertByMatch(init, r), last);
      assert WithMatchOne(r, p) + WithMatchOne(last, p) == WithMatchOne(last, p) + WithMatchOne(r, p);
    }
  }

  /** The sort is stable: results with equal percentage keep their relative order. */
  lemma {:induction false} SortByMatchStable(rs: seq<PartyResult>, p: nat)
    ensures WithMatch(SortByMatch(rs), p) == WithMatch(rs, p)
    decreases |rs|
  {
    if rs != [] {
      SortByMatchStable(rs[..|rs| - 1], p);
      WithMatchInsert(SortByMatch(rs[..|rs| - 1]), rs[|rs| - 1], p);
    }
  }

  /** Insertion adds exactly `r`. */
  lemma {:induction false} InsertPermutes(s: seq<PartyResult>, r: PartyResult)
    ensures multiset(InsertByMatch(s, r)) == multiset(s) + multiset{r}
    decreases |s|
  {
    if !(s == [] || s[|s| - 1].matchPercentage >= r.matchPercentage) {
      var init, last := s[..|s| - 1], s[|s| - 1];
      InsertPermutes(init, r);
      assert s == init + [last];
    }
  }

  /** The sort only reorders: the results are a permutation of the input. */
  lemma {:induction false} SortByMatchPermutes(rs: seq<PartyResult>)
    ensures multiset(SortByMatch(rs)) == multiset(rs)
    decreases |rs|
  {
    if rs != [] {
      SortByMatchPermutes(rs[..|rs| - 1]);
      InsertPermutes(SortByMatch(rs[..|rs| - 1]), rs[|rs| - 1]);
      assert rs == rs[..|rs| - 1] + [rs[|rs| - 1]];
    }
  }

  lemma PartyIdsAppend(a: seq<PartyResult>, b: seq<PartyResult>)
    ensures PartyIds(a + b) == PartyIds(a) + PartyIds(b)
  {
  }

  lemma {:induction false} InsertPermutesIds(s: seq<PartyResult>, r: PartyResult)
    ensures multiset(PartyIds(InsertByMatch(s, r))) == multiset(PartyIds(s)) + multiset{r.partyId}
    decreases |s|
  {
    if s == [] || s[|s| - 1].matchPercentage >= r.matchPercentage {
      PartyIdsAppend(s, [r]);
    } else {
      var init, last := s[..|s| - 1], s[|s| - 1];
      InsertPermutesIds(init, r);
      PartyIdsAppend(InsertByMatch(init, r), [last]);
      PartyIdsAppend(init, [last]);
      assert s == init + [last];
    }
  }

  /** ... and so are their party ids. */
  lemma {:induction false} SortByMatchPermutesIds(rs: seq<PartyResult>)
    ensures multiset(PartyIds(SortByMatch(rs))) == multiset(PartyIds(rs))
    decreases |rs|
  {
    if rs != [] {
      var init := rs[..|rs| - 1];
      SortByMatchPermutesIds(init);
      InsertPermutesIds(SortByMatch(init), rs[|rs| - 1]);
      PartyIdsAppend(init, [rs[|rs| - 1]]);
      assert rs == init + [rs[|rs| - 1]];
    }
  }

  /** Insertion into a sorted list keeps it sorted. */
  lemma {:induction false} InsertSorted(s: seq<PartyResult>, r: PartyResult)
    requires SortedByMatch(s)
    ensures SortedByMatch(InsertByMatch(s, r))
    decreases |s|
  {
    if !(s == [] || s[|s| - 1].matchPercentage >= r.matchPercentage) {
      var init, last := s[..|s| - 1], s[|s| - 1];
      InsertSorted(init, r);
      InsertMembers(init, r);
      var ins := InsertByMatch(init, r);
      var res := ins + [last];
      assert InsertByMatch(s, r) == res;
      forall i, j | 0 <= i < j < |res| ensures res[i].matchPercentage >= res[j].matchPercentage {
        assert res[i] == ins[i];
        if j == |ins| {
          assert ins[i] in ins;
        } else {
          assert res[j] == ins[j];
        }
      }
    }
  }

  /** Insertion adds the new result and nothing else. */
  lemma {:induction false} InsertMembers(s: seq<PartyResult>, r: PartyResult)
    ensures forall x | x in InsertByMatch(s, r) :: x in s || x == r
    decreases |s|
  {
    if !(s == [] || s[|s| - 1].matchPercentage >= r.matchPercentage) {
      var init := s[..|s| - 1];
      InsertMembers(init, r);
      assert forall x | x in init :: x in s;
    }
  }

  /** The sort orders the results, highest percentage first. */
  lemma {:induction false} SortByMatchSorted(rs: seq<PartyResult>)
    ensures SortedByMatch(SortByMatch(rs))
    decreases |rs|
  {
    if rs != [] {
      SortByMatchSorted(rs[..|rs| - 1]);
      InsertSorted(SortByMatch(rs[..|rs| - 1]), rs[|rs| - 1]);
    }
  }

  // ----------------------------------------------- the looping method

  /**
   * calculateMatches as the source runs it: for each party an inner loop over
   * the answers accumulates the totals and the topic breakdown in place, a
   * second loop fills in the topic percentages, the result is pushed, and the
   * list is sorted at the end.
   */
  method CalculateMatches(input: CalculationInput) returns (results: seq<PartyResult>)
    ensures results == Matches(input)
  {
    var partyResults: seq<PartyResult> := [];
    var parties := input.partyPositions.keys;
    var i := 0;
    while i < |parties|
      invariant 0 <= i <= |parties|
      invariant partyResults == UnsortedResults(input)[..i]
    {
      var partyId := parties[i];
      var r := CalculatePartyResult(input, partyId);
      partyResults := partyResults + [r];
      assert UnsortedResults(input)[..i + 1] == UnsortedResults(input)[..i] + [UnsortedResults(input)[i]];
      i := i + 1;
    }
    assert partyResults == UnsortedResults(input);
    results := SortByMatch(partyResults);
  }

  /** The body of the outer loop of calculateMatches, for one party. */
  method CalculatePartyResult(input: CalculationInput, partyId: string) returns (r: PartyResult)
    requires partyId in input.partyPositions.vals
    ensures r == ResultFor(input, partyId)
  {
    var positions := input.partyPositions.vals[partyId];
    var totalPoints, maxPossiblePoints, topicBreakdown := TallyAnswers(input, positions);
    topicBreakdown := FillPercentages(topicBreakdown);
    var matchPercentage := if maxPossiblePoints > 0 then RoundPercent(totalPoints, maxPossiblePoints) else 0;
    r := PartyResult(partyId, matchPercentage, totalPoints, maxPossiblePoints, topicBreakdown);
  }

  /** The inner loop over the user's answers, in their insertion order. */
  method TallyAnswers(input: CalculationInput, positions: map<string, Position>)
    returns (totalPoints: nat, maxPossiblePoints: nat, topicBreakdown: OrderedMap<string, TopicScore>)
    ensures Tally(totalPoints, maxPossiblePoints, topicBreakdown) == TallyOver(input, positions, input.answers.keys)
  {
    totalPoints, maxPossiblePoints, topicBreakdown := 0, 0, Empty();
    var statementIds := input.answers.keys;
    var j := 0;
    while j < |statementIds|
      invariant 0 <= j <= |statementIds|
      invariant Tally(totalPoints, maxPossiblePoints, topicBreakdown) == TallyOver(input, positions, statementIds[..j])
    {
      var statementId := statementIds[j];
      var userAnswer := input.answers.vals[statementId];
      ghost var before := Tally(totalPoints, maxPossiblePoints, topicBreakdown);
      assert statementIds[..j + 1][..j] == statementIds[..j];
      assert TallyOver(input, positions, statementIds[..j + 1]) == AddStatement(input, positions, before, statementId);
      j := j + 1;
      if userAnswer == Skip {
        assert CountedTopic(input, positions, statementId) == None;
        continue;
      }
      if statementId !in positions {
        assert CountedTopic(input, positions, statementId) == None;
        continue;
      }
      var partyPosition := positions[statementId];
      if statementId !in input.statementTopics || input.statementTopics[statementId] == "" {
        assert CountedTopic(input, positions, statementId) == None;
        continue;
      }
      var topicId := input.statementTopics[statementId];
      assert CountedTopic(input, positions, statementId) == Some(topicId);
      var weight := if topicId in input.topicWeights then input.topicWeights[topicId] else 1;
      var points := CalculateStatementPoints(userAnswer, partyPosition);
      var weightedPoints := Weighted(points, weight);
      var maxPoints := 2 * weight;
      totalPoints := totalPoints + weightedPoints;
      maxPossiblePoints := maxPossiblePoints + maxPoints;
      topicBreakdown := UpdateTopicScore(topicBreakdown, topicId, weightedPoints, maxPoints);
    }
    assert statementIds[..j] == input.answers.keys;
  }

  /** The get-or-zero, add and set on `topicBreakdown` in the inner loop. */
  method UpdateTopicScore(topicBreakdown: OrderedMap<string, TopicScore>, topicId: string, weightedPoints: nat, maxPoints: nat)
    returns (updated: OrderedMap<string, TopicScore>)
    ensures updated == AddToTopic(topicBreakdown, topicId, weightedPoints, maxPoints)
  {
    var topicScore := if topicId in topicBreakdown.vals then topicBreakdown.vals[topicId] else ZeroScore();
    topicScore := topicScore.(score := topicScore.score + weightedPoints, maxScore := topicScore.maxScore + maxPoints);
    updated := Set(topicBreakdown, topicId, topicScore);
  }

  /** The loop over `topicBreakdown` that fills in every topic percentage. */
  method FillPercentages(breakdown: OrderedMap<string, TopicScore>) returns (topicBreakdown: OrderedMap<string, TopicScore>)
    ensures topicBreakdown == WithPercentages(breakdown)
  {
    topicBreakdown := breakdown;
    var k := 0;
    while k < |topicBreakdown.keys|
      invariant 0 <= k <= |breakdown.keys|
      invariant topicBreakdown.keys == breakdown.keys && topicBreakdown.vals.Keys == breakdown.vals.Keys
      invariant forall t | t in breakdown.vals ::
        topicBreakdown.vals[t] == if t in breakdown.keys[..k] then WithPercentage(breakdown.vals[t]) else breakdown.vals[t]
    {
      var topicId := topicBreakdown.keys[k];
      var score := topicBreakdown.vals[topicId];
      assert topicId !in breakdown.keys[..k];
      score := score.(percentage := if score.maxScore > 0 then RoundPercent(score.score, score.maxScore) else 0);
      topicBreakdown := Set(topicBreakdown, topicId, score);
      assert breakdown.keys[..k + 1] == breakdown.keys[..k] + [topicId];
      k := k + 1;
    }
    assert breakdown.keys[..k] == breakdown.keys;
    assert topicBreakdown.vals == WithPercentages(breakdown).vals;
  }

  // ------------------------------------------- properties of one party

  /** Which of a topic score's two counters a sum adds up. */
  datatype Counter = ScoreOf | MaxScoreOf

  function Count(s: TopicScore, f: Counter): nat {
    if f == ScoreOf then s.score else s.maxScore
  }

  /** The sum of `f` over the entries of `vals` listed in `keys`. */
  function Sum(keys: seq<string>, vals: map<string, TopicScore>, f: Counter): int
    requires forall k | k in keys :: k in vals
    decreases |keys|
  {
    if keys == [] then 0 else Sum(keys[..|keys| - 1], vals, f) + Count(vals[keys[|keys| - 1]], f)
  }

  lemma {:induction false} SumFresh(keys: seq<string>, vals: map<string, TopicScore>, f: Counter, t: string, v: TopicScore)
    requires forall k | k in keys :: k in vals
    requires t !in keys
    ensures Sum(keys, vals[t := v], f) == Sum(keys, vals, f)
    decreases |keys|
  {
    if keys != [] {
      SumFresh(keys[..|keys| - 1], vals, f, t, v);
    }
  }

  lemma {:induction false} SumUpdate(keys: seq<string>, vals: map<string, TopicScore>, f: Counter, t: string, v: TopicScore)
    requires forall k | k in keys :: k in vals
    requires Distinct(keys) && t in keys
    ensures Sum(keys, vals[t := v], f) == Sum(keys, vals, f) - Count(vals[t], f) + Count(v, f)
    decreases |keys|
  {
    var init := keys[..|keys| - 1];
    if keys[|keys| - 1] == t {
      assert t !in init;
      SumFresh(init, vals, f, t, v);
    } else {
      SumUpdate(init, vals, f, t, v);
    }
  }

  /** The statement ids in `ks` that count towards topic `t`. */
  ghost predicate CountsTowards(input: CalculationInput, positions: map<string, Position>, ks: seq<string>, t: string) {
    exists j | 0 <= j < |ks| :: CountedTopic(input, positions, ks[j]) == Some(t)
  }

  /** The earned points never exceed the possible points, overall and per topic. */
  lemma {:induction false} TallyBounds(input: CalculationInput, positions: map<string, Position>, ks: seq<string>)
    ensures var t := TallyOver(input, positions, ks);
      && t.total <= t.max
      && (forall tp | tp in t.breakdown.vals :: t.breakdown.vals[tp].score <= t.breakdown.vals[tp].maxScore)
    decreases |ks|
  {
    if ks != [] {
      TallyBounds(input, positions, ks[..|ks| - 1]);
    }
  }

  /** The topic scores and maxima add up to the totals. */
  predicate SumsMatch(t: Tally) {
    && Sum(t.breakdown.keys, t.breakdown.vals, ScoreOf) == t.total
    && Sum(t.breakdown.keys, t.breakdown.vals, MaxScoreOf) == t.max
  }

  lemma {:induction false} TallySums(input: CalculationInput, positions: map<string, Position>, ks: seq<string>)
    ensures SumsMatch(TallyOver(input, positions, ks))
    decreases |ks|
  {
    if ks != [] {
      var init := ks[..|ks| - 1];
      TallySums(input, positions, init);
      var acc := TallyOver(input, positions, init);
      match CountedTopic(input, positions, ks[|ks| - 1])
      case None =>
      case Some(topicId) =>
        var w := Weight(input, topicId);
        AddScoreSums(acc, topicId, Weighted(CalculateStatementPoints(input.answers.vals[ks[|ks| - 1]], positions[ks[|ks| - 1]]), w), w);
    }
  }

  lemma AddScoreSums(acc: Tally, topicId: string, points: nat, w: nat)
    requires SumsMatch(acc)
    ensures SumsMatch(AddScore(acc, topicId, points, w))
  {
    var previous := EntryOr0(acc.breakdown, topicId);
    var updated := TopicScore(previous.score + points, previous.maxScore + 2 * w, previous.percentage);
    var b := Set(acc.breakdown, topicId, updated);
    assert AddScore(acc, topicId, points, w) == Tally(acc.total + points, acc.max + 2 * w, b);
    SumAfterSet(acc.breakdown, topicId, updated, ScoreOf);
    SumAfterSet(acc.breakdown, topicId, updated, MaxScoreOf);
    assert Sum(b.keys, b.vals, ScoreOf) == acc.total + points;
    assert Sum(b.keys, b.vals, MaxScoreOf) == acc.max + 2 * w;
  }

  /** Setting one breakdown entry changes the sum by the difference of the entry. */
  lemma SumAfterSet(b: OrderedMap<string, TopicScore>, k: string, v: TopicScore, f: Counter)
    ensures var r := Set(b, k, v);
      Sum(r.keys, r.vals, f) == Sum(b.keys, b.vals, f) - Count(EntryOr0(b, k), f) + Count(v, f)
  {
    if k in b.vals {
      SumAfterSetPresent(b, k, v, f);
    } else {
      SumAfterSetFresh(b, k, v, f);
    }
  }

  lemma SumAfterSetPresent(b: OrderedMap<string, TopicScore>, k: string, v: TopicScore, f: Counter)
    requires k in b.vals
    ensures var r := Set(b, k, v);
      Sum(r.keys, r.vals, f) == Sum(b.keys, b.vals, f) - Count(b.vals[k], f) + Count(v, f)
  {
    assert k in b.keys;
    SumUpdate(b.keys, b.vals, f, k, v);
  }

  lemma SumAfterSetFresh(b: OrderedMap<string, TopicScore>, k: string, v: TopicScore, f: Counter)
    requires k !in b.vals
    ensures var r := Set(b, k, v);
      Sum(r.keys, r.vals, f) == Sum(b.keys, b.vals, f) + Count(v, f)
  {
    var r := Set(b, k, v);
    assert k !in b.keys;
    SumFresh(b.keys, b.vals, f, k, v);
    assert r.keys == b.keys + [k];
    assert r.keys[..|r.keys| - 1] == b.keys;
  }

  /** Exactly the topics of counted statements appear in the breakdown. */
  lemma {:induction false} TallyTopics(input: CalculationInput, positions: map<string, Position>, ks: seq<string>, tp: string)
    ensures tp in TallyOver(input, positions, ks).breakdown.vals <==> CountsTowards(input, positions, ks, tp)
    decreases |ks|
  {
    if ks == [] {
      return;
    }
    var init := ks[..|ks| - 1];
    TallyTopics(input, positions, init, tp);
    if CountsTowards(input, positions, ks, tp) {
      var j :| 0 <= j < |ks| && CountedTopic(input, positions, ks[j]) == Some(tp);
      if j < |init| {
        assert init[j] == ks[j];
      }
    }
    if CountsTowards(input, positions, init, tp) {
      var j :| 0 <= j < |init| && CountedTopic(input, positions, init[j]) == Some(tp);
      assert ks[j] == init[j];
    }
  }

  /**
   * Every result of calculateMatches keeps its books: points within bounds,
   * the match percentage and every topic percentage are the rounded ratio
   * (0 when nothing was possible) and lie in [0, 100], and the topic breakdown
   * adds up to the totals.
   */
  lemma PartyResultFacts(input: CalculationInput, partyId: string)
    requires partyId in input.partyPositions.vals
    ensures var r := ResultFor(input, partyId);
      && r.partyId == partyId
      && r.totalPoints <= r.maxPossiblePoints
      && r.matchPercentage <= 100
      && (r.maxPossiblePoints == 0 ==> r.matchPercentage == 0)
      && (r.maxPossiblePoints > 0 ==>
            2 * r.maxPossiblePoints * r.matchPercentage <= 200 * r.totalPoints + r.maxPossiblePoints
              < 2 * r.maxPossiblePoints * r.matchPercentage + 2 * r.maxPossiblePoints)
      && Sum(r.topicBreakdown.keys, r.topicBreakdown.vals, ScoreOf) == r.totalPoints
      && Sum(r.topicBreakdown.keys, r.topicBreakdown.vals, MaxScoreOf) == r.maxPossiblePoints
      && (forall t | t in r.topicBreakdown.vals ::
            var s := r.topicBreakdown.vals[t];
            s.score <= s.maxScore && s.percentage <= 100 && s.percentage == RoundPercent(s.score, s.maxScore))
  {
    var positions := input.partyPositions.vals[partyId];
    var t := TallyOver(input, positions, input.answers.keys);
    TallyBounds(input, positions, input.answers.keys);
    TallySums(input, positions, input.answers.keys);
    TallyResultFacts(partyId, t);
  }

  /** The facts of PartyResultFacts for the result built from any tally that keeps its books. */
  lemma TallyResultFacts(partyId: string, t: Tally)
    requires t.total <= t.max && SumsMatch(t)
    requires forall tp | tp in t.breakdown.vals :: t.breakdown.vals[tp].score <= t.breakdown.vals[tp].maxScore
    ensures var r := PartyResult(partyId, RoundPercent(t.total, t.max), t.total, t.max, WithPercentages(t.breakdown));
      && r.totalPoints <= r.maxPossiblePoints
      && r.matchPercentage <= 100
      && (r.maxPossiblePoints == 0 ==> r.matchPercentage == 0)
      && (r.maxPossiblePoints > 0 ==>
            2 * r.maxPossiblePoints * r.matchPercentage <= 200 * r.totalPoints + r.maxPossiblePoints
              < 2 * r.maxPossiblePoints * r.matchPercentage + 2 * r.maxPossiblePoints)
      && Sum(r.topicBreakdown.keys, r.topicBreakdown.vals, ScoreOf) == r.totalPoints
      && Sum(r.topicBreakdown.keys, r.topicBreakdown.vals, MaxScoreOf) == r.maxPossiblePoints
      && (forall t | t in r.topicBreakdown.vals ::
            var s := r.topicBreakdown.vals[t];
            s.score <= s.maxScore && s.percentage <= 100 && s.percentage == RoundPercent(s.score, s.maxScore))
  {
    PercentagesFacts(t.breakdown);
  }

  /** Filling in the percentages keeps the sums and gives each topic its rounded ratio. */
  lemma PercentagesFacts(b: OrderedMap<string, TopicScore>)
    requires forall tp | tp in b.vals :: b.vals[tp].score <= b.vals[tp].maxScore
    ensures var r := WithPercentages(b);
      && Sum(r.keys, r.vals, ScoreOf) == Sum(b.keys, b.vals, ScoreOf)
      && Sum(r.keys, r.vals, MaxScoreOf) == Sum(b.keys, b.vals, MaxScoreOf)
      && (forall t | t in r.vals ::
            var s := r.vals[t];
            s.score <= s.maxScore && s.percentage <= 100 && s.percentage == RoundPercent(s.score, s.maxScore))
  {
    var r := WithPercentages(b);
    SumSame(b.keys, b.vals, r.vals);
  }

  lemma {:induction false} SumSame(keys: seq<string>, a: map<string, TopicScore>, b: map<string, TopicScore>)
    requires forall k | k in keys :: k in a && k in b && a[k].score == b[k].score && a[k].maxScore == b[k].maxScore
    ensures Sum(keys, a, ScoreOf) == Sum(keys, b, ScoreOf)
    ensures Sum(keys, a, MaxScoreOf) == Sum(keys, b, MaxScoreOf)
    decreases |keys|
  {
    if keys != [] {
      SumSame(keys[..|keys| - 1], a, b);
    }
  }

  /**
   * The engine's output: exactly one result per party of `partyPositions`,
   * each the party's own, sorted highest percentage first, and parties with
   * equal percentages in the order of `partyPositions`.
   */
  lemma MatchesRanked(input: CalculationInput)
    ensures var rs := Matches(input);
      && |rs| == |input.partyPositions.keys|
      && multiset(PartyIds(rs)) == multiset(input.partyPositions.keys)
      && (forall r | r in rs :: r.partyId in input.partyPositions.vals && r == ResultFor(input, r.partyId))
      && SortedByMatch(rs)
      && (forall p: nat :: WithMatch(rs, p) == WithMatch(UnsortedResults(input), p))
  {
    var us := UnsortedResults(input);
    SortByMatchSorted(us);
    SortByMatchPermutes(us);
    SortByMatchPermutesIds(us);
    assert PartyIds(us) == input.partyPositions.keys;
    forall p: nat ensures WithMatch(Matches(input), p) == WithMatch(us, p) {
      SortByMatchStable(us, p);
    }
    forall r | r in Matches(input) ensures r.partyId in input.partyPositions.vals && r == ResultFor(input, r.partyId) {
      assert r in multiset(us);
    }
  }

  // --------------------------------------------- SKIP and uncounted answers

  function RemoveAnswer(input: CalculationInput, sid: string): CalculationInput {
    input.(answers := Remove(input.answers, sid))
  }

  /** The tally looks only at the answers to the statements it runs over. */
  lemma {:induction false} TallyFrame(a: CalculationInput, b: CalculationInput, positions: map<string, Position>, ks: seq<string>)
    requires a.topicWeights == b.topicWeights && a.statementTopics == b.statementTopics
    requires forall k | k in ks :: (k in a.answers.vals <==> k in b.answers.vals) &&
                                   (k in a.answers.vals ==> a.answers.vals[k] == b.answers.vals[k])
    ensures TallyOver(a, positions, ks) == TallyOver(b, positions, ks)
    decreases |ks|
  {
    if ks != [] {
      TallyFrame(a, b, positions, ks[..|ks| - 1]);
    }
  }

  /** Dropping a statement that does not count leaves the tally as it was. */
  lemma {:induction false} TallyWithoutUncounted(input: CalculationInput, positions: map<string, Position>, ks: seq<string>, sid: string)
    requires CountedTopic(input, positions, sid) == None
    ensures TallyOver(input, positions, Without(ks, sid)) == TallyOver(input, positions, ks)
    decreases |ks|
  {
    if ks != [] {
      var init := ks[..|ks| - 1];
      TallyWithoutUncounted(input, positions, init, sid);
      if ks[|ks| - 1] != sid {
        var w := Without(init, sid) + [ks[|ks| - 1]];
        assert w[..|w| - 1] == Without(init, sid);
      }
    }
  }

  /**
   * An answer that counts for no party (SKIP, a statement no party has a
   * position on, or one outside the statement-topic map) changes no result.
   */
  lemma UncountedAnswerIgnored(input: CalculationInput, sid: string)
    requires forall p | p in input.partyPositions.vals :: CountedTopic(input, input.partyPositions.vals[p], sid) == None
    ensures Matches(RemoveAnswer(input, sid)) == Matches(input)
  {
    var removed := RemoveAnswer(input, sid);
    forall p | p in input.partyPositions.vals ensures ResultFor(removed, p) == ResultFor(input, p) {
      var positions := input.partyPositions.vals[p];
      TallyFrame(removed, input, positions, removed.answers.keys);
      TallyWithoutUncounted(input, positions, input.answers.keys, sid);
    }
    assert UnsortedResults(removed) == UnsortedResults(input);
  }

  /** A SKIP answer changes no party's totals: it is as if the statement was not answered. */
  lemma SkipIsUnanswered(input: CalculationInput, sid: string)
    requires sid in input.answers.vals
    ensures Matches(input.(answers := Set(input.answers, sid, Skip))) == Matches(RemoveAnswer(input, sid))
  {
    var skipped := input.(answers := Set(input.answers, sid, Skip));
    assert forall p | p in skipped.partyPositions.vals :: CountedTopic(skipped, skipped.partyPositions.vals[p], sid) == None;
    UncountedAnswerIgnored(skipped, sid);
    RemoveAfterSet(input.answers, sid, Skip);
  }

  // ----------------------------------------------------- weights

  /** Twice the summed weights of the answered, non-SKIP statements of `ks` that have a topic. */
  function AnsweredMax(input: CalculationInput, ks: seq<string>): nat
    decreases |ks|
  {
    if ks == [] then 0
    else
      var sid := ks[|ks| - 1];
      var rest := AnsweredMax(input, ks[..|ks| - 1]);
      if sid in input.answers.vals && input.answers.vals[sid] != Skip
         && sid in input.statementTopics && input.statementTopics[sid] != ""
      then rest + 2 * Weight(input, input.statementTopics[sid])
      else rest
  }

  /**
   * A party with a position on every answered, non-SKIP statement that has a
   * topic can reach 2 * w points on each of them: its possible total is twice
   * their summed weights.
   */
  lemma {:induction false} FullCoverageMax(input: CalculationInput, positions: map<string, Position>, ks: seq<string>)
    requires forall k | k in ks && k in input.answers.vals && input.answers.vals[k] != Skip
                        && k in input.statementTopics && input.statementTopics[k] != "" :: k in positions
    ensures TallyOver(input, positions, ks).max == AnsweredMax(input, ks)
    decreases |ks|
  {
    if ks != [] {
      FullCoverageMax(input, positions, ks[..|ks| - 1]);
    }
  }

  function Doubled(s: TopicScore): TopicScore {
    s.(score := 2 * s.score, maxScore := 2 * s.maxScore)
  }

  /** The input with topic `topic` marked important. */
  function MarkImportant(input: CalculationInput, topic: string): CalculationInput {
    input.(topicWeights := input.topicWeights[topic := 2])
  }

  /**
   * `t2` is `t1` with topic `topic` counted twice: the same topics in the same
   * order, that topic's entry doubled, every other entry unchanged, and that
   * entry's score and maximum added once more to the totals.
   */
  predicate DoubledTally(t1: Tally, t2: Tally, topic: string) {
    var extra := EntryOr0(t1.breakdown, topic);
    && t2.breakdown.keys == t1.breakdown.keys
    && t2.breakdown.vals.Keys == t1.breakdown.vals.Keys
    && (forall tp | tp in t1.breakdown.vals ::
          t2.breakdown.vals[tp] == if tp == topic then Doubled(t1.breakdown.vals[tp]) else t1.breakdown.vals[tp])
    && t2.total == t1.total + extra.score
    && t2.max == t1.max + extra.maxScore
  }

  /** Marking a topic of weight 1 important doubles that topic's part of the tally. */
  lemma {:induction false} ImportantTopicDoubles(input: CalculationInput, positions: map<string, Position>, ks: seq<string>, topic: string)
    requires Weight(input, topic) == 1
    ensures DoubledTally(TallyOver(input, positions, ks), TallyOver(MarkImportant(input, topic), positions, ks), topic)
    decreases |ks|
  {
    if ks != [] {
      var init := ks[..|ks| - 1];
      ImportantTopicDoubles(input, positions, init, topic);
      DoubledStep(input, positions, TallyOver(input, positions, init),
        TallyOver(MarkImportant(input, topic), positions, init), ks[|ks| - 1], topic);
    }
  }

  lemma DoubledStep(input: CalculationInput, positions: map<string, Position>, a1: Tally, a2: Tally, sid: string, topic: string)
    requires Weight(input, topic) == 1
    requires DoubledTally(a1, a2, topic)
    ensures DoubledTally(AddStatement(input, positions, a1, sid), AddStatement(MarkImportant(input, topic), positions, a2, sid), topic)
  {
    var important := MarkImportant(input, topic);
    assert CountedTopic(important, positions, sid) == CountedTopic(input, positions, sid);
    match CountedTopic(input, positions, sid)
    case None =>
    case Some(tp0) =>
      var p := CalculateStatementPoints(input.answers.vals[sid], positions[sid]);
      if tp0 == topic {
        assert Weight(important, tp0) == 2;
        DoubledAddSame(a1, a2, topic, p);
      } else {
        assert Weight(important, tp0) == Weight(input, tp0);
        DoubledAddOther(a1, a2, topic, tp0, Weighted(p, Weight(input, tp0)), Weight(input, tp0));
      }
  }

  lemma DoubledAddSame(a1: Tally, a2: Tally, topic: string, p: nat)
    requires p <= 2
    requires DoubledTally(a1, a2, topic)
    ensures DoubledTally(AddScore(a1, topic, Weighted(p, 1), 1), AddScore(a2, topic, Weighted(p, 2), 2), topic)
  {
    var prev1, prev2 := EntryOr0(a1.breakdown, topic), EntryOr0(a2.breakdown, topic);
    assert prev2 == Doubled(prev1);
  }

  lemma DoubledAddOther(a1: Tally, a2: Tally, topic: string, tp0: string, points: nat, w: nat)
    requires tp0 != topic
    requires DoubledTally(a1, a2, topic)
    ensures DoubledTally(AddScore(a1, tp0, points, w), AddScore(a2, tp0, points, w), topic)
  {
    assert EntryOr0(a2.breakdown, tp0) == EntryOr0(a1.breakdown, tp0);
  }

  // ------------------------------------------- prepareCalculationInput

  datatype StatementRef = StatementRef(id: string, topicId: string)

  datatype PositionRow = PositionRow(partyId: string, statementId: string, position: string)

  predicate ValidPositionRows(rows: seq<PositionRow>) {
    forall i | 0 <= i < |rows| :: IsPositionWord(rows[i].position)
  }

  /** `topicWeights`: important topics weigh 2, others 1. */
  function WeightsOf(topicImportance: OrderedMap<string, bool>): (w: map<string, nat>)
    ensures w.Keys == topicImportance.vals.Keys
    ensures forall t | t in w :: (w[t] == 2 <==> topicImportance.vals[t]) && (w[t] == 1 <==> !topicImportance.vals[t])
  {
    map t | t in topicImportance.vals :: if topicImportance.vals[t] then 2 else 1
  }

  /** `statementTopics`: later statements with the same id overwrite earlier ones. */
  function StatementTopicsOf(statements: seq<StatementRef>): map<string, string>
    decreases |statements|
  {
    if statements == [] then map[]
    else
      var s := statements[|statements| - 1];
      StatementTopicsOf(statements[..|statements| - 1])[s.id := s.topicId]
  }

  /** `partyPositions`: rows grouped by party in order of first appearance; the last row for a pair wins. */
  function GroupByParty(rows: seq<PositionRow>): OrderedMap<string, map<string, Position>>
    requires ValidPositionRows(rows)
    decreases |rows|
  {
    if rows == [] then Empty()
    else
      assert ValidPositionRows(rows[..|rows| - 1]);
      AddRow(GroupByParty(rows[..|rows| - 1]), rows[|rows| - 1])
  }

  /** The statement positions grouped under `partyId` so far (none yet: an empty map). */
  function InnerOf(acc: OrderedMap<string, map<string, Position>>, partyId: string): map<string, Position> {
    if partyId in acc.vals then acc.vals[partyId] else map[]
  }

  /** One iteration of the grouping loop. */
  function AddRow(acc: OrderedMap<string, map<string, Position>>, r: PositionRow): OrderedMap<string, map<string, Position>>
    requires IsPositionWord(r.position)
  {
    Set(acc, r.partyId, InnerOf(acc, r.partyId)[r.statementId := PositionOf(r.position)])
  }

  function PrepareInput(
    userAnswers: OrderedMap<string, UserAnswer>,
    topicImportance: OrderedMap<string, bool>,
    statements: seq<StatementRef>,
    rows: seq<PositionRow>): CalculationInput
    requires ValidPositionRows(rows)
  {
    CalculationInput(userAnswers, WeightsOf(topicImportance), GroupByParty(rows), StatementTopicsOf(statements))
  }

  /** The first `n` entries of `m`, in order. */
  function Prefix<V>(m: OrderedMap<string, V>, n: nat): (r: OrderedMap<string, V>)
    requires n <= |m.keys|
    ensures r.keys == m.keys[..n]
    ensures forall k | k in r.vals :: k in m.vals && r.vals[k] == m.vals[k]
  {
    var ks := m.keys[..n];
    var vals := map k | k in ks :: m.vals[k];
    assert vals.Keys == set k | k in ks;
    Entries(ks, vals)
  }

  /** prepareCalculationInput, with its four filling loops. */
  method PrepareCalculationInput(
    userAnswers: OrderedMap<string, UserAnswer>,
    topicImportance: OrderedMap<string, bool>,
    statements: seq<StatementRef>,
    rows: seq<PositionRow>) returns (input: CalculationInput)
    requires ValidPositionRows(rows)
    ensures input == PrepareInput(userAnswers, topicImportance, statements, rows)
  {
    var answers := CopyAnswers(userAnswers);
    var topicWeights := FillWeights(topicImportance);
    var statementTopics := FillStatementTopics(statements);
    var partyPositions := FillPartyPositions(rows);
    input := CalculationInput(answers, topicWeights, partyPositions, statementTopics);
  }

  /** The loop copying the user's answers into a Map, in their order. */
  method CopyAnswers(userAnswers: OrderedMap<string, UserAnswer>) returns (answers: OrderedMap<string, UserAnswer>)
    ensures answers == userAnswers
  {
    answers := Empty();
    var i := 0;
    while i < |userAnswers.keys|
      invariant 0 <= i <= |userAnswers.keys|
      invariant answers == Prefix(userAnswers, i)
    {
      var statementId := userAnswers.keys[i];
      assert statementId !in userAnswers.keys[..i];
      answers := Set(answers, statementId, userAnswers.vals[statementId]);
      assert userAnswers.keys[..i + 1] == userAnswers.keys[..i] + [statementId];
      i := i + 1;
    }
    assert userAnswers.keys[..i] == userAnswers.keys;
  }

  /** The loop turning topic importance into topic weights. */
  method FillWeights(topicImportance: OrderedMap<string, bool>) returns (topicWeights: map<string, nat>)
    ensures topicWeights == WeightsOf(topicImportance)
  {
    topicWeights := map[];
    var i := 0;
    while i < |topicImportance.keys|
      invariant 0 <= i <= |topicImportance.keys|
      invariant topicWeights.Keys == set k | k in topicImportance.keys[..i]
      invariant forall t | t in topicWeights :: t in topicImportance.vals && topicWeights[t] == if topicImportance.vals[t] then 2 else 1
    {
      var topicId := topicImportance.keys[i];
      var isImportant := topicImportance.vals[topicId];
      topicWeights := topicWeights[topicId := if isImportant then 2 else 1];
      assert topicImportance.keys[..i + 1] == topicImportance.keys[..i] + [topicId];
      i := i + 1;
    }
    assert topicImportance.keys[..i] == topicImportance.keys;
    assert topicWeights.Keys == WeightsOf(topicImportance).Keys;
  }

  /** The loop mapping each statement id to its topic id. */
  method FillStatementTopics(statements: seq<StatementRef>) returns (statementTopics: map<string, string>)
    ensures statementTopics == StatementTopicsOf(statements)
  {
    statementTopics := map[];
    var i := 0;
    while i < |statements|
      invariant 0 <= i <= |statements|
      invariant statementTopics == StatementTopicsOf(statements[..i])
    {
      statementTopics := statementTopics[statements[i].id := statements[i].topicId];
      assert statements[..i + 1][..i] == statements[..i];
      i := i + 1;
    }
    assert statements[..i] == statements;
  }

  /** The loop grouping the position rows by party. */
  method FillPartyPositions(rows: seq<PositionRow>) returns (partyPositions: OrderedMap<string, map<string, Position>>)
    requires ValidPositionRows(rows)
    ensures partyPositions == GroupByParty(rows)
  {
    partyPositions := Empty();
    var i := 0;
    while i < |rows|
      invariant 0 <= i <= |rows|
      invariant ValidPositionRows(rows[..i])
      invariant partyPositions == GroupByParty(rows[..i])
    {
      var pos := rows[i];
      ghost var before := partyPositions;
      assert rows[..i + 1][..i] == rows[..i];
      if pos.partyId !in partyPositions.vals {
        partyPositions := Set(partyPositions, pos.partyId, map[]);
      }
      var inner := partyPositions.vals[pos.partyId];
      partyPositions := Set(partyPositions, pos.partyId, inner[pos.statementId := PositionOf(pos.position)]);
      assert partyPositions == AddRow(before, pos);
      i := i + 1;
    }
    assert rows[..i] == rows;
  }

  /** The statement-topic map holds, for each id, the topic of the last statement with that id. */
  lemma {:induction false} StatementTopicsLastWins(statements: seq<StatementRef>, id: string)
    ensures id in StatementTopicsOf(statements) <==> exists i | 0 <= i < |statements| :: statements[i].id == id
    ensures id in StatementTopicsOf(statements) ==>
      exists i | 0 <= i < |statements| ::
        && statements[i].id == id
        && StatementTopicsOf(statements)[id] == statements[i].topicId
        && forall j | i < j < |statements| :: statements[j].id != id
    decreases |statements|
  {
    StatementTopicsKeys(statements, id);
    if id in StatementTopicsOf(statements) {
      StatementTopicsLast(statements, id);
    }
  }

  /** The ids in the statement-topic map are the statements' ids. */
  lemma {:induction false} StatementTopicsKeys(statements: seq<StatementRef>, id: string)
    ensures id in StatementTopicsOf(statements) <==> exists i | 0 <= i < |statements| :: statements[i].id == id
    decreases |statements|
  {
    if statements != [] {
      var n := |statements| - 1;
      var init := statements[..n];
      StatementTopicsKeys(init, id);
      if id in StatementTopicsOf(init) {
        var i :| 0 <= i < n && init[i].id == id;
        assert statements[i].id == id;
      }
      if statements[n].id != id && exists i | 0 <= i < |statements| :: statements[i].id == id {
        var i :| 0 <= i < |statements| && statements[i].id == id;
        assert init[i].id == id;
      }
    }
  }

  /** A present id maps to the topic of the last statement with that id. */
  lemma {:induction false} StatementTopicsLast(statements: seq<StatementRef>, id: string)
    requires id in StatementTopicsOf(statements)
    ensures exists i | 0 <= i < |statements| ::
        && statements[i].id == id
        && StatementTopicsOf(statements)[id] == statements[i].topicId
        && forall j | i < j < |statements| :: statements[j].id != id
    decreases |statements|
  {
    var n := |statements| - 1;
    var init := statements[..n];
    if statements[n].id == id {
      assert StatementTopicsOf(statements)[id] == statements[n].topicId;
    } else {
      assert id in StatementTopicsOf(init);
      StatementTopicsLast(init, id);
      var i :| 0 <= i < n && init[i].id == id && StatementTopicsOf(init)[id] == init[i].topicId
               && forall j | i < j < n :: init[j].id != id;
      assert statements[i] == init[i];
      assert StatementTopicsOf(statements)[id] == statements[i].topicId;
    }
  }

  /** A party appears in the grouped positions iff some row names it. */
  lemma {:induction false} GroupedParties(rows: seq<PositionRow>, partyId: string)
    requires ValidPositionRows(rows)
    ensures partyId in GroupByParty(rows).vals <==> exists i | 0 <= i < |rows| :: rows[i].partyId == partyId
    decreases |rows|
  {
    if rows != [] {
      var init := rows[..|rows| - 1];
      assert ValidPositionRows(init);
      GroupedParties(init, partyId);
      if exists i | 0 <= i < |rows| :: rows[i].partyId == partyId {
        var i :| 0 <= i < |rows| && rows[i].partyId == partyId;
        if i < |init| {
          assert init[i] == rows[i];
        }
      }
      if exists i | 0 <= i < |init| :: init[i].partyId == partyId {
        var i :| 0 <= i < |init| && init[i].partyId == partyId;
        assert rows[i] == init[i];
      }
    }
  }

  /** The grouping holds a position for party `partyId` on statement `statementId`. */
  predicate HasPair(g: OrderedMap<string, map<string, Position>>, partyId: string, statementId: string) {
    partyId in g.vals && statementId in g.vals[partyId]
  }

  /** Row `i` names the pair (partyId, statementId). */
  predicate RowFor(rows: seq<PositionRow>, i: int, partyId: string, statementId: string) {
    0 <= i < |rows| && rows[i].partyId == partyId && rows[i].statementId == statementId
  }

  /** Row `i` is the last row for the pair (partyId, statementId). */
  predicate LastRowFor(rows: seq<PositionRow>, i: int, partyId: string, statementId: string) {
    && RowFor(rows, i, partyId, statementId)
    && forall j | i < j < |rows| :: !RowFor(rows, j, partyId, statementId)
  }

  /** One row adds its own pair and keeps every other pair's position. */
  lemma AddRowPairs(acc: OrderedMap<string, map<string, Position>>, r: PositionRow, partyId: string, statementId: string)
    requires IsPositionWord(r.position)
    ensures var g := AddRow(acc, r);
      && (HasPair(g, partyId, statementId) <==>
            HasPair(acc, partyId, statementId) || (r.partyId == partyId && r.statementId == statementId))
      && (r.partyId == partyId && r.statementId == statementId ==> g.vals[partyId][statementId] == PositionOf(r.position))
      && (HasPair(acc, partyId, statementId) && !(r.partyId == partyId && r.statementId == statementId) ==>
            g.vals[partyId][statementId] == acc.vals[partyId][statementId])
  {
  }

  /** A pair has a position iff some row names it. */
  lemma {:induction false} GroupedPairs(rows: seq<PositionRow>, partyId: string, statementId: string)
    requires ValidPositionRows(rows)
    ensures HasPair(GroupByParty(rows), partyId, statementId) <==> exists i :: RowFor(rows, i, partyId, statementId)
    decreases |rows|
  {
    if rows != [] {
      var init := rows[..|rows| - 1];
      assert ValidPositionRows(init);
      GroupedPairs(init, partyId, statementId);
      AddRowPairs(GroupByParty(init), rows[|rows| - 1], partyId, statementId);
      if rows[|rows| - 1].partyId == partyId && rows[|rows| - 1].statementId == statementId {
        assert RowFor(rows, |rows| - 1, partyId, statementId);
      }
      if exists i :: RowFor(rows, i, partyId, statementId) {
        var i :| RowFor(rows, i, partyId, statementId);
        if i < |init| {
          assert init[i] == rows[i] && RowFor(init, i, partyId, statementId);
        } else {
          assert rows[|rows| - 1] == rows[i];
        }
      }
      if exists i :: RowFor(init, i, partyId, statementId) {
        var i :| RowFor(init, i, partyId, statementId);
        assert rows[i] == init[i] && RowFor(rows, i, partyId, statementId);
      }
    }
  }

  /** The position of a pair is the one of the last row naming it. */
  lemma {:induction false} GroupedLastRow(rows: seq<PositionRow>, partyId: string, statementId: string)
    requires ValidPositionRows(rows)
    requires HasPair(GroupByParty(rows), partyId, statementId)
    ensures exists i ::
      LastRowFor(rows, i, partyId, statementId) && GroupByParty(rows).vals[partyId][statementId] == PositionOf(rows[i].position)
    decreases |rows|
  {
    var init := rows[..|rows| - 1];
    var n := |rows| - 1;
    assert ValidPositionRows(init);
    AddRowPairs(GroupByParty(init), rows[n], partyId, statementId);
    if rows[n].partyId == partyId && rows[n].statementId == statementId {
      assert LastRowFor(rows, n, partyId, statementId);
    } else {
      GroupedLastRow(init, partyId, statementId);
      var i :| LastRowFor(init, i, partyId, statementId)
        && GroupByParty(init).vals[partyId][statementId] == PositionOf(init[i].position);
      LastRowExtend(rows, i, partyId, statementId);
      assert GroupByParty(rows).vals[partyId][statementId] == PositionOf(rows[i].position);
    }
  }

  /** A last row stays the last one when a row for another pair follows. */
  lemma LastRowExtend(rows: seq<PositionRow>, i: int, partyId: string, statementId: string)
    requires rows != [] && LastRowFor(rows[..|rows| - 1], i, partyId, statementId)
    requires !RowFor(rows, |rows| - 1, partyId, statementId)
    ensures LastRowFor(rows, i, partyId, statementId) && rows[i] == rows[..|rows| - 1][i]
  {
    var init := rows[..|rows| - 1];
    forall j | i < j < |rows| ensures !RowFor(rows, j, partyId, statementId) {
      if j < |init| {
        assert rows[j] == init[j] && !RowFor(init, j, partyId, statementId);
      }
    }
  }

  /** A party without position rows gets no result at all. */
  lemma PartyWithoutRowsHasNoResult(
    userAnswers: OrderedMap<string, UserAnswer>,
    topicImportance: OrderedMap<string, bool>,
    statements: seq<StatementRef>,
    rows: seq<PositionRow>,
    partyId: string)
    requires ValidPositionRows(rows)
    requires forall i | 0 <= i < |rows| :: rows[i].partyId != partyId
    ensures forall r | r in Matches(PrepareInput(userAnswers, topicImportance, statements, rows)) :: r.partyId != partyId
  {
    var input := PrepareInput(userAnswers, topicImportance, statements, rows);
    GroupedParties(rows, partyId);
    MatchesRanked(input);
  }
}
