/**
 * The comparison page (app/routes/vaa/compare.tsx): the user's answers side
 * by side with the positions of up to four selected parties, statement by
 * statement, each cell marked by `GetMatchStatus`.
 */
module Compare {
  import opened Wrappers
  import opened OrderedMaps
  import opened VaaAlgorithm
  import opened VaaState
  import opened CatalogueData

  /** A party as the page uses it: its id, in the loader's name order. */
  datatype PartyRef = PartyRef(id: string, name: string)

  /** What the loader reads from the database: active statements, parties by name, all positions, topics. */
  datatype CompareRecords = CompareRecords(
    statements: seq<StatementRef>, parties: seq<PartyRef>, positions: seq<PositionRow>, topics: seq<Topic>)

  /** statementId -> partyId -> stored position string. */
  type PositionMap = map<string, map<string, string>>

  datatype CompareData =
    | CompareFailed(error: string)   // with no statements, parties, topics and answers
    | CompareLoaded(statements: seq<StatementRef>, parties: seq<PartyRef>, topics: seq<Topic>,
                    userAnswers: OrderedMap<string, UserAnswer>, positionMap: PositionMap)

  // --------------------------------------------------------- position map

  /** One iteration of the loader's loop: create the inner record if missing, then set the pair. */
  function AddPosition(m: PositionMap, r: PositionRow): PositionMap {
    var inner := if r.statementId in m then m[r.statementId] else map[];
    m[r.statementId := inner[r.partyId := r.position]]
  }

  /** The position map after the loop has run over `rows`. */
  function PositionMapOf(rows: seq<PositionRow>): PositionMap
    decreases |rows|
  {
    if rows == [] then map[] else AddPosition(PositionMapOf(rows[..|rows| - 1]), rows[|rows| - 1])
  }

  /** `positionMap[statementId]?.[partyId]` is defined. */
  predicate Holds(m: PositionMap, statementId: string, partyId: string) {
    statementId in m && partyId in m[statementId]
  }

  /** The loader's loop over the position rows. */
  method BuildPositionMap(positions: seq<PositionRow>) returns (positionMap: PositionMap)
    ensures positionMap == PositionMapOf(positions)
  {
    positionMap := map[];
    var i := 0;
    while i < |positions|
      invariant 0 <= i <= |positions|
      invariant positionMap == PositionMapOf(positions[..i])
    {
      var pos := positions[i];
      if pos.statementId !in positionMap {
        positionMap := positionMap[pos.statementId := map[]];
      }
      positionMap := positionMap[pos.statementId := positionMap[pos.statementId][pos.partyId := pos.position]];
      assert positions[..i + 1][..i] == positions[..i];
      i := i + 1;
    }
    assert positions[..i] == positions;
  }

  /** A pair is in the map iff some row names it, and then it holds the last such row's position. */
  lemma {:induction false} PositionMapLastWins(rows: seq<PositionRow>, statementId: string, partyId: string)
    ensures Holds(PositionMapOf(rows), statementId, partyId) <==> exists i :: RowFor(rows, i, partyId, statementId)
    ensures Holds(PositionMapOf(rows), statementId, partyId) ==>
      exists i :: LastRowFor(rows, i, partyId, statementId) && PositionMapOf(rows)[statementId][partyId] == rows[i].position
    decreases |rows|
  {
    if rows != [] {
      var n := |rows| - 1;
      var init := rows[..n];
      PositionMapLastWins(init, statementId, partyId);
      if RowFor(rows, n, partyId, statementId) {
        assert LastRowFor(rows, n, partyId, statementId);
      } else {
        if exists i :: RowFor(rows, i, partyId, statementId) {
          var i :| RowFor(rows, i, partyId, statementId);
          assert init[i] == rows[i] && RowFor(init, i, partyId, statementId);
        }
        if exists i :: RowFor(init, i, partyId, statementId) {
          var i :| RowFor(init, i, partyId, statementId);
          assert rows[i] == init[i] && RowFor(rows, i, partyId, statementId);
          var k :| LastRowFor(init, k, partyId, statementId) && PositionMapOf(init)[statementId][partyId] == init[k].position;
          LastRowExtend(rows, k, partyId, statementId);
        }
      }
    }
  }

  /** The loader: the two error results, or the records with the decoded answers and the position map. */
  method Loader(c: Codec, encodedData: Option<string>, db: CompareRecords) returns (d: CompareData)
    ensures encodedData.None? || encodedData == Some("") ==> d == CompareFailed("no_data")
    ensures encodedData.Some? && encodedData != Some("") && DecodeVAAResults(c, encodedData.value).None? ==> d == CompareFailed("invalid_data")
    ensures d.CompareLoaded? <==> encodedData.Some? && encodedData != Some("") && DecodeVAAResults(c, encodedData.value).Some?
    ensures d.CompareLoaded? ==>
      d == CompareLoaded(db.statements, db.parties, db.topics, DecodeVAAResults(c, encodedData.value).value.answers, PositionMapOf(db.positions))
  {
    if encodedData.None? || encodedData.value == "" {
      return CompareFailed("no_data");
    }
    var decoded := DecodeVAAResults(c, encodedData.value);
    if decoded.None? {
      return CompareFailed("invalid_data");
    }
    var positionMap := BuildPositionMap(db.positions);
    d := CompareLoaded(db.statements, db.parties, db.topics, decoded.value.answers, positionMap);
  }

  // --------------------------------------------------------- match status

  datatype MatchStatus = StatusNeutral | StatusMatch | StatusPartial | StatusMismatch

  /** getMatchStatus, on the strings the page passes in ("" for a missing answer or position). */
  function GetMatchStatus(userAnswer: string, partyPosition: string): (m: MatchStatus)
    ensures m == StatusNeutral <==> partyPosition == "" || userAnswer == "SKIP"
    ensures m == StatusMatch <==> partyPosition != "" && userAnswer != "SKIP" && userAnswer == partyPosition
    ensures m == StatusPartial <==>
      partyPosition != "" && userAnswer != "SKIP" && userAnswer != partyPosition && (userAnswer == "NEUTRAL" || partyPosition == "NEUTRAL")
  {
    if partyPosition == "" || userAnswer == "SKIP" then StatusNeutral
    else if userAnswer == partyPosition then StatusMatch
    else if userAnswer == "NEUTRAL" || partyPosition == "NEUTRAL" then StatusPartial
    else StatusMismatch
  }

  /** The answer as the wire spells it. */
  function AnswerWord(a: UserAnswer): string {
    match a
    case Skip => "SKIP"
    case Stated(p) => PositionWord(p)
  }

  /** The status of one table cell: `getMatchStatus(userAnswer || "", partyPosition || "")`. */
  function CellStatus(d: CompareData, statementId: string, partyId: string): MatchStatus
    requires d.CompareLoaded?
  {
    var answer := if statementId in d.userAnswers.vals then AnswerWord(d.userAnswers.vals[statementId]) else "";
    var position := if Holds(d.positionMap, statementId, partyId) then d.positionMap[statementId][partyId] else "";
    GetMatchStatus(answer, position)
  }

  /** For an answered statement and a stored position, match, partial and mismatch are 2, 1 and 0 points. */
  lemma MatchStatusAgreesWithScoring(user: Position, party: Position)
    ensures GetMatchStatus(PositionWord(user), PositionWord(party)) ==
      match ScoringMatrix(user, party)
      case 2 => StatusMatch
      case 1 => StatusPartial
      case _ => StatusMismatch
  {
  }

  /** The cell of an answered statement agrees with the points the engine gives. */
  lemma CellAgreesWithEngine(d: CompareData, statementId: string, partyId: string)
    requires d.CompareLoaded?
    requires statementId in d.userAnswers.vals && d.userAnswers.vals[statementId].Stated?
    requires Holds(d.positionMap, statementId, partyId) && IsPositionWord(d.positionMap[statementId][partyId])
    ensures var points := CalculateStatementPoints(d.userAnswers.vals[statementId], PositionOf(d.positionMap[statementId][partyId]));
      && (CellStatus(d, statementId, partyId) == StatusMatch <==> points == 2)
      && (CellStatus(d, statementId, partyId) == StatusPartial <==> points == 1)
      && (CellStatus(d, statementId, partyId) == StatusMismatch <==> points == 0)
  {
    MatchStatusAgreesWithScoring(d.userAnswers.vals[statementId].stance, PositionOf(d.positionMap[statementId][partyId]));
  }

  /** An unanswered statement is partial against a NEUTRAL party and a mismatch against any other stored position. */
  lemma UnansweredCell(d: CompareData, statementId: string, partyId: string)
    requires d.CompareLoaded?
    requires statementId !in d.userAnswers.vals
    ensures !Holds(d.positionMap, statementId, partyId) ==> CellStatus(d, statementId, partyId) == StatusNeutral
    ensures Holds(d.positionMap, statementId, partyId) && d.positionMap[statementId][partyId] == "NEUTRAL" ==>
      CellStatus(d, statementId, partyId) == StatusPartial
    ensures Holds(d.positionMap, statementId, partyId) && d.positionMap[statementId][partyId] !in {"", "NEUTRAL"} ==>
      CellStatus(d, statementId, partyId) == StatusMismatch
  {
  }

  // ----------------------------------------------------------- the filter

  /** `statements.filter(s => s.topicId === topicId)`. */
  function ByTopic(statements: seq<StatementRef>, topicId: string): (r: seq<StatementRef>)
    ensures forall s :: s in r <==> s in statements && s.topicId == topicId
    ensures |r| <= |statements|
    ensures |statements| == 1 ==> r == if statements[0].topicId == topicId then statements else []
    decreases |statements|
  {
    if statements == [] then []
    else
      var last := statements[|statements| - 1];
      var init := statements[..|statements| - 1];
      assert forall s :: s in statements <==> s in init || s == last;
      ByTopic(init, topicId) + (if last.topicId == topicId then [last] else [])
  }

  /** The filter distributes over concatenation, so the kept statements stay in their order. */
  lemma {:induction false} ByTopicAppend(a: seq<StatementRef>, b: seq<StatementRef>, topicId: string)
    ensures ByTopic(a + b, topicId) == ByTopic(a, topicId) + ByTopic(b, topicId)
    decreases |b|
  {
    if b == [] {
      assert a + b == a;
    } else {
      var init, last := b[..|b| - 1], b[|b| - 1];
      var tail := if last.topicId == topicId then [last] else [];
      assert (a + b)[..|a + b| - 1] == a + init;
      assert (a + b)[|a + b| - 1] == last;
      assert ByTopic(a + b, topicId) == ByTopic(a + init, topicId) + tail;
      ByTopicAppend(a, init, topicId);
      assert ByTopic(b, topicId) == ByTopic(init, topicId) + tail;
    }
  }

  /** filteredStatements: all of them for "all", otherwise those of the chosen topic. */
  function FilteredStatements(statements: seq<StatementRef>, filterTopic: string): (r: seq<StatementRef>)
    ensures filterTopic == "all" ==> r == statements
    ensures filterTopic != "all" ==> forall s :: s in r <==> s in statements && s.topicId == filterTopic
    ensures filterTopic != "all" ==> r == ByTopic(statements, filterTopic)
  {
    if filterTopic == "all" then statements else ByTopic(statements, filterTopic)
  }

  // -------------------------------------------------------- the selection

  /** `parties.slice(0, 3).map(p => p.id)`. */
  function InitialSelection(parties: seq<PartyRef>): (ids: seq<string>)
    ensures |ids| == if |parties| < 3 then |parties| else 3
    ensures forall i | 0 <= i < |ids| :: ids[i] == parties[i].id
  {
    var n := if |parties| < 3 then |parties| else 3;
    seq(n, i requires 0 <= i < n => parties[i].id)
  }

  /** toggleParty on the selection `sel`. */
  function Toggled(sel: seq<string>, partyId: string): (r: seq<string>)
    ensures partyId in sel && |sel| > 1 ==> partyId !in r && forall x | x != partyId :: x in r <==> x in sel
    ensures partyId in sel && |sel| > 1 ==> r == Without(sel, partyId)
    ensures partyId in sel && |sel| <= 1 ==> r == sel
    ensures partyId !in sel && |sel| < 4 ==> r == sel + [partyId]
    ensures partyId !in sel && |sel| >= 4 ==> r == sel
  {
    if partyId in sel then
      if |sel| > 1 then Without(sel, partyId) else sel
    else if |sel| < 4 then sel + [partyId]
    else sel
  }

  /** Removing a member of a duplicate-free sequence shortens it by exactly one. */
  lemma {:induction false} WithoutMemberLength(s: seq<string>, k: string)
    requires Distinct(s) && k in s
    ensures |Without(s, k)| == |s| - 1
    decreases |s|
  {
    var init := s[..|s| - 1];
    assert Distinct(init);
    if s[|s| - 1] != k {
      assert k in init;
      WithoutMemberLength(init, k);
    } else {
      assert k !in init;
    }
  }

  /** A usable selection: no duplicates, at least one and at most four parties. */
  predicate ValidSelection(sel: seq<string>) {
    Distinct(sel) && 1 <= |sel| <= 4
  }

  /** toggleParty never adds a duplicate, never grows past four, and never removes the last party. */
  lemma ToggleKeepsValid(sel: seq<string>, partyId: string)
    requires ValidSelection(sel)
    ensures ValidSelection(Toggled(sel, partyId))
  {
    if partyId in sel && |sel| > 1 {
      WithoutMemberLength(sel, partyId);
    }
  }

  /** The selection after toggling each of `ids` in turn. */
  function ToggleAll(sel: seq<string>, ids: seq<string>): seq<string>
    decreases |ids|
  {
    if ids == [] then sel else Toggled(ToggleAll(sel, ids[..|ids| - 1]), ids[|ids| - 1])
  }

  /** Starting from the initial selection of distinct parties, every sequence of toggles keeps the selection valid. */
  lemma {:induction false} TogglesKeepValid(parties: seq<PartyRef>, ids: seq<string>)
    requires |parties| > 0
    requires forall i, j | 0 <= i < j < |parties| :: parties[i].id != parties[j].id
    ensures ValidSelection(ToggleAll(InitialSelection(parties), ids))
    decreases |ids|
  {
    if ids == [] {
      assert ValidSelection(InitialSelection(parties));
    } else {
      TogglesKeepValid(parties, ids[..|ids| - 1]);
      ToggleKeepsValid(ToggleAll(InitialSelection(parties), ids[..|ids| - 1]), ids[|ids| - 1]);
    }
  }

  /** The page's party selection. */
  class Selection {
    var selectedParties: seq<string>

    constructor (parties: seq<PartyRef>)
      ensures selectedParties == InitialSelection(parties)
    {
      selectedParties := InitialSelection(parties);
    }

    method ToggleParty(partyId: string)
      modifies this
      ensures selectedParties == Toggled(old(selectedParties), partyId)
    {
      if partyId in selectedParties {
        if |selectedParties| > 1 {
          selectedParties := Without(selectedParties, partyId);
        }
      } else if |selectedParties| < 4 {
        selectedParties := selectedParties + [partyId];
      }
    }
  }
}
