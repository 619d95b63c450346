/**
 * The scoring endpoint (app/routes/api/vaa/calculate.tsx): a POST with a JSON
 * body `{ answers, topicImportance }` is scored against the active statements
 * and all stored positions, and each result is returned with its party's
 * details and its topic breakdown named.
 */
module CalculateApi {
  import opened Wrappers
  import opened OrderedMaps
  import opened VaaAlgorithm
  import opened CatalogueData
  import opened Results

  /** The `answers` property of the body, as the validity check sees it. */
  datatype AnswersField =
    | AnswersFalsy                                   // missing, null, false, 0 or ""
    | AnswersNonObject                               // a true, a non-zero number or a non-empty string
    | AnswersObject(answers: OrderedMap<string, UserAnswer>)

  /** The request body as `request.json()` and the destructuring leave it. */
  datatype Body =
    | BodyUnparsable                                 // request.json() throws
    | BodyNull                                       // destructuring null throws
    | BodyValue(answers: AnswersField, topicImportance: Option<OrderedMap<string, bool>>)
                                                     // any other value; a missing or falsy importance is None

  /** A party record, with the fields the response copies. */
  datatype DbParty = DbParty(id: string, name: string, nameEn: string, shortName: string, color: string, logoUrl: Option<string>)

  /** What the endpoint reads from the database. */
  datatype Records = Records(statements: seq<Statement>, parties: seq<DbParty>, positions: seq<PositionRow>, topics: seq<Topic>)

  datatype ApiTopicEntry = ApiTopicEntry(
    topicId: string, topicName: string, topicNameEn: string, topicIcon: string,
    score: nat, maxScore: nat, percentage: nat)

  datatype ApiResult = ApiResult(
    partyId: string, matchPercentage: nat, totalPoints: nat, maxPossiblePoints: nat,
    party: Option<DbParty>,                          // null when the party is unknown
    topicBreakdown: seq<ApiTopicEntry>)

  datatype ResponseBody = PlainText(text: string) | ErrorJson(error: string) | ResultsJson(results: seq<ApiResult>)

  datatype Response = Response(status: nat, body: ResponseBody)

  /** `parties.find(p => p.id === id)`: the first party with that id. */
  function FindDbParty(parties: seq<DbParty>, id: string): (r: Option<DbParty>)
    ensures r.Some? <==> exists i | 0 <= i < |parties| :: parties[i].id == id
    ensures r.Some? ==> r.value in parties && r.value.id == id
    ensures r.Some? ==> exists i | 0 <= i < |parties| :: parties[i] == r.value &&
                                  forall j | 0 <= j < i :: parties[j].id != id
    decreases |parties|
  {
    if parties == [] then None
    else if parties[0].id == id then Some(parties[0])
    else
      var r := FindDbParty(parties[1..], id);
      assert forall i | 0 <= i < |parties[1..]| :: parties[1..][i] == parties[i + 1];
      r
  }

  /** One breakdown entry with `topic?.name || ""`, `topic?.nameEn || ""` and `topic?.icon || ""`. */
  function ApiTopicEntryOf(topics: seq<Topic>, topicId: string, score: TopicScore): (e: ApiTopicEntry)
    ensures e.topicId == topicId
    ensures (e.score, e.maxScore, e.percentage) == (score.score, score.maxScore, score.percentage)
    ensures FindTopic(topics, topicId).None? ==> e.topicName == "" && e.topicNameEn == "" && e.topicIcon == ""
    ensures FindTopic(topics, topicId).Some? ==>
      var t := FindTopic(topics, topicId).value;
      e.topicName == t.name && e.topicNameEn == t.nameEn && e.topicIcon == t.icon
  {
    match FindTopic(topics, topicId)
    case None => ApiTopicEntry(topicId, "", "", "", score.score, score.maxScore, score.percentage)
    case Some(t) => ApiTopicEntry(topicId, t.name, t.nameEn, t.icon, score.score, score.maxScore, score.percentage)
  }

  /** One element of the enrichment `results.map(...)`. */
  function ApiEnrich(db: Records, r: PartyResult): (e: ApiResult)
    ensures (e.partyId, e.matchPercentage, e.totalPoints, e.maxPossiblePoints) ==
            (r.partyId, r.matchPercentage, r.totalPoints, r.maxPossiblePoints)
    ensures e.party == FindDbParty(db.parties, r.partyId)
    ensures |e.topicBreakdown| == |r.topicBreakdown.keys|
    ensures forall i | 0 <= i < |e.topicBreakdown| ::
      e.topicBreakdown[i] == ApiTopicEntryOf(db.topics, r.topicBreakdown.keys[i], r.topicBreakdown.vals[r.topicBreakdown.keys[i]])
  {
    var entries := EntryList(r.topicBreakdown);
    var breakdown := seq(|entries|, i requires 0 <= i < |entries| => ApiTopicEntryOf(db.topics, entries[i].0, entries[i].1));
    ApiResult(r.partyId, r.matchPercentage, r.totalPoints, r.maxPossiblePoints, FindDbParty(db.parties, r.partyId), breakdown)
  }

  /** The engine input: the answers, `topicImportance || {}`, the active statements and the positions. */
  function ApiInput(answers: OrderedMap<string, UserAnswer>, topicImportance: Option<OrderedMap<string, bool>>, db: Records): CalculationInput
    requires ValidPositionRows(db.positions)
  {
    PrepareInput(answers, topicImportance.GetOr(Empty()), ActiveRefs(db.statements), db.positions)
  }

  /** The action; `db` is None when a database call throws. */
  function Action(httpMethod: string, body: Body, db: Option<Records>): (resp: Response)
    requires db.Some? ==> ValidPositionRows(db.value.positions)
    ensures httpMethod != "POST" ==> resp == Response(405, PlainText("Method not allowed"))
    ensures httpMethod == "POST" && (body.BodyUnparsable? || body.BodyNull?) ==> resp == Response(500, ErrorJson("Calculation failed"))
    ensures httpMethod == "POST" && body.BodyValue? && !body.answers.AnswersObject? ==> resp == Response(400, ErrorJson("Invalid answers"))
    ensures httpMethod == "POST" && body.BodyValue? && body.answers.AnswersObject? && db.None? ==> resp == Response(500, ErrorJson("Calculation failed"))
    ensures resp.status == 200 <==> httpMethod == "POST" && body.BodyValue? && body.answers.AnswersObject? && db.Some?
    ensures resp.status == 200 ==>
      var rs := Matches(ApiInput(body.answers.answers, body.topicImportance, db.value));
      && resp.body.ResultsJson?
      && |resp.body.results| == |rs|
      && forall i | 0 <= i < |rs| :: resp.body.results[i] == ApiEnrich(db.value, rs[i])
  {
    if httpMethod != "POST" then Response(405, PlainText("Method not allowed"))
    else
      match body
      case BodyUnparsable => Response(500, ErrorJson("Calculation failed"))
      case BodyNull => Response(500, ErrorJson("Calculation failed"))
      case BodyValue(answers, topicImportance) =>
        if !answers.AnswersObject? then Response(400, ErrorJson("Invalid answers"))
        else
          match db
          case None => Response(500, ErrorJson("Calculation failed"))
          case Some(records) =>
            var results := Matches(ApiInput(answers.answers, topicImportance, records));
            Response(200, ResultsJson(seq(|results|, i requires 0 <= i < |results| => ApiEnrich(records, results[i]))))
  }

  /** Without `topicImportance` every topic weighs 1. */
  lemma MissingImportanceWeighsOne(answers: OrderedMap<string, UserAnswer>, db: Records, topicId: string)
    requires ValidPositionRows(db.positions)
    ensures Weight(ApiInput(answers, None, db), topicId) == 1
  {
  }

  /** An answer to a statement that is not active changes no result. */
  lemma ApiInactiveAnswerIgnored(answers: OrderedMap<string, UserAnswer>, topicImportance: Option<OrderedMap<string, bool>>, db: Records, sid: string)
    requires ValidPositionRows(db.positions)
    requires forall s | s in db.statements && s.id == sid :: !s.isActive
    ensures Matches(ApiInput(Remove(answers, sid), topicImportance, db)) == Matches(ApiInput(answers, topicImportance, db))
  {
    var input := ApiInput(answers, topicImportance, db);
    NoActiveStatementNoTopic(db.statements, sid);
    assert ApiInput(Remove(answers, sid), topicImportance, db) == RemoveAnswer(input, sid);
    UncountedAnswerIgnored(input, sid);
  }

  /** A successful response lists the parties best match first, each percentage in [0, 100]. */
  lemma ApiResultsRanked(httpMethod: string, body: Body, db: Option<Records>)
    requires db.Some? ==> ValidPositionRows(db.value.positions)
    requires Action(httpMethod, body, db).status == 200
    ensures var rs := Action(httpMethod, body, db).body.results;
      && (forall i, j | 0 <= i < j < |rs| :: rs[i].matchPercentage >= rs[j].matchPercentage)
      && (forall i | 0 <= i < |rs| :: rs[i].matchPercentage <= 100 && rs[i].totalPoints <= rs[i].maxPossiblePoints)
  {
    var input := ApiInput(body.answers.answers, body.topicImportance, db.value);
    MatchesRanked(input);
    forall r | r in Matches(input) ensures r.matchPercentage <= 100 && r.totalPoints <= r.maxPossiblePoints {
      PartyResultFacts(input, r.partyId);
    }
  }
}
