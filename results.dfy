/**
 * The results page (app/routes/vaa/results.tsx): its loader decodes the token
 * from the `data` query parameter, scores the answers against the catalogue's
 * active statements and all party positions, and attaches party and topic
 * details to each result; the retake button clears the stored session.
 */
module Results {
  import opened Wrappers
  import opened OrderedMaps
  import opened Percent
  import opened VaaAlgorithm
  import opened VaaState
  import opened CatalogueData

  /** A topic-breakdown entry with the topic's slug and names attached. */
  datatype TopicEntry = TopicEntry(
    topicId: string, topicSlug: string, topicName: string, topicNameEn: string,
    score: nat, maxScore: nat, percentage: nat)

  /** An engine result with its party (undefined when unknown) and its enriched breakdown. */
  datatype EnrichedResult = EnrichedResult(
    partyId: string, matchPercentage: nat, totalPoints: nat, maxPossiblePoints: nat,
    party: Option<Party>, topicBreakdown: seq<TopicEntry>)

  /**
   * What the loader returns: an error with `results: null` and no parties or
   * topics, or the enriched results with the catalogue's parties and topics.
   */
  datatype LoaderData =
    | Failed(error: string)
    | Loaded(results: seq<EnrichedResult>, parties: seq<Party>, topics: seq<Topic>, answeredCount: nat)

  /** `allStatements.filter(s => s.isActive).map(s => ({ id: s.id, topicId: s.topicId }))`. */
  function ActiveRefs(statements: seq<Statement>): (refs: seq<StatementRef>)
    ensures forall r | r in refs :: exists s | s in statements :: s.isActive && r == StatementRef(s.id, s.topicId)
    ensures forall s | s in statements && s.isActive :: StatementRef(s.id, s.topicId) in refs
    decreases |statements|
  {
    if statements == [] then []
    else
      var init := statements[..|statements| - 1];
      var last := statements[|statements| - 1];
      assert forall s | s in statements :: s in init || s == last;
      ActiveRefs(init) + (if last.isActive then [StatementRef(last.id, last.topicId)] else [])
  }

  /** `topic?.field || ""`: the field of a found topic, or the empty string. */
  function TopicEntryOf(topics: seq<Topic>, topicId: string, score: TopicScore): (e: TopicEntry)
    ensures e.topicId == topicId
    ensures (e.score, e.maxScore, e.percentage) == (score.score, score.maxScore, score.percentage)
    ensures FindTopic(topics, topicId).None? ==> e.topicSlug == "" && e.topicName == "" && e.topicNameEn == ""
    ensures FindTopic(topics, topicId).Some? ==>
      var t := FindTopic(topics, topicId).value;
      e.topicSlug == t.slug && e.topicName == t.name && e.topicNameEn == t.nameEn
  {
    match FindTopic(topics, topicId)
    case None => TopicEntry(topicId, "", "", "", score.score, score.maxScore, score.percentage)
    case Some(t) => TopicEntry(topicId, t.slug, t.name, t.nameEn, score.score, score.maxScore, score.percentage)
  }

  /** One element of the `results.map(...)` enrichment. */
  function Enrich(cat: Catalogue, r: PartyResult): (e: EnrichedResult)
    ensures (e.partyId, e.matchPercentage, e.totalPoints, e.maxPossiblePoints) ==
            (r.partyId, r.matchPercentage, r.totalPoints, r.maxPossiblePoints)
    ensures e.party == FindParty(cat.parties, r.partyId)
    ensures |e.topicBreakdown| == |r.topicBreakdown.keys|
    ensures forall i | 0 <= i < |e.topicBreakdown| ::
      e.topicBreakdown[i] == TopicEntryOf(cat.topics, r.topicBreakdown.keys[i], r.topicBreakdown.vals[r.topicBreakdown.keys[i]])
  {
    var entries := EntryList(r.topicBreakdown);
    var breakdown := seq(|entries|, i requires 0 <= i < |entries| => TopicEntryOf(cat.topics, entries[i].0, entries[i].1));
    EnrichedResult(r.partyId, r.matchPercentage, r.totalPoints, r.maxPossiblePoints, FindParty(cat.parties, r.partyId), breakdown)
  }

  /** The engine input the loader builds from the decoded token. */
  function InputFor(cat: Catalogue, decoded: Decoded): CalculationInput
    requires ValidPositionRows(Flatten(cat.positions))
  {
    PrepareInput(decoded.answers, decoded.topicImportance, ActiveRefs(cat.statements), Flatten(cat.positions))
  }

  /** The loader, for a catalogue `cat` and the `data` query parameter (None when absent). */
  function Loader(c: Codec, cat: Catalogue, encodedData: Option<string>): (d: LoaderData)
    requires ValidPositionRows(Flatten(cat.positions))
    ensures encodedData.None? || encodedData == Some("") ==> d == Failed("no_data")
    ensures encodedData.Some? && encodedData != Some("") && DecodeVAAResults(c, encodedData.value).None? ==> d == Failed("invalid_data")
    ensures d.Loaded? <==> encodedData.Some? && encodedData != Some("") && DecodeVAAResults(c, encodedData.value).Some?
    ensures d.Loaded? ==>
      var decoded := DecodeVAAResults(c, encodedData.value).value;
      var rs := Matches(InputFor(cat, decoded));
      && d.parties == cat.parties && d.topics == cat.topics
      && d.answeredCount == |decoded.answers.keys|
      && |d.results| == |rs|
      && forall i | 0 <= i < |rs| :: d.results[i] == Enrich(cat, rs[i])
  {
    if encodedData.None? || encodedData.value == "" then Failed("no_data")
    else
      match DecodeVAAResults(c, encodedData.value)
      case None => Failed("invalid_data")
      case Some(decoded) =>
        var results := Matches(InputFor(cat, decoded));
        var enriched := seq(|results|, i requires 0 <= i < |results| => Enrich(cat, results[i]));
        Loaded(enriched, cat.parties, cat.topics, |decoded.answers.keys|)
  }

  /** The loader as the page runs it, over the hard-coded catalogue. */
  function LoadResults(c: Codec, encodedData: Option<string>): LoaderData {
    AllPositionsOfCatalogue();
    Loader(c, DataCatalogue, encodedData)
  }

  /**
   * The page lists the parties best match first, one entry per party with
   * positions, each percentage in [0, 100] and never above what its points allow.
   */
  lemma LoadedResultsRanked(c: Codec, cat: Catalogue, encodedData: Option<string>)
    requires ValidPositionRows(Flatten(cat.positions))
    requires Loader(c, cat, encodedData).Loaded?
    ensures var rs := Loader(c, cat, encodedData).results;
      && (forall i, j | 0 <= i < j < |rs| :: rs[i].matchPercentage >= rs[j].matchPercentage)
      && (forall i | 0 <= i < |rs| :: rs[i].matchPercentage <= 100 && rs[i].totalPoints <= rs[i].maxPossiblePoints)
  {
    var decoded := DecodeVAAResults(c, encodedData.value).value;
    var input := InputFor(cat, decoded);
    MatchesRanked(input);
    forall r | r in Matches(input) ensures r.matchPercentage <= 100 && r.totalPoints <= r.maxPossiblePoints {
      PartyResultFacts(input, r.partyId);
    }
  }

  /** An id that no active statement has is absent from the statement-topic map. */
  lemma NoActiveStatementNoTopic(statements: seq<Statement>, sid: string)
    requires forall s | s in statements && s.id == sid :: !s.isActive
    ensures sid !in StatementTopicsOf(ActiveRefs(statements))
  {
    var refs := ActiveRefs(statements);
    forall i | 0 <= i < |refs| ensures refs[i].id != sid {
      assert refs[i] in refs;
    }
    StatementTopicsLastWins(refs, sid);
  }

  /** An answer to an inactive or unknown statement changes no result. */
  lemma InactiveAnswerIgnored(cat: Catalogue, decoded: Decoded, sid: string)
    requires ValidPositionRows(Flatten(cat.positions))
    requires forall s | s in cat.statements && s.id == sid :: !s.isActive
    ensures Matches(InputFor(cat, decoded.(answers := Remove(decoded.answers, sid)))) == Matches(InputFor(cat, decoded))
  {
    var input := InputFor(cat, decoded);
    NoActiveStatementNoTopic(cat.statements, sid);
    assert InputFor(cat, decoded.(answers := Remove(decoded.answers, sid))) == RemoveAnswer(input, sid);
    UncountedAnswerIgnored(input, sid);
  }

  /** handleRetake: the stored session is cleared. */
  method HandleRetake(store: SessionStore)
    modifies store
    ensures store.saved == None
  {
    store.Clear();
  }
}
