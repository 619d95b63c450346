/**
 * The hard-coded catalogue (app/lib/data.ts): eight topics, four parties,
 * thirty-three statements and every party's position on every statement,
 * together with the two helpers built on them.
 *
 * `partyPositions` is a record of records; it is kept here as what
 * `Object.entries` yields for it, a sequence of (key, value) pairs in the
 * literal's order, which is the order `getAllPositions` visits them in.
 */
module CatalogueData {
  import opened Wrappers
  import opened VaaAlgorithm

  datatype Topic = Topic(id: string, slug: string, name: string, nameEn: string, icon: string)

  datatype Party = Party(id: string, slug: string, name: string, shortName: string, color: string)

  /** A statement; its Albanian and English texts are display strings and are not kept. */
  datatype Statement = Statement(id: string, slug: string, topicId: string, order: int, isActive: bool)

  /** `Object.entries` of a partyId -> statementId -> position record. */
  type PositionTable = seq<(string, seq<(string, string)>)>

  const Topics: seq<Topic> := [
    Topic("1", "economy", "Ekonomia", "Economy", "economy"),
    Topic("2", "healthcare", "Shëndetësia", "Healthcare", "healthcare"),
    Topic("3", "education", "Arsimi", "Education", "education"),
    Topic("4", "infrastructure", "Infrastruktura", "Infrastructure", "infrastructure"),
    Topic("5", "security", "Siguria", "Security", "security"),
    Topic("6", "justice", "Drejtësia", "Justice", "justice"),
    Topic("7", "foreign-policy", "Politika e Jashtme", "Foreign Policy", "foreign-policy"),
    Topic("8", "energy", "Energjia", "Energy", "energy")
  ]

  const Parties: seq<Party> := [
    Party("1", "vv", "Lëvizja Vetëvendosje", "VV", "#E31E24"),
    Party("2", "ldk", "Lidhja Demokratike e Kosovës", "LDK", "#003399"),
    Party("3", "pdk", "Partia Demokratike e Kosovës", "PDK", "#FDB913"),
    Party("4", "aak", "Aleanca për Ardhmërinë e Kosovës", "AAK", "#009639")
  ]

  const Statements: seq<Statement> := [
    Statement("1", "eco-1", "1", 1, true),
    Statement("2", "eco-2", "1", 2, true),
    Statement("3", "eco-3", "1", 3, true),
    Statement("4", "eco-4", "1", 4, true),
    Statement("5", "health-1", "2", 1, true),
    Statement("6", "health-2", "2", 2, true),
    Statement("7", "health-3", "2", 3, true),
    Statement("8", "health-4", "2", 4, true),
    Statement("9", "edu-1", "3", 1, true),
    Statement("10", "edu-2", "3", 2, true),
    Statement("11", "edu-3", "3", 3, true),
    Statement("12", "edu-4", "3", 4, true),
    Statement("13", "infra-1", "4", 1, true),
    Statement("14", "infra-2", "4", 2, true),
    Statement("15", "infra-3", "4", 3, true),
    Statement("16", "infra-4", "4", 4, true),
    Statement("17", "sec-1", "5", 1, true),
    Statement("18", "sec-2", "5", 2, true),
    Statement("19", "sec-3", "5", 3, true),
    Statement("20", "sec-4", "5", 4, true),
    Statement("21", "just-1", "6", 1, true),
    Statement("22", "just-2", "6", 2, true),
    Statement("23", "just-3", "6", 3, true),
    Statement("24", "just-4", "6", 4, true),
    Statement("25", "fp-1", "7", 1, true),
    Statement("26", "fp-2", "7", 2, true),
    Statement("27", "fp-3", "7", 3, true),
    Statement("28", "fp-4", "7", 4, true),
    Statement("29", "energy-1", "8", 1, true),
    Statement("30", "energy-2", "8", 2, true),
    Statement("31", "energy-3", "8", 3, true),
    Statement("32", "energy-4", "8", 4, true),
    Statement("33", "energy-5", "8", 5, true)
  ]

  const VvPositions: seq<(string, string)> := [
    ("1", "DISAGREE"), ("2", "AGREE"), ("3", "AGREE"), ("4", "AGREE"), ("5", "AGREE"), ("6", "AGREE"),
    ("7", "AGREE"), ("8", "NEUTRAL"), ("9", "AGREE"), ("10", "AGREE"), ("11", "AGREE"), ("12", "AGREE"),
    ("13", "AGREE"), ("14", "AGREE"), ("15", "AGREE"), ("16", "AGREE"), ("17", "AGREE"), ("18", "AGREE"),
    ("19", "NEUTRAL"), ("20", "NEUTRAL"), ("21", "DISAGREE"), ("22", "AGREE"), ("23", "AGREE"), ("24", "AGREE"),
    ("25", "AGREE"), ("26", "NEUTRAL"), ("27", "NEUTRAL"), ("28", "AGREE"), ("29", "AGREE"), ("30", "AGREE"),
    ("31", "AGREE"), ("32", "AGREE"), ("33", "DISAGREE")
  ]

  const LdkPositions: seq<(string, string)> := [
    ("1", "NEUTRAL"), ("2", "AGREE"), ("3", "NEUTRAL"), ("4", "AGREE"), ("5", "AGREE"), ("6", "AGREE"),
    ("7", "AGREE"), ("8", "DISAGREE"), ("9", "NEUTRAL"), ("10", "AGREE"), ("11", "AGREE"), ("12", "AGREE"),
    ("13", "AGREE"), ("14", "NEUTRAL"), ("15", "AGREE"), ("16", "AGREE"), ("17", "AGREE"), ("18", "AGREE"),
    ("19", "AGREE"), ("20", "AGREE"), ("21", "DISAGREE"), ("22", "AGREE"), ("23", "AGREE"), ("24", "AGREE"),
    ("25", "AGREE"), ("26", "AGREE"), ("27", "DISAGREE"), ("28", "DISAGREE"), ("29", "AGREE"), ("30", "NEUTRAL"),
    ("31", "AGREE"), ("32", "NEUTRAL"), ("33", "NEUTRAL")
  ]

  const PdkPositions: seq<(string, string)> := [
    ("1", "AGREE"), ("2", "AGREE"), ("3", "NEUTRAL"), ("4", "AGREE"), ("5", "NEUTRAL"), ("6", "AGREE"),
    ("7", "AGREE"), ("8", "DISAGREE"), ("9", "NEUTRAL"), ("10", "AGREE"), ("11", "AGREE"), ("12", "AGREE"),
    ("13", "AGREE"), ("14", "DISAGREE"), ("15", "AGREE"), ("16", "AGREE"), ("17", "AGREE"), ("18", "AGREE"),
    ("19", "AGREE"), ("20", "AGREE"), ("21", "DISAGREE"), ("22", "AGREE"), ("23", "NEUTRAL"), ("24", "AGREE"),
    ("25", "AGREE"), ("26", "AGREE"), ("27", "DISAGREE"), ("28", "DISAGREE"), ("29", "NEUTRAL"), ("30", "DISAGREE"),
    ("31", "NEUTRAL"), ("32", "AGREE"), ("33", "AGREE")
  ]

  const AakPositions: seq<(string, string)> := [
    ("1", "AGREE"), ("2", "AGREE"), ("3", "AGREE"), ("4", "AGREE"), ("5", "NEUTRAL"), ("6", "AGREE"),
    ("7", "AGREE"), ("8", "DISAGREE"), ("9", "NEUTRAL"), ("10", "AGREE"), ("11", "AGREE"), ("12", "AGREE"),
    ("13", "AGREE"), ("14", "NEUTRAL"), ("15", "AGREE"), ("16", "AGREE"), ("17", "AGREE"), ("18", "AGREE"),
    ("19", "AGREE"), ("20", "NEUTRAL"), ("21", "DISAGREE"), ("22", "AGREE"), ("23", "AGREE"), ("24", "AGREE"),
    ("25", "AGREE"), ("26", "NEUTRAL"), ("27", "NEUTRAL"), ("28", "NEUTRAL"), ("29", "AGREE"), ("30", "NEUTRAL"),
    ("31", "AGREE"), ("32", "AGREE"), ("33", "NEUTRAL")
  ]

  const PartyPositions: PositionTable := [
    ("1", VvPositions), ("2", LdkPositions), ("3", PdkPositions), ("4", AakPositions)
  ]

  /** The four tables together, as the pages that read them receive them. */
  datatype Catalogue = Catalogue(topics: seq<Topic>, parties: seq<Party>, statements: seq<Statement>, positions: PositionTable)

  const DataCatalogue := Catalogue(Topics, Parties, Statements, PartyPositions)

  // -------------------------------------------------------------- lookups

  /** `topics.find(t => t.id === id)`: the first topic with that id. */
  function FindTopic(topics: seq<Topic>, id: string): (r: Option<Topic>)
    ensures r.Some? <==> exists i | 0 <= i < |topics| :: topics[i].id == id
    ensures r.Some? ==> exists i | 0 <= i < |topics| :: topics[i] == r.value && r.value.id == id &&
                                  forall j | 0 <= j < i :: topics[j].id != id
    decreases |topics|
  {
    if topics == [] then None
    else if topics[0].id == id then Some(topics[0])
    else
      var r := FindTopic(topics[1..], id);
      assert forall i | 0 <= i < |topics[1..]| :: topics[1..][i] == topics[i + 1];
      r
  }

  /** `parties.find(p => p.id === id)`: the first party with that id. */
  function FindParty(parties: seq<Party>, id: string): (r: Option<Party>)
    ensures r.Some? <==> exists i | 0 <= i < |parties| :: parties[i].id == id
    ensures r.Some? ==> r.value in parties && r.value.id == id
    ensures r.Some? ==> exists i | 0 <= i < |parties| :: parties[i] == r.value &&
                                  forall j | 0 <= j < i :: parties[j].id != id
    decreases |parties|
  {
    if parties == [] then None
    else if parties[0].id == id then Some(parties[0])
    else
      var r := FindParty(parties[1..], id);
      assert forall i | 0 <= i < |parties[1..]| :: parties[1..][i] == parties[i + 1];
      r
  }

  /** An element of getStatementsWithTopics; `topic` is undefined when the lookup fails. */
  datatype StatementWithTopic = StatementWithTopic(statement: Statement, topic: Option<Topic>)

  /** getStatementsWithTopics, over given tables. */
  function StatementsWithTopics(statements: seq<Statement>, topics: seq<Topic>): (r: seq<StatementWithTopic>)
    ensures |r| == |statements|
    ensures forall i | 0 <= i < |r| :: r[i].statement == statements[i]
    ensures forall i | 0 <= i < |r| :: r[i].topic.Some? ==> r[i].topic.value in topics && r[i].topic.value.id == statements[i].topicId
    ensures forall i | 0 <= i < |r| :: r[i].topic.Some? <==> exists t | t in topics :: t.id == statements[i].topicId
    ensures forall i | 0 <= i < |r| :: r[i].topic.Some? ==>
      exists k | 0 <= k < |topics| :: topics[k] == r[i].topic.value && forall j | 0 <= j < k :: topics[j].id != statements[i].topicId
  {
    seq(|statements|, i requires 0 <= i < |statements| => StatementWithTopic(statements[i], FindTopic(topics, statements[i].topicId)))
  }

  function GetStatementsWithTopics(): seq<StatementWithTopic> {
    StatementsWithTopics(Statements, Topics)
  }

  // ---------------------------------------------------------- flattening

  /** The rows the inner loop of getAllPositions pushes for one party. */
  function PartyRows(partyId: string, entries: seq<(string, string)>): (rows: seq<PositionRow>)
    ensures |rows| == |entries|
    ensures forall j | 0 <= j < |rows| :: rows[j] == PositionRow(partyId, entries[j].0, entries[j].1)
  {
    seq(|entries|, j requires 0 <= j < |entries| => PositionRow(partyId, entries[j].0, entries[j].1))
  }

  /** The rows getAllPositions returns for `table`: party by party, each party's entries in order. */
  function Flatten(table: PositionTable): seq<PositionRow>
    decreases |table|
  {
    if table == [] then []
    else Flatten(table[..|table| - 1]) + PartyRows(table[|table| - 1].0, table[|table| - 1].1)
  }

  /** The number of (party, statement) entries of `table`. */
  function EntryCount(table: PositionTable): nat
    decreases |table|
  {
    if table == [] then 0 else EntryCount(table[..|table| - 1]) + |table[|table| - 1].1|
  }

  /** getAllPositions, over a given table: two nested loops pushing one row per entry. */
  method GetAllPositions(table: PositionTable) returns (positions: seq<PositionRow>)
    ensures positions == Flatten(table)
  {
    positions := [];
    var i := 0;
    while i < |table|
      invariant 0 <= i <= |table|
      invariant positions == Flatten(table[..i])
    {
      var (partyId, stmtPositions) := table[i];
      var j := 0;
      while j < |stmtPositions|
        invariant 0 <= j <= |stmtPositions|
        invariant positions == Flatten(table[..i]) + PartyRows(partyId, stmtPositions[..j])
      {
        var (statementId, position) := stmtPositions[j];
        positions := positions + [PositionRow(partyId, statementId, position)];
        assert PartyRows(partyId, stmtPositions[..j + 1]) == PartyRows(partyId, stmtPositions[..j]) + [PositionRow(partyId, statementId, position)];
        j := j + 1;
      }
      assert stmtPositions[..j] == stmtPositions;
      assert table[..i + 1][..i] == table[..i];
      i := i + 1;
    }
    assert table[..i] == table;
  }

  /** One row per entry: the result's length is the sum of the inner record sizes. */
  lemma {:induction false} FlattenLength(table: PositionTable)
    ensures |Flatten(table)| == EntryCount(table)
    decreases |table|
  {
    if table != [] {
      FlattenLength(table[..|table| - 1]);
    }
  }

  /** A row is produced exactly when it is an entry of the table: its position is the party's position on the statement. */
  lemma {:induction false} FlattenRows(table: PositionTable, r: PositionRow)
    ensures r in Flatten(table) <==>
      exists i, j | 0 <= i < |table| && 0 <= j < |table[i].1| :: r == PositionRow(table[i].0, table[i].1[j].0, table[i].1[j].1)
    decreases |table|
  {
    if table != [] {
      var init := table[..|table| - 1];
      var last := table[|table| - 1];
      FlattenRows(init, r);
      if r in Flatten(table) {
        if r !in Flatten(init) {
          var j :| 0 <= j < |last.1| && PartyRows(last.0, last.1)[j] == r;
          assert r == PositionRow(table[|table| - 1].0, table[|table| - 1].1[j].0, table[|table| - 1].1[j].1);
        }
      } else {
        forall i, j | 0 <= i < |table| && 0 <= j < |table[i].1|
          ensures r != PositionRow(table[i].0, table[i].1[j].0, table[i].1[j].1)
        {
          if i < |init| {
            assert table[i] == init[i];
          } else {
            assert PartyRows(last.0, last.1)[j] in Flatten(table);
          }
        }
      }
    }
  }

  // ---------------------------------------------------- facts of the data

  /** The keys of an entry list, in order. */
  function EntryKeys(entries: seq<(string, string)>): (ks: seq<string>)
    ensures |ks| == |entries|
  {
    seq(|entries|, j requires 0 <= j < |entries| => entries[j].0)
  }

  function StatementIds(statements: seq<Statement>): (ids: seq<string>)
    ensures |ids| == |statements|
  {
    seq(|statements|, j requires 0 <= j < |statements| => statements[j].id)
  }

  function PartyIds(parties: seq<Party>): (ids: seq<string>)
    ensures |ids| == |parties|
  {
    seq(|parties|, j requires 0 <= j < |parties| => parties[j].id)
  }

  /** Every entry of the list carries a valid position word. */
  predicate ValidWords(entries: seq<(string, string)>) {
    forall j | 0 <= j < |entries| :: IsPositionWord(entries[j].1)
  }

  lemma VvKeys()
    ensures EntryKeys(VvPositions) == StatementIds(Statements)
  {
  }

  lemma VvWords()
    ensures ValidWords(VvPositions)
  {
  }

  lemma LdkKeys()
    ensures EntryKeys(LdkPositions) == StatementIds(Statements)
  {
  }

  lemma LdkWords()
    ensures ValidWords(LdkPositions)
  {
  }

  lemma PdkKeys()
    ensures EntryKeys(PdkPositions) == StatementIds(Statements)
  {
  }

  lemma PdkWords()
    ensures ValidWords(PdkPositions)
  {
  }

  lemma AakKeys()
    ensures EntryKeys(AakPositions) == StatementIds(Statements)
  {
  }

  lemma AakWords()
    ensures ValidWords(AakPositions)
  {
  }

  /** Parties "1" to "4" each have a position on every statement "1" to "33". */
  lemma CatalogueComplete()
    ensures |PartyPositions| == |Parties| == 4 && |Statements| == 33
    ensures forall i | 0 <= i < 4 :: PartyPositions[i].0 == Parties[i].id
    ensures forall i | 0 <= i < |PartyPositions| :: EntryKeys(PartyPositions[i].1) == StatementIds(Statements)
  {
    AllTablesComplete();
    assert |Parties| == 4 && |Statements| == 33;
  }

  /** Every stored position is AGREE, NEUTRAL or DISAGREE, so the engine's `as Position` cast is sound here. */
  lemma CatalogueWordsValid()
    ensures forall i, j | 0 <= i < |PartyPositions| && 0 <= j < |PartyPositions[i].1| :: IsPositionWord(PartyPositions[i].1[j].1)
  {
    AllTablesComplete();
    forall i | 0 <= i < |PartyPositions| ensures ValidWords(PartyPositions[i].1) {
    }
  }

  lemma AllTablesComplete()
    ensures forall i | 0 <= i < |PartyPositions| :: EntryKeys(PartyPositions[i].1) == StatementIds(Statements)
    ensures forall i | 0 <= i < |PartyPositions| :: ValidWords(PartyPositions[i].1)
  {
    VvKeys();
    LdkKeys();
    PdkKeys();
    AakKeys();
    VvWords();
    LdkWords();
    PdkWords();
    AakWords();
  }

  /** One more party's list adds its length to the count. */
  lemma EntryCountStep(table: PositionTable, k: int)
    requires 0 <= k < |table|
    ensures EntryCount(table[..k + 1]) == EntryCount(table[..k]) + |table[k].1|
  {
    assert table[..k + 1][..k] == table[..k];
  }

  /** The flattened catalogue: 4 * 33 rows, every one a valid position row. */
  lemma AllPositionsOfCatalogue()
    ensures |Flatten(PartyPositions)| == 132
    ensures ValidPositionRows(Flatten(PartyPositions))
  {
    FlattenLength(PartyPositions);
    CatalogueComplete();
    var t := PartyPositions;
    assert forall i | 0 <= i < 4 :: |t[i].1| == |EntryKeys(t[i].1)| == 33;
    assert t[..0] == [];
    EntryCountStep(t, 0);
    EntryCountStep(t, 1);
    EntryCountStep(t, 2);
    EntryCountStep(t, 3);
    assert t[..4] == t;
    CatalogueWordsValid();
    var rows := Flatten(PartyPositions);
    forall k | 0 <= k < |rows| ensures IsPositionWord(rows[k].position) {
      FlattenRows(PartyPositions, rows[k]);
    }
  }

  /** Every statement's topic exists, so the lookup in getStatementsWithTopics never comes back empty. */
  lemma CatalogueTopicsResolve()
    ensures forall i | 0 <= i < |GetStatementsWithTopics()| :: GetStatementsWithTopics()[i].topic.Some?
  {
  }

  /** All thirty-three statements are active. */
  lemma CatalogueAllActive()
    ensures forall i | 0 <= i < |Statements| :: Statements[i].isActive
  {
  }
}
