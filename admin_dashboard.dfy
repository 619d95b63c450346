/**
 * The admin overview of the voting advice data (app/routes/admin/vaa/index.tsx):
 * counts of statements, parties and positions, the share of (statement, party)
 * pairs that have a position, and the same share per party.
 */
module AdminDashboard {
  import opened Percent
  import opened VaaAlgorithm
  import opened CatalogueData
  import CalculateApi

  /** A party record with `positionCount` and `coverage` added. */
  datatype PartyCoverage = PartyCoverage(party: CalculateApi.DbParty, positionCount: nat, coverage: nat)

  datatype Dashboard = Dashboard(
    totalStatements: nat, activeStatements: nat, totalParties: nat, totalPositions: nat,
    positionCoverage: nat, partyCoverage: seq<PartyCoverage>)

  /** `statements.filter((s) => s.isActive).length`. */
  function CountActive(statements: seq<Statement>): (n: nat)
    ensures n <= |statements|
    ensures n == |statements| <==> forall i | 0 <= i < |statements| :: statements[i].isActive
    ensures n == |set i | 0 <= i < |statements| && statements[i].isActive|
    decreases |statements|
  {
    if statements == [] then 0
    else
      var k := |statements| - 1;
      var n := CountActive(statements[..k]);
      assert forall i | 0 <= i < k :: statements[..k][i] == statements[i];
      ActiveSetStep(statements);
      n + if statements[k].isActive then 1 else 0
  }

  /** The active places of a table are those of all but its last record, plus the last one when it is active. */
  lemma ActiveSetStep(statements: seq<Statement>)
    requires |statements| > 0
    ensures var k := |statements| - 1;
      |set i | 0 <= i < |statements| && statements[i].isActive| ==
      |set i | 0 <= i < k && statements[..k][i].isActive| + if statements[k].isActive then 1 else 0
  {
    var k := |statements| - 1;
    var before := set i | 0 <= i < k && statements[..k][i].isActive;
    var after := set i | 0 <= i < |statements| && statements[i].isActive;
    assert after == before + if statements[k].isActive then {k} else {};
    assert k !in before;
  }

  /** `positions.filter((p) => p.partyId === partyId).length`. */
  function PartyPositionCount(positions: seq<PositionRow>, partyId: string): nat
    decreases |positions|
  {
    if positions == [] then 0
    else
      var k := |positions| - 1;
      PartyPositionCount(positions[..k], partyId) + if positions[k].partyId == partyId then 1 else 0
  }

  /** One element of `parties.map(...)`. */
  function PartyCoverageOf(statements: seq<Statement>, positions: seq<PositionRow>, party: CalculateApi.DbParty): PartyCoverage {
    var count := PartyPositionCount(positions, party.id);
    PartyCoverage(party, count, RoundPercent(count, |statements|))
  }

  /** The loader, over the three tables. */
  function Loader(statements: seq<Statement>, parties: seq<CalculateApi.DbParty>, positions: seq<PositionRow>): (d: Dashboard)
    ensures d.totalStatements == |statements| && d.totalParties == |parties| && d.totalPositions == |positions|
    ensures d.activeStatements <= d.totalStatements
    ensures d.activeStatements == CountActive(statements)
    ensures d.positionCoverage == RoundPercent(|positions|, |statements| * |parties|)
    ensures |statements| * |parties| == 0 ==> d.positionCoverage == 0
    ensures |d.partyCoverage| == |parties|
    ensures forall i | 0 <= i < |parties| ::
      && d.partyCoverage[i].party == parties[i]
      && d.partyCoverage[i].positionCount == PartyPositionCount(positions, parties[i].id)
      && d.partyCoverage[i].coverage == RoundPercent(d.partyCoverage[i].positionCount, |statements|)
  {
    var partyCoverage := seq(|parties|, i requires 0 <= i < |parties| => PartyCoverageOf(statements, positions, parties[i]));
    Dashboard(|statements|, CountActive(statements), |parties|, |positions|,
              RoundPercent(|positions|, |statements| * |parties|), partyCoverage)
  }

  // ------------------------------------------------------ the per-party sum

  /** The sum of the per-party `positionCount` values. */
  function SumCounts(positions: seq<PositionRow>, parties: seq<CalculateApi.DbParty>): nat
    decreases |parties|
  {
    if parties == [] then 0
    else
      var k := |parties| - 1;
      SumCounts(positions, parties[..k]) + PartyPositionCount(positions, parties[k].id)
  }

  /** How many parties carry the id. */
  function IdCount(parties: seq<CalculateApi.DbParty>, partyId: string): nat
    decreases |parties|
  {
    if parties == [] then 0
    else
      var k := |parties| - 1;
      IdCount(parties[..k], partyId) + if parties[k].id == partyId then 1 else 0
  }

  function PartyIdSet(parties: seq<CalculateApi.DbParty>): (ids: set<string>)
    ensures forall id :: id in ids <==> exists i | 0 <= i < |parties| :: parties[i].id == id
    decreases |parties|
  {
    if parties == [] then {}
    else
      var k := |parties| - 1;
      var ids := PartyIdSet(parties[..k]);
      assert forall i | 0 <= i < k :: parties[..k][i] == parties[i];
      ids + {parties[k].id}
  }

  predicate DistinctPartyIds(parties: seq<CalculateApi.DbParty>) {
    forall i, j | 0 <= i < j < |parties| :: parties[i].id != parties[j].id
  }

  /** With distinct ids, an existing id is carried by exactly one party. */
  lemma {:induction false} IdCountOne(parties: seq<CalculateApi.DbParty>, partyId: string)
    requires DistinctPartyIds(parties)
    requires partyId in PartyIdSet(parties)
    ensures IdCount(parties, partyId) == 1
    decreases |parties|
  {
    var k := |parties| - 1;
    var init := parties[..k];
    assert DistinctPartyIds(init);
    if parties[k].id == partyId {
      assert forall i | 0 <= i < k :: init[i].id != partyId;
      IdCountZero(init, partyId);
    } else {
      IdCountOne(init, partyId);
    }
  }

  lemma {:induction false} IdCountZero(parties: seq<CalculateApi.DbParty>, partyId: string)
    requires forall i | 0 <= i < |parties| :: parties[i].id != partyId
    ensures IdCount(parties, partyId) == 0
    decreases |parties|
  {
    if parties != [] {
      IdCountZero(parties[..|parties| - 1], partyId);
    }
  }

  /** No positions, no counts. */
  lemma {:induction false} SumCountsEmpty(parties: seq<CalculateApi.DbParty>)
    ensures SumCounts([], parties) == 0
    decreases |parties|
  {
    if parties != [] {
      SumCountsEmpty(parties[..|parties| - 1]);
    }
  }

  /** One more position adds one to the count of every party carrying its party id. */
  lemma {:induction false} SumCountsAppend(positions: seq<PositionRow>, r: PositionRow, parties: seq<CalculateApi.DbParty>)
    ensures SumCounts(positions + [r], parties) == SumCounts(positions, parties) + IdCount(parties, r.partyId)
    decreases |parties|
  {
    if parties != [] {
      var k := |parties| - 1;
      SumCountsAppend(positions, r, parties[..k]);
      assert (positions + [r])[..|positions|] == positions;
    }
  }

  /** The per-party counts add up to `totalPositions` when every position's party exists. */
  lemma {:induction false} PartyCountsSum(positions: seq<PositionRow>, parties: seq<CalculateApi.DbParty>)
    requires DistinctPartyIds(parties)
    requires forall i | 0 <= i < |positions| :: positions[i].partyId in PartyIdSet(parties)
    ensures SumCounts(positions, parties) == |positions|
    decreases |positions|
  {
    if positions == [] {
      SumCountsEmpty(parties);
    } else {
      var k := |positions| - 1;
      var init := positions[..k];
      assert forall i | 0 <= i < k :: init[i] == positions[i];
      PartyCountsSum(init, parties);
      assert positions == init + [positions[k]];
      SumCountsAppend(init, positions[k], parties);
      IdCountOne(parties, positions[k].partyId);
    }
  }

  /** Counts each at most `bound` sum to at most `|parties| * bound`. */
  lemma {:induction false} SumCountsBound(positions: seq<PositionRow>, parties: seq<CalculateApi.DbParty>, bound: nat)
    requires forall i | 0 <= i < |parties| :: PartyPositionCount(positions, parties[i].id) <= bound
    ensures SumCounts(positions, parties) <= |parties| * bound
    decreases |parties|
  {
    if parties != [] {
      var k := |parties| - 1;
      assert forall i | 0 <= i < k :: parties[..k][i] == parties[i];
      SumCountsBound(positions, parties[..k], bound);
      assert |parties| * bound == k * bound + bound;
    }
  }

  // --------------------------------------------------- bounds on a count

  /** The position rows name distinct (statement, party) pairs: the upsert key. */
  predicate UniquePairs(positions: seq<PositionRow>) {
    forall i, j | 0 <= i < j < |positions| ::
      positions[i].statementId != positions[j].statementId || positions[i].partyId != positions[j].partyId
  }

  function StatementIdSet(statements: seq<Statement>): (ids: set<string>)
    ensures forall id :: id in ids <==> exists i | 0 <= i < |statements| :: statements[i].id == id
    decreases |statements|
  {
    if statements == [] then {}
    else
      var k := |statements| - 1;
      var ids := StatementIdSet(statements[..k]);
      assert forall i | 0 <= i < k :: statements[..k][i] == statements[i];
      ids + {statements[k].id}
  }

  /** There are no more ids than statements. */
  lemma {:induction false} StatementIdSetCard(statements: seq<Statement>)
    ensures |StatementIdSet(statements)| <= |statements|
    decreases |statements|
  {
    if statements != [] {
      var k := |statements| - 1;
      StatementIdSetCard(statements[..k]);
      assert StatementIdSet(statements) == StatementIdSet(statements[..k]) + {statements[k].id};
    }
  }

  /** The statements one party has a position on. */
  function PositionedStatements(positions: seq<PositionRow>, partyId: string): set<string>
    decreases |positions|
  {
    if positions == [] then {}
    else
      var k := |positions| - 1;
      PositionedStatements(positions[..k], partyId) + if positions[k].partyId == partyId then {positions[k].statementId} else {}
  }

  /** With unique pairs, a party's count is the number of statements it has a position on. */
  lemma {:induction false} CountIsStatements(positions: seq<PositionRow>, partyId: string)
    requires UniquePairs(positions)
    ensures PartyPositionCount(positions, partyId) == |PositionedStatements(positions, partyId)|
    decreases |positions|
  {
    if positions != [] {
      var k := |positions| - 1;
      var init := positions[..k];
      assert UniquePairs(init) by {
        assert forall i | 0 <= i < k :: init[i] == positions[i];
      }
      CountIsStatements(init, partyId);
      if positions[k].partyId == partyId {
        PositionedStatementsFrom(init, partyId);
        forall i | 0 <= i < k ensures init[i].statementId != positions[k].statementId || init[i].partyId != partyId {
          assert init[i] == positions[i];
        }
        assert positions[k].statementId !in PositionedStatements(init, partyId);
      }
    }
  }

  /** Every statement in the set has a position row of the party. */
  lemma {:induction false} PositionedStatementsFrom(positions: seq<PositionRow>, partyId: string)
    ensures forall s | s in PositionedStatements(positions, partyId) ::
      exists i | 0 <= i < |positions| :: positions[i].statementId == s && positions[i].partyId == partyId
    decreases |positions|
  {
    if positions != [] {
      var k := |positions| - 1;
      var init := positions[..k];
      PositionedStatementsFrom(init, partyId);
      assert forall i | 0 <= i < k :: init[i] == positions[i];
    }
  }

  lemma {:induction false} SubsetCard(a: set<string>, b: set<string>)
    requires a <= b
    ensures |a| <= |b|
    decreases |a|
  {
    if a != {} {
      var x :| x in a;
      SubsetCard(a - {x}, b - {x});
    }
  }

  /** With unique pairs over existing statements, a party has at most one position per statement. */
  lemma PartyCountBound(statements: seq<Statement>, positions: seq<PositionRow>, partyId: string)
    requires UniquePairs(positions)
    requires forall i | 0 <= i < |positions| :: positions[i].statementId in StatementIdSet(statements)
    ensures PartyPositionCount(positions, partyId) <= |statements|
  {
    CountIsStatements(positions, partyId);
    PositionedStatementsFrom(positions, partyId);
    SubsetCard(PositionedStatements(positions, partyId), StatementIdSet(statements));
    StatementIdSetCard(statements);
  }

  /**
   * When the positions are unique pairs over existing statements and parties,
   * no coverage exceeds 100.
   */
  lemma CoverageAtMostHundred(statements: seq<Statement>, parties: seq<CalculateApi.DbParty>, positions: seq<PositionRow>)
    requires DistinctPartyIds(parties) && UniquePairs(positions)
    requires forall i | 0 <= i < |positions| :: positions[i].statementId in StatementIdSet(statements)
    requires forall i | 0 <= i < |positions| :: positions[i].partyId in PartyIdSet(parties)
    ensures var d := Loader(statements, parties, positions);
      && d.positionCoverage <= 100
      && forall i | 0 <= i < |d.partyCoverage| :: d.partyCoverage[i].coverage <= 100
  {
    forall i | 0 <= i < |parties| ensures PartyPositionCount(positions, parties[i].id) <= |statements| {
      PartyCountBound(statements, positions, parties[i].id);
    }
    PartyCountsSum(positions, parties);
    SumCountsBound(positions, parties, |statements|);
    assert |positions| <= |parties| * |statements|;
  }
}
