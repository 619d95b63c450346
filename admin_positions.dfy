/**
 * The admin position editor (app/routes/admin/vaa/positions/index.tsx).
 *
 * The loader keys every stored position by `${statementId}-${partyId}`; the
 * page names each select `pos-${statementId}-${partyId}`; the action parses
 * those names back by splitting on "-", then deletes (NOT_SET) or upserts
 * one (statement, party) pair per update, in form order.
 */
module AdminPositions {
  import opened Wrappers
  import opened VaaAlgorithm

  // --------------------------------------------------------------- loader

  /** `${statementId}-${partyId}`. */
  function CompositeKey(statementId: string, partyId: string): string {
    statementId + "-" + partyId
  }

  /** The loader's map after its loop has run over `rows`: later rows overwrite earlier ones. */
  function KeyMapOf(rows: seq<PositionRow>): map<string, string>
    decreases |rows|
  {
    if rows == [] then map[]
    else
      var r := rows[|rows| - 1];
      KeyMapOf(rows[..|rows| - 1])[CompositeKey(r.statementId, r.partyId) := r.position]
  }

  /** The loader's loop building `positionMap`. */
  method BuildKeyMap(positions: seq<PositionRow>) returns (positionMap: map<string, string>)
    ensures positionMap == KeyMapOf(positions)
  {
    positionMap := map[];
    var i := 0;
    while i < |positions|
      invariant 0 <= i <= |positions|
      invariant positionMap == KeyMapOf(positions[..i])
    {
      var pos := positions[i];
      positionMap := positionMap[CompositeKey(pos.statementId, pos.partyId) := pos.position];
      assert positions[..i + 1][..i] == positions[..i];
      i := i + 1;
    }
    assert positions[..i] == positions;
  }

  /** `positionMap[key] || "NOT_SET"`: what a cell shows. */
  function Displayed(positionMap: map<string, string>, statementId: string, partyId: string): string {
    var key := CompositeKey(statementId, partyId);
    if key in positionMap && positionMap[key] != "" then positionMap[key] else "NOT_SET"
  }

  /** Composite keys of dash-free statement ids tell their pairs apart. */
  lemma CompositeKeyInjective(s1: string, p1: string, s2: string, p2: string)
    requires '-' !in s1 && '-' !in s2
    requires CompositeKey(s1, p1) == CompositeKey(s2, p2)
    ensures s1 == s2 && p1 == p2
  {
    var k := CompositeKey(s1, p1);
    assert forall i | 0 <= i < |s1| :: k[i] == s1[i];
    assert forall i | 0 <= i < |s2| :: k[i] == s2[i];
    assert k[|s1|] == '-' && k[|s2|] == '-';
    assert s1 == k[..|s1|] && s2 == k[..|s2|];
    assert p1 == k[|s1| + 1..] && p2 == k[|s2| + 1..];
  }

  /** The position of the last row for the pair, if any. */
  function LastPosition(rows: seq<PositionRow>, statementId: string, partyId: string): (r: Option<string>)
    ensures r.None? <==> forall i | 0 <= i < |rows| :: !RowFor(rows, i, partyId, statementId)
    ensures r.Some? ==> exists i :: LastRowFor(rows, i, partyId, statementId) && r.value == rows[i].position
    decreases |rows|
  {
    if rows == [] then None
    else
      var n := |rows| - 1;
      if RowFor(rows, n, partyId, statementId) then
        assert LastRowFor(rows, n, partyId, statementId);
        Some(rows[n].position)
      else
        var r := LastPosition(rows[..n], statementId, partyId);
        assert forall i | 0 <= i < n :: RowFor(rows[..n], i, partyId, statementId) == RowFor(rows, i, partyId, statementId);
        if r.Some? then
          var i :| LastRowFor(rows[..n], i, partyId, statementId) && r.value == rows[..n][i].position;
          LastRowExtend(rows, i, partyId, statementId);
          r
        else r
  }

  /** With dash-free statement ids, the key map holds for a pair the position of its last row. */
  lemma {:induction false} KeyMapLastWins(rows: seq<PositionRow>, statementId: string, partyId: string)
    requires forall i | 0 <= i < |rows| :: '-' !in rows[i].statementId
    requires '-' !in statementId
    ensures var key := CompositeKey(statementId, partyId);
      && (key in KeyMapOf(rows) <==> LastPosition(rows, statementId, partyId).Some?)
      && (key in KeyMapOf(rows) ==> KeyMapOf(rows)[key] == LastPosition(rows, statementId, partyId).value)
    decreases |rows|
  {
    if rows != [] {
      var n := |rows| - 1;
      var init := rows[..n];
      assert forall i | 0 <= i < n :: init[i] == rows[i];
      KeyMapLastWins(init, statementId, partyId);
      if CompositeKey(rows[n].statementId, rows[n].partyId) == CompositeKey(statementId, partyId) {
        CompositeKeyInjective(rows[n].statementId, rows[n].partyId, statementId, partyId);
      }
    }
  }

  /** A pair without a row shows NOT_SET; a pair with rows shows the last one's position (NOT_SET if empty). */
  lemma DisplayedPosition(rows: seq<PositionRow>, statementId: string, partyId: string)
    requires forall i | 0 <= i < |rows| :: '-' !in rows[i].statementId
    requires '-' !in statementId
    ensures (forall i | 0 <= i < |rows| :: !RowFor(rows, i, partyId, statementId)) ==>
      Displayed(KeyMapOf(rows), statementId, partyId) == "NOT_SET"
    ensures LastPosition(rows, statementId, partyId).Some? ==>
      var p := LastPosition(rows, statementId, partyId).value;
      Displayed(KeyMapOf(rows), statementId, partyId) == if p == "" then "NOT_SET" else p
  {
    KeyMapLastWins(rows, statementId, partyId);
  }

  // ------------------------------------------------------- form parsing

  /** `s.split("-")`. */
  function Split(s: string): (parts: seq<string>)
    ensures |parts| >= 1
    decreases |s|
  {
    if s == [] then [""]
    else
      var parts := Split(s[..|s| - 1]);
      var c := s[|s| - 1];
      if c == '-' then parts + [""]
      else parts[..|parts| - 1] + [parts[|parts| - 1] + [c]]
  }

  /** No segment of a split contains the separator. */
  lemma {:induction false} SplitSegmentsDashFree(s: string)
    ensures forall i | 0 <= i < |Split(s)| :: '-' !in Split(s)[i]
    decreases |s|
  {
    if s != [] {
      SplitSegmentsDashFree(s[..|s| - 1]);
    }
  }

  /** Appending a dash-free string extends the last segment. */
  lemma {:induction false} SplitAppend(a: string, b: string)
    requires '-' !in b
    ensures Split(a + b) == Split(a)[..|Split(a)| - 1] + [Split(a)[|Split(a)| - 1] + b]
    decreases |b|
  {
    if b == [] {
      assert a + b == a;
      var P := Split(a);
      assert P[|P| - 1] + b == P[|P| - 1];
      assert P == P[..|P| - 1] + [P[|P| - 1]];
    } else {
      var b', c := b[..|b| - 1], b[|b| - 1];
      assert b == b' + [c];
      assert c in b;
      assert (a + b)[..|a + b| - 1] == a + b';
      assert (a + b)[|a + b| - 1] == c;
      assert forall x | x in b' :: x in b;
      SplitAppend(a, b');
      var P := Split(a);
      var m := |P|;
      var parts := Split(a + b');
      assert parts == P[..m - 1] + [P[m - 1] + b'];
      assert parts[..|parts| - 1] == P[..m - 1];
      assert (P[m - 1] + b') + [c] == P[m - 1] + b;
    }
  }

  /** Appending a dash opens a new, empty segment. */
  lemma SplitDash(a: string)
    ensures Split(a + "-") == Split(a) + [""]
  {
    assert (a + "-")[..|a + "-"| - 1] == a;
  }

  /** Appending to a string never removes segments. */
  lemma {:induction false} SplitPrefixLength(a: string, b: string)
    ensures |Split(a + b)| >= |Split(a)|
    decreases |b|
  {
    if b == [] {
      assert a + b == a;
    } else {
      var b' := b[..|b| - 1];
      assert (a + b)[..|a + b| - 1] == a + b';
      SplitPrefixLength(a, b');
    }
  }

  /** The select name the page renders for a pair. */
  function FieldName(statementId: string, partyId: string): string {
    "pos-" + statementId + "-" + partyId
  }

  /** `key.startsWith("pos-")`. */
  predicate IsPositionField(key: string) {
    |key| >= 4 && key[..4] == "pos-"
  }

  /** One parsed update; `partyId` is undefined when the key has no third segment. */
  datatype Update = Update(statementId: string, partyId: Option<string>, position: string)

  /** `const [, statementId, partyId] = key.split("-")`. */
  function ParseKey(key: string, value: string): (u: Update)
    requires IsPositionField(key)
  {
    var parts := Split(key);
    assert key == "pos-" + key[4..];
    SplitPrefixLength("pos-", key[4..]);
    if |parts| > 2 then Update(parts[1], Some(parts[2]), value) else Update(parts[1], None, value)
  }

  /** Parsing a rendered name gives back its pair exactly when neither id contains "-". */
  lemma ParseFieldName(statementId: string, partyId: string, value: string)
    ensures IsPositionField(FieldName(statementId, partyId))
    ensures ParseKey(FieldName(statementId, partyId), value) == Update(statementId, Some(partyId), value)
      <==> '-' !in statementId && '-' !in partyId
  {
    var key := FieldName(statementId, partyId);
    assert key[..4] == "pos-";
    var parts := Split(key);
    SplitSegmentsDashFree(key);
    if '-' !in statementId && '-' !in partyId {
      SplitFieldName(statementId, partyId);
    } else {
      assert |parts| > 2 ==> '-' !in parts[1] && '-' !in parts[2];
    }
  }

  /** Two dash-free strings joined by a dash split back into the two. */
  lemma SplitTwo(x: string, y: string)
    requires '-' !in x && '-' !in y
    ensures Split(x + "-" + y) == [x, y]
  {
    SplitAppend([], x);
    assert [] + x == x;
    assert Split(x) == [x];
    SplitDash(x);
    var xd := x + "-";
    assert Split(xd) == [x, ""];
    SplitAppend(xd, y);
    assert "" + y == y;
    assert Split(xd + y) == [x] + [y];
  }

  /** Three dash-free strings joined by dashes split back into the three. */
  lemma SplitThree(x: string, y: string, z: string)
    requires '-' !in x && '-' !in y && '-' !in z
    ensures Split(x + "-" + y + "-" + z) == [x, y, z]
  {
    SplitTwo(x, y);
    SplitDash(x + "-" + y);
    SplitAppend(x + "-" + y + "-", z);
    assert "" + z == z;
  }

  /** The rendered name of a pair of dash-free ids splits into "pos" and the two ids. */
  lemma SplitFieldName(statementId: string, partyId: string)
    requires '-' !in statementId && '-' !in partyId
    ensures Split(FieldName(statementId, partyId)) == ["pos", statementId, partyId]
  {
    assert FieldName(statementId, partyId) == "pos" + "-" + statementId + "-" + partyId;
    SplitThree("pos", statementId, partyId);
  }

  /** The updates the first loop collects: position fields with a non-empty value, in form order. */
  function UpdatesOf(entries: seq<(string, string)>): (us: seq<Update>)
    ensures |us| <= |entries|
    decreases |entries|
  {
    if entries == [] then []
    else
      var (key, value) := entries[|entries| - 1];
      UpdatesOf(entries[..|entries| - 1]) + if IsPositionField(key) && value != "" then [ParseKey(key, value)] else []
  }

  /** The first loop handles the entries one by one, in form order. */
  lemma {:induction false} UpdatesOfAppend(a: seq<(string, string)>, b: seq<(string, string)>)
    ensures UpdatesOf(a + b) == UpdatesOf(a) + UpdatesOf(b)
    decreases |b|
  {
    if b == [] {
      assert a + b == a;
    } else {
      var init, last := b[..|b| - 1], b[|b| - 1];
      assert (a + b)[..|a + b| - 1] == a + init;
      assert (a + b)[|a + b| - 1] == last;
      UpdatesOfAppend(a, init);
      assert b[..|b| - 1] == init;
    }
  }

  /** An entry is dropped unless its key starts with "pos-" and its value is non-empty. */
  lemma UpdatesOfEntry(key: string, value: string)
    ensures !IsPositionField(key) || value == "" ==> UpdatesOf([(key, value)]) == []
    ensures IsPositionField(key) && value != "" ==> UpdatesOf([(key, value)]) == [ParseKey(key, value)]
  {
    assert [(key, value)][..0] == [];
  }

  /** The first loop of the action. */
  method ParseUpdates(entries: seq<(string, string)>) returns (updates: seq<Update>)
    ensures updates == UpdatesOf(entries)
  {
    updates := [];
    var i := 0;
    while i < |entries|
      invariant 0 <= i <= |entries|
      invariant updates == UpdatesOf(entries[..i])
    {
      var (key, value) := entries[i];
      if IsPositionField(key) && value != "" {
        updates := updates + [ParseKey(key, value)];
      }
      assert entries[..i + 1][..i] == entries[..i];
      i := i + 1;
    }
    assert entries[..i] == entries;
  }

  /** Rendered fields with a value become exactly one update each, in order. */
  lemma {:induction false} RenderedFormParses(pairs: seq<(string, string)>, values: seq<string>)
    requires |pairs| == |values|
    requires forall i | 0 <= i < |pairs| :: '-' !in pairs[i].0 && '-' !in pairs[i].1 && values[i] != ""
    ensures UpdatesOf(seq(|pairs|, i requires 0 <= i < |pairs| => (FieldName(pairs[i].0, pairs[i].1), values[i]))) ==
            seq(|pairs|, i requires 0 <= i < |pairs| => Update(pairs[i].0, Some(pairs[i].1), values[i]))
    decreases |pairs|
  {
    if pairs != [] {
      var n := |pairs| - 1;
      RenderedFormParses(pairs[..n], values[..n]);
      ParseFieldName(pairs[n].0, pairs[n].1, values[n]);
      var form := seq(|pairs|, i requires 0 <= i < |pairs| => (FieldName(pairs[i].0, pairs[i].1), values[i]));
      assert form[..n] == seq(n, i requires 0 <= i < n => (FieldName(pairs[..n][i].0, pairs[..n][i].1), values[..n][i]));
      var us := seq(|pairs|, i requires 0 <= i < |pairs| => Update(pairs[i].0, Some(pairs[i].1), values[i]));
      assert us[..n] == seq(n, i requires 0 <= i < n => Update(pairs[..n][i].0, Some(pairs[..n][i].1), values[..n][i]));
      assert us == us[..n] + [us[n]];
    }
  }

  // ---------------------------------------------------- the position store

  /** Every update names a party. */
  predicate Complete(updates: seq<Update>) {
    forall i | 0 <= i < |updates| :: updates[i].partyId.Some?
  }

  /** One update: NOT_SET deletes the pair, anything else upserts it verbatim. */
  function ApplyUpdate(store: map<(string, string), string>, u: Update): (r: map<(string, string), string>)
    requires u.partyId.Some?
    ensures var pair := (u.statementId, u.partyId.value);
      && (u.position == "NOT_SET" ==> pair !in r)
      && (u.position == "NOT_SET" && pair !in store ==> r == store)
      && (u.position != "NOT_SET" ==> pair in r && r[pair] == u.position)
      && forall k | k != pair :: (k in r <==> k in store) && (k in r ==> r[k] == store[k])
  {
    var pair := (u.statementId, u.partyId.value);
    if u.position == "NOT_SET" then store - {pair} else store[pair := u.position]
  }

  /** The store after the second loop has applied `updates` in order. */
  function ApplyAll(store: map<(string, string), string>, updates: seq<Update>): map<(string, string), string>
    requires Complete(updates)
    decreases |updates|
  {
    if updates == [] then store
    else
      assert Complete(updates[..|updates| - 1]);
      ApplyUpdate(ApplyAll(store, updates[..|updates| - 1]), updates[|updates| - 1])
  }

  /** Update `i` targets `pair`. */
  predicate Targets(updates: seq<Update>, i: int, pair: (string, string)) {
    0 <= i < |updates| && updates[i].statementId == pair.0 && updates[i].partyId == Some(pair.1)
  }

  /** The last update targeting `pair`, if any. */
  function LastUpdateFor(updates: seq<Update>, pair: (string, string)): (r: Option<Update>)
    ensures r.None? <==> forall i | 0 <= i < |updates| :: !Targets(updates, i, pair)
    ensures r.Some? ==> exists i :: Targets(updates, i, pair) && updates[i] == r.value &&
                                    forall j | i < j < |updates| :: !Targets(updates, j, pair)
    decreases |updates|
  {
    if updates == [] then None
    else
      var n := |updates| - 1;
      if Targets(updates, n, pair) then Some(updates[n])
      else
        var r := LastUpdateFor(updates[..n], pair);
        assert forall i | 0 <= i < n :: Targets(updates[..n], i, pair) == Targets(updates, i, pair) && updates[..n][i] == updates[i];
        r
  }

  /**
   * A pair no update targets keeps its stored position; otherwise the last
   * update targeting it decides: NOT_SET leaves it without a position, any
   * other value is stored verbatim.
   */
  lemma {:induction false} LastUpdateWins(store: map<(string, string), string>, updates: seq<Update>, pair: (string, string))
    requires Complete(updates)
    ensures var after := ApplyAll(store, updates);
      match LastUpdateFor(updates, pair)
      case None => (pair in after <==> pair in store) && (pair in store ==> after[pair] == store[pair])
      case Some(u) =>
        if u.position == "NOT_SET" then pair !in after
        else pair in after && after[pair] == u.position
    decreases |updates|
  {
    if updates != [] {
      var n := |updates| - 1;
      assert Complete(updates[..n]);
      LastUpdateWins(store, updates[..n], pair);
    }
  }

  /** The party positions, one per (statementId, partyId) pair. */
  class PositionStore {
    var positions: map<(string, string), string>

    constructor (positions: map<(string, string), string>)
      ensures this.positions == positions
    {
      this.positions := positions;
    }

    /** The second loop of the action: deleteMany for NOT_SET, upsert otherwise. */
    method ApplyUpdates(updates: seq<Update>)
      requires Complete(updates)
      modifies this
      ensures positions == ApplyAll(old(positions), updates)
    {
      var i := 0;
      while i < |updates|
        invariant 0 <= i <= |updates|
        invariant Complete(updates[..i])
        invariant positions == ApplyAll(old(positions), updates[..i])
      {
        var update := updates[i];
        var pair := (update.statementId, update.partyId.value);
        if update.position == "NOT_SET" {
          positions := positions - {pair};
        } else {
          positions := positions[pair := update.position];
        }
        assert updates[..i + 1][..i] == updates[..i];
        i := i + 1;
      }
      assert updates[..i] == updates;
    }
  }

  /** The action: parse the form, apply the updates, and report how many there were. */
  method Action(store: PositionStore, entries: seq<(string, string)>) returns (count: nat)
    requires Complete(UpdatesOf(entries))
    modifies store
    ensures store.positions == ApplyAll(old(store.positions), UpdatesOf(entries))
    ensures count == |UpdatesOf(entries)|
  {
    var updates := ParseUpdates(entries);
    store.ApplyUpdates(updates);
    count := |updates|;
  }
}
