/**
 * The admin statement list's action (app/routes/admin/vaa/statements/index.tsx).
 *
 * The statement table is a sequence of records whose ids are distinct (the
 * primary key). The action's three intents act on one record each: `delete`
 * removes it, `toggle` flips its `isActive`, and `reorder` exchanges its
 * `order` with that of its neighbour among the statements of the same topic,
 * taken in ascending `order`.
 */
module AdminStatements {
  import opened Wrappers
  import opened CatalogueData

  /** Statement ids are the table's primary key. */
  predicate DistinctIds(rows: seq<Statement>) {
    forall i, j | 0 <= i < j < |rows| :: rows[i].id != rows[j].id
  }

  /** With distinct ids a record occurs at most once. */
  lemma {:induction false} DistinctOccursOnce(rows: seq<Statement>, x: Statement)
    requires DistinctIds(rows)
    ensures multiset(rows)[x] <= 1
    decreases |rows|
  {
    if rows != [] {
      var n := |rows| - 1;
      assert rows == rows[..n] + [rows[n]];
      assert DistinctIds(rows[..n]);
      DistinctOccursOnce(rows[..n], x);
      if rows[n] == x {
        assert forall k | 0 <= k < n :: rows[..n][k].id != x.id;
        assert x !in rows[..n];
      }
    }
  }

  /** A record found at two places occurs twice. */
  lemma TwiceCounted(xs: seq<Statement>, a: int, b: int)
    requires 0 <= a < b < |xs| && xs[a] == xs[b]
    ensures multiset(xs)[xs[a]] >= 2
  {
    assert xs == xs[..a] + [xs[a]] + xs[a + 1..b] + [xs[b]] + xs[b + 1..];
  }

  /** `findUnique({ where: { id } })`. */
  function FindStatement(rows: seq<Statement>, id: string): (r: Option<Statement>)
    ensures r.Some? <==> exists i | 0 <= i < |rows| :: rows[i].id == id
    ensures r.Some? ==> r.value in rows && r.value.id == id
    ensures r.Some? ==> exists i | 0 <= i < |rows| :: rows[i] == r.value &&
                                  forall j | 0 <= j < i :: rows[j].id != id
    decreases |rows|
  {
    if rows == [] then None
    else if rows[0].id == id then Some(rows[0])
    else
      var r := FindStatement(rows[1..], id);
      assert forall i | 0 <= i < |rows[1..]| :: rows[1..][i] == rows[i + 1];
      r
  }

  // ------------------------------------------------------------- delete

  /** The table after `delete({ where: { id } })`. */
  function Deleted(rows: seq<Statement>, id: string): seq<Statement>
    decreases |rows|
  {
    if rows == [] then []
    else
      var n := |rows| - 1;
      Deleted(rows[..n], id) + if rows[n].id == id then [] else [rows[n]]
  }

  /** Deleting keeps exactly the records with another id. */
  lemma {:induction false} DeletedMembers(rows: seq<Statement>, id: string)
    ensures forall s :: s in Deleted(rows, id) <==> s in rows && s.id != id
    decreases |rows|
  {
    if rows != [] {
      var n := |rows| - 1;
      DeletedMembers(rows[..n], id);
      assert rows == rows[..n] + [rows[n]];
    }
  }

  /** Deleting an id no record has changes nothing. */
  lemma {:induction false} DeletedAbsent(rows: seq<Statement>, id: string)
    requires forall i | 0 <= i < |rows| :: rows[i].id != id
    ensures Deleted(rows, id) == rows
    decreases |rows|
  {
    if rows != [] {
      var n := |rows| - 1;
      DeletedAbsent(rows[..n], id);
      assert rows == rows[..n] + [rows[n]];
    }
  }

  /** Deleting keeps the ids distinct. */
  lemma {:induction false} DeletedDistinct(rows: seq<Statement>, id: string)
    requires DistinctIds(rows)
    ensures DistinctIds(Deleted(rows, id))
    decreases |rows|
  {
    if rows != [] {
      var n := |rows| - 1;
      var init := rows[..n];
      assert DistinctIds(init);
      DeletedDistinct(init, id);
      var r := Deleted(init, id);
      if rows[n].id != id {
        DeletedMembers(init, id);
        var r2 := r + [rows[n]];
        forall a, b | 0 <= a < b < |r2| ensures r2[a].id != r2[b].id {
          assert r2[a] == r[a];
          if b == |r| {
            assert r[a] in init;
            var m :| 0 <= m < n && init[m] == r[a];
            assert rows[m] == r[a] && r2[b] == rows[n];
          } else {
            assert r2[b] == r[b];
          }
        }
      }
    }
  }

  /** With distinct ids, deleting a present id removes exactly one record. */
  lemma {:induction false} DeletedLength(rows: seq<Statement>, id: string)
    requires DistinctIds(rows)
    requires exists i | 0 <= i < |rows| :: rows[i].id == id
    ensures |Deleted(rows, id)| == |rows| - 1
    decreases |rows|
  {
    var n := |rows| - 1;
    var init := rows[..n];
    assert DistinctIds(init);
    var i :| 0 <= i < |rows| && rows[i].id == id;
    if rows[n].id == id {
      assert forall k | 0 <= k < n :: init[k].id != id;
      DeletedAbsent(init, id);
    } else {
      assert init[i].id == id;
      DeletedLength(init, id);
    }
  }

  // ------------------------------------------------------------- toggle

  /** The table after `update({ where: { id }, data: { isActive: !statement.isActive } })`. */
  function Flipped(rows: seq<Statement>, id: string): (r: seq<Statement>)
    ensures |r| == |rows|
    // exactly the named statement changes its active flag, and nothing else changes
    ensures forall i | 0 <= i < |rows| ::
      r[i].isActive == (rows[i].isActive != (rows[i].id == id)) && r[i].(isActive := rows[i].isActive) == rows[i]
  {
    seq(|rows|, i requires 0 <= i < |rows| => if rows[i].id == id then rows[i].(isActive := !rows[i].isActive) else rows[i])
  }

  /** Toggling the same statement twice restores the table. */
  lemma ToggleTwice(rows: seq<Statement>, id: string)
    ensures Flipped(Flipped(rows, id), id) == rows
  {
    var r := Flipped(Flipped(rows, id), id);
    forall i | 0 <= i < |rows| ensures r[i] == rows[i] {
      assert Flipped(rows, id)[i].id == rows[i].id;
    }
  }

  /** Flipping keeps every id, hence the key. */
  lemma FlippedKeepsDistinct(rows: seq<Statement>, id: string)
    requires DistinctIds(rows)
    ensures DistinctIds(Flipped(rows, id))
  {
    var r := Flipped(rows, id);
    assert forall i | 0 <= i < |rows| :: r[i].id == rows[i].id;
  }

  // ------------------------------------------------------------ reorder

  predicate SortedByOrder(xs: seq<Statement>) {
    forall i, j | 0 <= i < j < |xs| :: xs[i].order <= xs[j].order
  }

  /** Insert `x` after every element whose order is not above its own. */
  function InsertByOrder(s: seq<Statement>, x: Statement): seq<Statement>
    decreases |s|
  {
    if s == [] || s[|s| - 1].order <= x.order then s + [x]
    else InsertByOrder(s[..|s| - 1], x) + [s[|s| - 1]]
  }

  /** Insertion adds `x` and nothing else. */
  lemma {:induction false} InsertOrderMembers(s: seq<Statement>, x: Statement)
    ensures |InsertByOrder(s, x)| == |s| + 1
    ensures forall y | y in InsertByOrder(s, x) :: y == x || y in s
    decreases |s|
  {
    if !(s == [] || s[|s| - 1].order <= x.order) {
      var init := s[..|s| - 1];
      InsertOrderMembers(init, x);
      assert forall y | y in init :: y in s;
    }
  }

  /** Insertion into a sorted sequence keeps it sorted. */
  lemma {:induction false} InsertOrderSorted(s: seq<Statement>, x: Statement)
    requires SortedByOrder(s)
    ensures SortedByOrder(InsertByOrder(s, x))
    decreases |s|
  {
    if !(s == [] || s[|s| - 1].order <= x.order) {
      var init, last := s[..|s| - 1], s[|s| - 1];
      InsertOrderSorted(init, x);
      InsertOrderMembers(init, x);
      var ins := InsertByOrder(init, x);
      var res := ins + [last];
      assert InsertByOrder(s, x) == res;
      forall i, j | 0 <= i < j < |res| ensures res[i].order <= res[j].order {
        assert res[i] == ins[i];
        if j == |ins| {
          assert ins[i] in ins;
        } else {
          assert res[j] == ins[j];
        }
      }
    }
  }

  /** Insertion adds exactly one occurrence of `x`. */
  lemma {:induction false} InsertOrderPermutes(s: seq<Statement>, x: Statement)
    ensures multiset(InsertByOrder(s, x)) == multiset(s) + multiset{x}
    decreases |s|
  {
    if !(s == [] || s[|s| - 1].order <= x.order) {
      var init := s[..|s| - 1];
      InsertOrderPermutes(init, x);
      assert s == init + [s[|s| - 1]];
    }
  }

  /** `orderBy: { order: "asc" }` by insertion (ties keep table order). */
  function SortByOrder(xs: seq<Statement>): seq<Statement>
    decreases |xs|
  {
    if xs == [] then []
    else InsertByOrder(SortByOrder(xs[..|xs| - 1]), xs[|xs| - 1])
  }

  /** The sort is a sorted permutation of its input. */
  lemma {:induction false} SortByOrderFacts(xs: seq<Statement>)
    ensures SortedByOrder(SortByOrder(xs))
    ensures multiset(SortByOrder(xs)) == multiset(xs)
    decreases |xs|
  {
    if xs != [] {
      var init := xs[..|xs| - 1];
      SortByOrderFacts(init);
      InsertOrderSorted(SortByOrder(init), xs[|xs| - 1]);
      InsertOrderPermutes(SortByOrder(init), xs[|xs| - 1]);
      assert xs == init + [xs[|xs| - 1]];
    }
  }

  /** `where: { topicId }`: the statements of one topic, in table order. */
  function InTopic(rows: seq<Statement>, topicId: string): (r: seq<Statement>)
    ensures forall s :: s in r <==> s in rows && s.topicId == topicId
    ensures multiset(r) <= multiset(rows)
    decreases |rows|
  {
    if rows == [] then []
    else
      var n := |rows| - 1;
      assert rows == rows[..n] + [rows[n]];
      InTopic(rows[..n], topicId) + if rows[n].topicId == topicId then [rows[n]] else []
  }

  /** The siblings query: the statements of the topic, ascending by `order`. */
  function Siblings(rows: seq<Statement>, topicId: string): (r: seq<Statement>)
    ensures SortedByOrder(r)
    ensures multiset(r) == multiset(InTopic(rows, topicId))
    ensures forall s :: s in r <==> s in rows && s.topicId == topicId
  {
    var r := SortByOrder(InTopic(rows, topicId));
    SortByOrderFacts(InTopic(rows, topicId));
    assert forall s :: s in r <==> s in multiset(r);
    r
  }

  /** `findIndex((s) => s.id === id)`. */
  function FindIndex(xs: seq<Statement>, id: string): (i: int)
    ensures -1 <= i < |xs|
    ensures i >= 0 <==> exists k | 0 <= k < |xs| :: xs[k].id == id
    ensures i >= 0 ==> xs[i].id == id && forall k | 0 <= k < i :: xs[k].id != id
    decreases |xs|
  {
    if xs == [] then -1
    else if xs[0].id == id then 0
    else
      var r := FindIndex(xs[1..], id);
      assert forall k | 0 <= k < |xs[1..]| :: xs[1..][k] == xs[k + 1];
      if r < 0 then -1 else r + 1
  }

  /** `up` moves one place towards the front, any other direction one place back, both clamped. */
  function NewIndex(direction: string, currentIndex: int, count: int): (r: int)
    requires 0 <= currentIndex < count
    ensures 0 <= r < count
    ensures direction == "up" ==> r == if currentIndex == 0 then 0 else currentIndex - 1
    ensures direction != "up" ==> r == if currentIndex == count - 1 then currentIndex else currentIndex + 1
  {
    if direction == "up" then (if 0 >= currentIndex - 1 then 0 else currentIndex - 1)
    else (if count - 1 <= currentIndex + 1 then count - 1 else currentIndex + 1)
  }

  /** `update({ where: { id }, data: { order } })`. */
  function SetOrder(rows: seq<Statement>, id: string, order: int): (r: seq<Statement>)
    ensures |r| == |rows|
    ensures forall k | 0 <= k < |rows| :: r[k].id == rows[k].id
  {
    seq(|rows|, k requires 0 <= k < |rows| => if rows[k].id == id then rows[k].(order := order) else rows[k])
  }

  /** With distinct ids, setting an order changes the one record with that id. */
  lemma SetOrderAt(rows: seq<Statement>, i: int, order: int)
    requires DistinctIds(rows) && 0 <= i < |rows|
    ensures SetOrder(rows, rows[i].id, order) == rows[i := rows[i].(order := order)]
  {
  }

  /** Where the named statement sits among its siblings, and where it moves to. */
  datatype Move = Move(siblings: seq<Statement>, currentIndex: int, newIndex: int)

  /** The siblings, `currentIndex` and `newIndex` of a found statement. */
  function MoveOf(rows: seq<Statement>, statement: Statement, direction: string): (m: Move)
    requires statement in rows
    ensures m.siblings == Siblings(rows, statement.topicId)
    ensures 0 <= m.currentIndex < |m.siblings| && 0 <= m.newIndex < |m.siblings|
    ensures m.currentIndex == FindIndex(m.siblings, statement.id)
  {
    var siblings := Siblings(rows, statement.topicId);
    assert statement in siblings;
    var ci := FindIndex(siblings, statement.id);
    Move(siblings, ci, NewIndex(direction, ci, |siblings|))
  }

  /** The table after the `reorder` intent for `id` and `direction`. */
  function Reordered(rows: seq<Statement>, id: string, direction: string): seq<Statement> {
    match FindStatement(rows, id)
    case None => rows
    case Some(statement) =>
      var m := MoveOf(rows, statement, direction);
      if m.currentIndex == m.newIndex then rows
      else
        var swapWith := m.siblings[m.newIndex];
        SetOrder(SetOrder(rows, statement.id, swapWith.order), swapWith.id, statement.order)
  }

  /** Moving the first statement of a topic up, or its last one down, changes nothing. */
  lemma ReorderAtEdge(rows: seq<Statement>, id: string, direction: string)
    requires FindStatement(rows, id).Some?
    requires var s := FindStatement(rows, id).value;
      var siblings := Siblings(rows, s.topicId);
      var ci := FindIndex(siblings, id);
      (direction == "up" && ci == 0) || (direction != "up" && ci == |siblings| - 1)
    ensures Reordered(rows, id, direction) == rows
  {
  }

  /** The neighbour a move picks is another statement of the same topic. */
  lemma NeighbourIsOther(rows: seq<Statement>, statement: Statement, direction: string)
    requires DistinctIds(rows) && statement in rows
    requires var m := MoveOf(rows, statement, direction); m.currentIndex != m.newIndex
    ensures var m := MoveOf(rows, statement, direction);
      && m.siblings[m.newIndex] in rows
      && m.siblings[m.newIndex].topicId == statement.topicId
      && m.siblings[m.newIndex].id != statement.id
  {
    var m := MoveOf(rows, statement, direction);
    var siblings, ci, ni := m.siblings, m.currentIndex, m.newIndex;
    assert siblings[ni] in siblings;
    assert multiset(siblings)[statement] <= multiset(rows)[statement];
    DistinctOccursOnce(rows, statement);
    if siblings[ni].id == statement.id {
      var a, b := if ci < ni then ci else ni, if ci < ni then ni else ci;
      var i :| 0 <= i < |rows| && rows[i] == statement;
      var j :| 0 <= j < |rows| && rows[j] == siblings[ni];
      assert i == j;
      TwiceCounted(siblings, a, b);
      assert false;
    }
  }

  /** The two records a reorder away from the edges updates, by their places in the table. */
  lemma SwapIndices(rows: seq<Statement>, id: string, direction: string) returns (i: int, j: int)
    requires DistinctIds(rows)
    requires FindStatement(rows, id).Some?
    requires var s := FindStatement(rows, id).value;
      var m := MoveOf(rows, s, direction); m.currentIndex != m.newIndex
    ensures var s := FindStatement(rows, id).value;
      var m := MoveOf(rows, s, direction);
      && 0 <= i < |rows| && 0 <= j < |rows| && i != j
      && rows[i].id == id && rows[j] == m.siblings[m.newIndex]
      && rows[j].topicId == rows[i].topicId
      && Reordered(rows, id, direction) == Swap(rows, i, j)
  {
    var s := FindStatement(rows, id).value;
    var m := MoveOf(rows, s, direction);
    NeighbourIsOther(rows, s, direction);
    var swapWith := m.siblings[m.newIndex];
    i := IndexOf(rows, s);
    j := IndexOf(rows, swapWith);
    SwapBySetOrder(rows, i, j);
  }

  /** A place in the table holding a record known to be in it. */
  lemma IndexOf(rows: seq<Statement>, x: Statement) returns (i: int)
    requires x in rows
    ensures 0 <= i < |rows| && rows[i] == x
  {
    i :| 0 <= i < |rows| && rows[i] == x;
  }

  /** The two updates of the transaction, on records `i` and `j` with distinct ids, exchange their orders. */
  lemma SwapBySetOrder(rows: seq<Statement>, i: int, j: int)
    requires DistinctIds(rows)
    requires 0 <= i < |rows| && 0 <= j < |rows| && rows[i].id != rows[j].id
    ensures SetOrder(SetOrder(rows, rows[i].id, rows[j].order), rows[j].id, rows[i].order) == Swap(rows, i, j)
  {
    var rows1 := rows[i := rows[i].(order := rows[j].order)];
    SetOrderAt(rows, i, rows[j].order);
    assert DistinctIds(rows1) by {
      assert forall k | 0 <= k < |rows| :: rows1[k].id == rows[k].id;
    }
    SetOrderAt(rows1, j, rows[i].order);
  }

  /** Records `i` and `j` exchange their `order` values. */
  function Swap(rows: seq<Statement>, i: int, j: int): seq<Statement>
    requires 0 <= i < |rows| && 0 <= j < |rows|
  {
    rows[i := rows[i].(order := rows[j].order)][j := rows[j].(order := rows[i].order)]
  }

  /**
   * Away from the edges, the named statement and its neighbour among the
   * topic's statements sorted by `order` exchange their `order` values, and
   * every other record is unchanged.
   */
  lemma ReorderSwapsTwo(rows: seq<Statement>, id: string, direction: string)
    requires DistinctIds(rows)
    requires FindStatement(rows, id).Some?
    requires var s := FindStatement(rows, id).value;
      var m := MoveOf(rows, s, direction); m.currentIndex != m.newIndex
    ensures var s := FindStatement(rows, id).value;
      var m := MoveOf(rows, s, direction);
      exists i, j | 0 <= i < |rows| && 0 <= j < |rows| ::
        && i != j && rows[i].id == id && rows[j] == m.siblings[m.newIndex]
        && rows[j].topicId == rows[i].topicId
        && Reordered(rows, id, direction) == Swap(rows, i, j)
  {
    var i, j := SwapIndices(rows, id, direction);
  }

  /**
   * How many of one topic's statements hold the order value `v`: as a function
   * of `v`, the multiset of the topic's `order` values.
   */
  function OrderCount(rows: seq<Statement>, topicId: string, v: int): nat
    decreases |rows|
  {
    if rows == [] then 0
    else OrderCount(rows[..|rows| - 1], topicId, v) + Hit(rows[|rows| - 1], topicId, v)
  }

  function Hit(s: Statement, topicId: string, v: int): nat {
    if s.topicId == topicId && s.order == v then 1 else 0
  }

  /** Replacing one record trades its count for the new record's. */
  lemma {:induction false} OrderCountUpdate(rows: seq<Statement>, k: int, x: Statement, topicId: string, v: int)
    requires 0 <= k < |rows|
    ensures OrderCount(rows[k := x], topicId, v) + Hit(rows[k], topicId, v) ==
            OrderCount(rows, topicId, v) + Hit(x, topicId, v)
    decreases |rows|
  {
    var n := |rows| - 1;
    var r := rows[k := x];
    if k == n {
      assert r[..n] == rows[..n];
    } else {
      assert r[..n] == rows[..n][k := x];
      assert r[n] == rows[n] && rows[..n][k] == rows[k];
      OrderCountUpdate(rows[..n], k, x, topicId, v);
    }
  }

  /** Exchanging the orders of two records of one topic keeps every topic's multiset of orders. */
  lemma SwapKeepsOrders(rows: seq<Statement>, i: int, j: int, topicId: string, v: int)
    requires 0 <= i < |rows| && 0 <= j < |rows| && i != j
    requires rows[i].topicId == rows[j].topicId
    ensures OrderCount(Swap(rows, i, j), topicId, v) == OrderCount(rows, topicId, v)
  {
    var a := rows[i].(order := rows[j].order);
    var b := rows[j].(order := rows[i].order);
    var rows1 := rows[i := a];
    assert rows1[j := b] == Swap(rows, i, j);
    assert rows1[j] == rows[j];
    OrderCountUpdate(rows, i, a, topicId, v);
    OrderCountUpdate(rows1, j, b, topicId, v);
  }

  /** A reorder keeps every topic's multiset of `order` values. */
  lemma ReorderKeepsOrders(rows: seq<Statement>, id: string, direction: string, topicId: string, v: int)
    requires DistinctIds(rows)
    ensures OrderCount(Reordered(rows, id, direction), topicId, v) == OrderCount(rows, topicId, v)
  {
    if FindStatement(rows, id).Some? {
      var s := FindStatement(rows, id).value;
      var m := MoveOf(rows, s, direction);
      if m.currentIndex != m.newIndex {
        var i, j := SwapIndices(rows, id, direction);
        SwapKeepsOrders(rows, i, j, topicId, v);
      }
    }
  }

  /** A reorder changes no field but `order`. */
  lemma ReorderOnlyOrders(rows: seq<Statement>, id: string, direction: string)
    requires DistinctIds(rows)
    ensures var r := Reordered(rows, id, direction);
      && |r| == |rows|
      && forall k | 0 <= k < |rows| :: r[k].(order := rows[k].order) == rows[k]
  {
    if FindStatement(rows, id).Some? {
      var s := FindStatement(rows, id).value;
      var m := MoveOf(rows, s, direction);
      if m.currentIndex != m.newIndex {
        var i, j := SwapIndices(rows, id, direction);
        SwapOnlyOrders(rows, i, j);
      } else {
        assert Reordered(rows, id, direction) == rows;
      }
    } else {
      assert Reordered(rows, id, direction) == rows;
    }
  }

  /** A reorder keeps the ids distinct. */
  lemma ReorderedDistinct(rows: seq<Statement>, id: string, direction: string)
    requires DistinctIds(rows)
    ensures DistinctIds(Reordered(rows, id, direction))
  {
    var r := Reordered(rows, id, direction);
    ReorderOnlyOrders(rows, id, direction);
    assert forall k | 0 <= k < |r| :: r[k].id == rows[k].id;
  }

  /** A swap changes no field but `order`. */
  lemma SwapOnlyOrders(rows: seq<Statement>, i: int, j: int)
    requires 0 <= i < |rows| && 0 <= j < |rows|
    ensures |Swap(rows, i, j)| == |rows|
    ensures forall k | 0 <= k < |rows| :: Swap(rows, i, j)[k].(order := rows[k].order) == rows[k]
  {
    var r := Swap(rows, i, j);
    forall k | 0 <= k < |rows| ensures r[k].(order := rows[k].order) == rows[k] {
      if k == j {
        assert r[k] == rows[j].(order := rows[i].order);
      } else if k == i {
        assert r[k] == rows[i].(order := rows[j].order);
      } else {
        assert r[k] == rows[k];
      }
    }
  }

  // -------------------------------------------------------------- store

  /** What the action returns; `Failed` is a thrown database error. */
  datatype ActionResult = DeletedResult | ToggledResult | ReorderedResult | NoIntent | Failed

  /** The statement table. */
  class StatementStore {
    var rows: seq<Statement>

    predicate Valid()
      reads this
    {
      DistinctIds(rows)
    }

    constructor (rows: seq<Statement>)
      requires DistinctIds(rows)
      ensures Valid() && this.rows == rows
    {
      this.rows := rows;
    }

    /** `delete({ where: { id } })`, which throws when no record has the id. */
    method Delete(id: string) returns (found: bool)
      requires Valid()
      modifies this
      ensures Valid()
      ensures found <==> exists i | 0 <= i < |old(rows)| :: old(rows)[i].id == id
      ensures rows == if found then Deleted(old(rows), id) else old(rows)
    {
      var statement := FindStatement(rows, id);
      if statement.None? {
        return false;
      }
      DeletedDistinct(rows, id);
      rows := Deleted(rows, id);
      found := true;
    }

    /** The `toggle` intent: an unknown id changes nothing. */
    method Toggle(id: string)
      requires Valid()
      modifies this
      ensures Valid()
      ensures rows == Flipped(old(rows), id)
    {
      FlippedKeepsDistinct(rows, id);
      var statement := FindStatement(rows, id);
      if statement.Some? {
        rows := Flipped(rows, id);
      } else {
        assert Flipped(rows, id) == rows;
      }
    }

    /** The `reorder` intent: both updates run in one transaction. */
    method Reorder(id: string, direction: string)
      requires Valid()
      modifies this
      ensures Valid()
      ensures rows == Reordered(old(rows), id, direction)
    {
      ReorderedDistinct(rows, id, direction);
      var statement := FindStatement(rows, id);
      if statement.Some? {
        var s := statement.value;
        var m := MoveOf(rows, s, direction);
        var siblings, currentIndex, newIndex := m.siblings, m.currentIndex, m.newIndex;
        if currentIndex != newIndex {
          var swapWith := siblings[newIndex];
          rows := SetOrder(SetOrder(rows, s.id, swapWith.order), swapWith.id, s.order);
        }
      }
    }
  }

  /** The intents the action handles. */
  predicate KnownIntent(intent: Option<string>) {
    intent == Some("delete") || intent == Some("toggle") || intent == Some("reorder")
  }

  /**
   * The action, dispatching on the `intent` field; `intent`, `id` and
   * `direction` are None when absent from the form. A missing `id` reaches
   * the database lookup as null, which throws. A missing `direction` is not
   * "up", so it moves the statement down.
   */
  method Action(store: StatementStore, intent: Option<string>, id: Option<string>, direction: Option<string>) returns (result: ActionResult)
    requires store.Valid()
    modifies store
    ensures store.Valid()
    ensures KnownIntent(intent) && id.None? ==> result == Failed && store.rows == old(store.rows)
    ensures intent == Some("delete") && id.Some? ==>
      (result == DeletedResult <==> exists i | 0 <= i < |old(store.rows)| :: old(store.rows)[i].id == id.value) &&
      (result == DeletedResult ==> store.rows == Deleted(old(store.rows), id.value)) &&
      (result != DeletedResult ==> result == Failed && store.rows == old(store.rows))
    ensures intent == Some("toggle") && id.Some? ==> result == ToggledResult && store.rows == Flipped(old(store.rows), id.value)
    ensures intent == Some("reorder") && id.Some? ==>
      result == ReorderedResult && store.rows == Reordered(old(store.rows), id.value, direction.GetOr(""))
    ensures !KnownIntent(intent) ==> result == NoIntent && store.rows == old(store.rows)
  {
    if KnownIntent(intent) && id.None? {
      result := Failed;
    } else if intent == Some("delete") {
      var found := store.Delete(id.value);
      result := if found then DeletedResult else Failed;
    } else if intent == Some("toggle") {
      store.Toggle(id.value);
      result := ToggledResult;
    } else if intent == Some("reorder") {
      store.Reorder(id.value, direction.GetOr(""));
      result := ReorderedResult;
    } else {
      result := NoIntent;
    }
  }
}
