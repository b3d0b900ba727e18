/**
 * Join handling: the duplicate-suppressing `join` helper of
 * src/Criteria/JoinTrait.php and the class-keyed join stack of
 * src/QueryJoinStack.php.
 */
module Joins {
  import opened Php
  import opened Query

  // ---------------------------------------------------------------------------
  // JoinTrait
  // ---------------------------------------------------------------------------

  /** JoinTrait::hasJoin over a list of join clauses. */
  function HasJoinIn(js: seq<Join>, table: string): (r: bool)
    ensures r <==> exists i :: 0 <= i < |js| && js[i].table == table
  {
    if |js| == 0 then false
    else if js[0].table == table then true
    else
      var r := HasJoinIn(js[1..], table);
      assert forall i :: 1 <= i < |js| ==> js[1..][i - 1] == js[i];
      r
  }

  /** JoinTrait::hasJoin: some existing join is on exactly this table. */
  function HasJoin(q: Builder, table: string): bool
  {
    HasJoinIn(q.joins, table)
  }

  /** The `$i`-th element `list(...)` takes from an array, or null when there is none. */
  function ListAt(entries: Assoc<Value>, i: nat): Value
  {
    GetOr(entries, NatToString(i), Null)
  }

  /**
   * JoinTrait::join: nothing when the table is already joined; a closure
   * condition is passed as is; an array is unpacked into five positional
   * arguments; anything else is refused.
   */
  function JoinVia(q: Builder, table: string, conditions: Value): (r: Result<Builder>)
    ensures r.Err? <==> !HasJoin(q, table) && !conditions.Closure? && !conditions.Arr?
    ensures r.Err? ==> r.fault == InvalidArgument("Unknown join conditions.")
    ensures HasJoin(q, table) ==> r == Ok(q)
    ensures !HasJoin(q, table) && conditions.Closure? ==> r == Ok(AddJoin(q, Join(table, OnClosure(conditions.id))))
    ensures !HasJoin(q, table) && conditions.Arr? ==>
      var e := conditions.entries;
      r == Ok(AddJoin(q, Join(table, OnColumns(ListAt(e, 0), ListAt(e, 1), ListAt(e, 2), ListAt(e, 3), ListAt(e, 4)))))
    ensures r.Ok? ==> r.value.wheres == q.wheres && r.value.from == q.from && r.value.scopes == q.scopes
  {
    if HasJoin(q, table) then Ok(q)
    else
      match conditions
      case Closure(id) => Ok(AddJoin(q, Join(table, OnClosure(id))))
      case Arr(entries) =>
        Ok(AddJoin(q, Join(table, OnColumns(ListAt(entries, 0), ListAt(entries, 1), ListAt(entries, 2), ListAt(entries, 3), ListAt(entries, 4)))))
      case _ => Err(InvalidArgument("Unknown join conditions."))
  }

  /** How many joins are on `table`. */
  function JoinsOn(js: seq<Join>, table: string): (n: nat)
    ensures n == 0 <==> !HasJoinIn(js, table)
  {
    if |js| == 0 then 0
    else (if js[0].table == table then 1 else 0) + JoinsOn(js[1..], table)
  }

  lemma {:induction false} JoinsOnAppend(js: seq<Join>, j: Join, table: string)
    ensures JoinsOn(js + [j], table) == JoinsOn(js, table) + (if j.table == table then 1 else 0)
    decreases |js|
  {
    if |js| == 0 {
      assert ([] + [j])[1..] == [];
    } else {
      assert (js + [j])[1..] == js[1..] + [j];
      JoinsOnAppend(js[1..], j, table);
    }
  }

  /**
   * Joining a table that is already joined changes nothing, whatever the
   * conditions, so a second join of the same table is a no-op.
   */
  lemma JoinIsIdempotent(q: Builder, table: string, conditions: Value, again: Value)
    requires JoinVia(q, table, conditions).Ok?
    ensures JoinVia(JoinVia(q, table, conditions).value, table, again) == JoinVia(q, table, conditions)
  {
    var q' := JoinVia(q, table, conditions).value;
    if !HasJoin(q, table) {
      assert q'.joins[|q'.joins| - 1].table == table;
    }
  }

  /** Joining a table that was not joined leaves exactly one join on it, at the end. */
  lemma JoinAddsExactlyOne(q: Builder, table: string, conditions: Value)
    requires !HasJoin(q, table) && (conditions.Closure? || conditions.Arr?)
    ensures var r := JoinVia(q, table, conditions).value;
      && JoinsOn(r.joins, table) == 1
      && |r.joins| == |q.joins| + 1 && r.joins[..|q.joins|] == q.joins
      && r.joins[|q.joins|].table == table
  {
    var r := JoinVia(q, table, conditions).value;
    JoinsOnAppend(q.joins, r.joins[|q.joins|], table);
    assert r.joins == q.joins + [r.joins[|q.joins|]];
  }

  /** An array condition ['a.id', '=', 'b.a_id'] becomes join(table, 'a.id', '=', 'b.a_id', null, null). */
  lemma ArrayConditionsUnpack(q: Builder, table: string, one: Value, operator: Value, two: Value)
    requires !HasJoin(q, table)
    ensures JoinVia(q, table, Arr([("0", one), ("1", operator), ("2", two)])) ==
      Ok(AddJoin(q, Join(table, OnColumns(one, operator, two, Null, Null))))
  {
    ThreeEntryList(one, operator, two);
  }

  /** `[$one, $operator, $two]` read by position, with nothing at positions 3 and 4. */
  lemma ThreeEntryList(one: Value, operator: Value, two: Value)
    ensures var e := [("0", one), ("1", operator), ("2", two)];
      && ListAt(e, 0) == one && ListAt(e, 1) == operator && ListAt(e, 2) == two
      && ListAt(e, 3) == Null && ListAt(e, 4) == Null
  {
    var e := [("0", one), ("1", operator), ("2", two)];
    assert e[1..][1..][1..] == [];
    assert NatToString(0) == "0" && NatToString(1) == "1" && NatToString(2) == "2";
    assert NatToString(3) == "3" && NatToString(4) == "4";
    assert Keys(e) == ["0", "1", "2"];
    assert ListAt(e, 0) == one;
    var e1, e2 := e[1..], e[1..][1..];
    assert e1 == [("1", operator), ("2", two)] && e2 == [("2", two)];
    assert Get(e2, "2") == Some(two);
    assert Get(e1, "2") == Get(e2, "2");
    assert Get(e1, "1") == Some(operator);
    assert Get(e, "1") == Get(e1, "1") && Get(e, "2") == Get(e1, "2");
  }

  // ---------------------------------------------------------------------------
  // QueryJoinStack
  // ---------------------------------------------------------------------------

  /** A JoinInterface implementation: its class and the joins its `apply` adds to the query it gets. */
  datatype JoinObj = JoinObj(className: string, adds: seq<Join>)

  /** The stack: the query given to the constructor and the joins keyed by class name. */
  datatype JoinStack = JoinStack(query: Builder, joins: Assoc<JoinObj>)

  function NewStack(q: Builder): JoinStack
  {
    JoinStack(q, [])
  }

  /**
   * QueryJoinStack::push: `$this->joins[get_class($join)] = $join`. A join of
   * a class already present replaces it in place; a new class goes last.
   */
  function StackPush(s: JoinStack, j: JoinObj): (r: JoinStack)
    ensures r.query == s.query
    ensures Get(r.joins, j.className) == Some(j)
    ensures forall c :: c != j.className ==> Get(r.joins, c) == Get(s.joins, c)
    ensures j.className in Keys(s.joins) ==> Keys(r.joins) == Keys(s.joins)
    ensures j.className !in Keys(s.joins) ==> Keys(r.joins) == Keys(s.joins) + [j.className]
  {
    s.(joins := Put(s.joins, j.className, j))
  }

  /** A second push of the same class keeps only the second join and the count unchanged. */
  lemma PushSameClassReplaces(s: JoinStack, j1: JoinObj, j2: JoinObj)
    requires j1.className == j2.className
    ensures |StackPush(StackPush(s, j1), j2).joins| == |StackPush(s, j1).joins|
    ensures Get(StackPush(StackPush(s, j1), j2).joins, j1.className) == Some(j2)
  {
    assert |Keys(StackPush(StackPush(s, j1), j2).joins)| == |Keys(StackPush(s, j1).joins)|;
  }

  /** However many pushes, the stack holds at most one join per class. */
  lemma {:induction false} PushesKeepOnePerClass(s: JoinStack, js: seq<JoinObj>)
    requires Unique(s.joins)
    ensures Unique(PushAll(s, js).joins)
    decreases |js|
  {
    if |js| > 0 {
      PutKeepsUnique(s.joins, js[0].className, js[0]);
      PushesKeepOnePerClass(StackPush(s, js[0]), js[1..]);
    }
  }

  function PushAll(s: JoinStack, js: seq<JoinObj>): JoinStack
    decreases |js|
  {
    if |js| == 0 then s else PushAll(StackPush(s, js[0]), js[1..])
  }

  /**
   * `$join->apply($query)` where `$query` is an undefined local, so null:
   * a join that calls anything on it fails.
   */
  function ApplyToNull(j: JoinObj): (r: Result<()>)
    ensures r.Err? <==> |j.adds| > 0
  {
    if |j.adds| == 0 then Ok(()) else Err(CallOnNull("join"))
  }

  /** QueryJoinStack::apply as written: every stored join is handed null. */
  function StackApplyAsWritten(joins: Assoc<JoinObj>): (r: Result<()>)
    ensures r.Err? ==> r == Err(CallOnNull("join"))
    ensures |joins| == 0 ==> r.Ok?
    decreases |joins|
  {
    if |joins| == 0 then Ok(())
    else
      match ApplyToNull(joins[0].1)
      case Err(f) => Err(f)
      case Ok(_) => StackApplyAsWritten(joins[1..])
  }

  /**
   * As written, `apply` never adds a join to the stored query: it fails as
   * soon as a stored join tries to add one, and otherwise does nothing.
   */
  lemma {:induction false} StackApplyAsWrittenNeverJoins(joins: Assoc<JoinObj>)
    ensures StackApplyAsWritten(joins).Err? <==> exists i :: 0 <= i < |joins| && |joins[i].1.adds| > 0
    ensures StackApplyAsWritten(joins).Err? ==> StackApplyAsWritten(joins) == Err(CallOnNull("join"))
    decreases |joins|
  {
    if |joins| > 0 {
      StackApplyAsWrittenNeverJoins(joins[1..]);
      assert forall i :: 1 <= i < |joins| ==> joins[1..][i - 1] == joins[i];
    }
  }

  /** The stack with one stored join that adds a join: `apply` fails on the null query. */
  lemma StackApplyAsWrittenFails(q: Builder, j: JoinObj)
    requires |j.adds| > 0
    ensures StackApplyAsWritten(StackPush(NewStack(q), j).joins) == Err(CallOnNull("join"))
  {
    StackApplyAsWrittenNeverJoins(StackPush(NewStack(q), j).joins);
    assert StackPush(NewStack(q), j).joins[0] == (j.className, j);
  }

  /** What a join's `apply` does to the query it is given. */
  function ApplyJoinObj(q: Builder, j: JoinObj): Builder
  {
    q.(joins := q.joins + j.adds)
  }

  /** All joins the stored objects add, in key order. */
  function AllAdds(joins: Assoc<JoinObj>): seq<Join>
    decreases |joins|
  {
    if |joins| == 0 then [] else joins[0].1.adds + AllAdds(joins[1..])
  }

  /** The `foreach` of `apply` with the stored query passed to every join. */
  function ApplyEach(q: Builder, joins: Assoc<JoinObj>): (r: Builder)
    ensures r.from == q.from && r.wheres == q.wheres && r.scopes == q.scopes
    ensures |r.joins| == |q.joins| + |AllAdds(joins)| && r.joins[..|q.joins|] == q.joins
    decreases |joins|
  {
    if |joins| == 0 then q else ApplyEach(ApplyJoinObj(q, joins[0].1), joins[1..])
  }

  /** QueryJoinStack::apply with the stored query handed to each join. */
  function StackApply(s: JoinStack): (r: Builder)
    ensures r.from == s.query.from && r.wheres == s.query.wheres && r.scopes == s.query.scopes
    ensures |r.joins| >= |s.query.joins| && r.joins[..|s.query.joins|] == s.query.joins
  {
    ApplyEach(s.query, s.joins)
  }

  /**
   * Applying the stack calls every stored join once, in key order, on the
   * stored query: its joins are followed by what each join adds, and nothing
   * else in the query changes.
   */
  lemma {:induction false} ApplyEachAddsInOrder(q: Builder, joins: Assoc<JoinObj>)
    ensures ApplyEach(q, joins) == q.(joins := q.joins + AllAdds(joins))
    decreases |joins|
  {
    if |joins| > 0 {
      ApplyEachAddsInOrder(ApplyJoinObj(q, joins[0].1), joins[1..]);
      assert q.joins + joins[0].1.adds + AllAdds(joins[1..]) == q.joins + AllAdds(joins);
    }
  }

  lemma StackApplyAddsInOrder(s: JoinStack)
    ensures StackApply(s) == s.query.(joins := s.query.joins + AllAdds(s.joins))
  {
    ApplyEachAddsInOrder(s.query, s.joins);
  }
}
