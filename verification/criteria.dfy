/**
 * The criteria of src/Criteria: objects that add one group of where
 * clauses to a query (SimpleCriteria, SearchCriteria, CallbackCriteria) or
 * combine other criteria into AND/OR groups (MultipleCriteria).
 */
module Criteria {
  import opened Php
  import opened Query

  /** SearchCriteria::LOGIC_AND and MultipleCriteria::LOGIC_AND. */
  const LOGIC_AND: int := 1
  /** SearchCriteria::LOGIC_OR and MultipleCriteria::LOGIC_OR. */
  const LOGIC_OR: int := 2

  /** The four clause lists SimpleCriteria records. */
  datatype Recorded = Recorded(
    wheres: seq<Comparison>,
    orWheres: seq<Comparison>,
    whereIns: seq<Membership>,
    orWhereIns: seq<Membership>)

  const NothingRecorded: Recorded := Recorded([], [], [], [])

  datatype Criteria =
    | Simple(recorded: Recorded)
    | Search(columns: seq<string>, search: string, logic: Value)
    | Multiple(entries: seq<(Criteria, int)>)
    | Callback(run: Builder -> Builder)

  // ---------------------------------------------------------------------------
  // SimpleCriteria
  // ---------------------------------------------------------------------------

  /** `where($column, $value, $operator = '=')`. */
  function Where(s: Recorded, column: string, value: Value, operator: string := "="): (r: Recorded)
    ensures r.wheres == s.wheres + [Comparison(column, operator, value)]
    ensures r.orWheres == s.orWheres && r.whereIns == s.whereIns && r.orWhereIns == s.orWhereIns
  {
    s.(wheres := s.wheres + [Comparison(column, operator, value)])
  }

  /** `orWhere($column, $value, $operator = '=')`. */
  function OrWhere(s: Recorded, column: string, value: Value, operator: string := "="): (r: Recorded)
    ensures r.orWheres == s.orWheres + [Comparison(column, operator, value)]
    ensures r.wheres == s.wheres && r.whereIns == s.whereIns && r.orWhereIns == s.orWhereIns
  {
    s.(orWheres := s.orWheres + [Comparison(column, operator, value)])
  }

  /** `whereIn($column, $values)`: recorded even when `values` is empty. */
  function WhereIn(s: Recorded, column: string, values: seq<Value>): (r: Recorded)
    ensures r.whereIns == s.whereIns + [Membership(column, values)]
    ensures r.wheres == s.wheres && r.orWheres == s.orWheres && r.orWhereIns == s.orWhereIns
  {
    s.(whereIns := s.whereIns + [Membership(column, values)])
  }

  /** `orWhereIn($column, $values)`: recorded even when `values` is empty. */
  function OrWhereIn(s: Recorded, column: string, values: seq<Value>): (r: Recorded)
    ensures r.orWhereIns == s.orWhereIns + [Membership(column, values)]
    ensures r.wheres == s.wheres && r.orWheres == s.orWheres && r.whereIns == s.whereIns
  {
    s.(orWhereIns := s.orWhereIns + [Membership(column, values)])
  }

  /** The clauses SimpleCriteria::apply puts inside its group. */
  function SimpleGroup(s: Recorded): seq<Clause>
  {
    BasicCalls(And, s.wheres) + BasicCalls(Or, s.orWheres) + InCalls(And, s.whereIns) + InCalls(Or, s.orWhereIns)
  }

  /**
   * The group is what the nested closure builds by calling `where`, then
   * `orWhere`, `whereIn` and `orWhereIn` once per recorded entry, in that
   * order, on the fresh inner query.
   */
  lemma SimpleGroupIsReplay(s: Recorded, table: string)
    ensures var q1 := ReplayBasic(NewQuery(table), And, s.wheres);
      var q2 := ReplayBasic(q1, Or, s.orWheres);
      var q3 := ReplayIn(q2, And, s.whereIns);
      ReplayIn(q3, Or, s.orWhereIns).wheres == SimpleGroup(s)
  {
    var q1 := ReplayBasic(NewQuery(table), And, s.wheres);
    var q2 := ReplayBasic(q1, Or, s.orWheres);
    var q3 := ReplayIn(q2, And, s.whereIns);
    ReplayBasicAppends(NewQuery(table), And, s.wheres);
    ReplayBasicAppends(q1, Or, s.orWheres);
    ReplayInAppends(q2, And, s.whereIns);
    ReplayInAppends(q3, Or, s.orWhereIns);
    assert [] + BasicCalls(And, s.wheres) == BasicCalls(And, s.wheres);
  }

  /**
   * Inside the group come all wheres, then all orWheres, whereIns and
   * orWhereIns, each list in the order it was recorded.
   */
  lemma SimpleGroupLayout(s: Recorded)
    ensures var g := SimpleGroup(s);
      var a, b, c := |s.wheres|, |s.wheres| + |s.orWheres|, |s.wheres| + |s.orWheres| + |s.whereIns|;
      && |g| == c + |s.orWhereIns|
      && (forall i :: 0 <= i < a ==> g[i] == Basic(And, s.wheres[i].column, s.wheres[i].operator, s.wheres[i].value))
      && (forall i :: a <= i < b ==> g[i] == Basic(Or, s.orWheres[i - a].column, s.orWheres[i - a].operator, s.orWheres[i - a].value))
      && (forall i :: b <= i < c ==> g[i] == In(And, s.whereIns[i - b].column, s.whereIns[i - b].values))
      && (forall i :: c <= i < |g| ==> g[i] == In(Or, s.orWhereIns[i - c].column, s.orWhereIns[i - c].values))
  {
  }

  /** A recorded `where` goes after the earlier wheres and before every other kind. */
  lemma WhereLandsAfterEarlierWheres(s: Recorded, column: string, value: Value, operator: string)
    ensures var g := SimpleGroup(s); var n := |s.wheres|;
      SimpleGroup(Where(s, column, value, operator)) == g[..n] + [Basic(And, column, operator, value)] + g[n..]
  {
    BasicCallsAppend(And, s.wheres, Comparison(column, operator, value));
    var g := SimpleGroup(s);
    assert g[..|s.wheres|] == BasicCalls(And, s.wheres);
  }

  /** A recorded `orWhere` goes after every where and every earlier orWhere. */
  lemma OrWhereLandsAfterWheres(s: Recorded, column: string, value: Value, operator: string)
    ensures var g := SimpleGroup(s); var n := |s.wheres| + |s.orWheres|;
      SimpleGroup(OrWhere(s, column, value, operator)) == g[..n] + [Basic(Or, column, operator, value)] + g[n..]
  {
    BasicCallsAppend(Or, s.orWheres, Comparison(column, operator, value));
    var g := SimpleGroup(s);
    assert g[..|s.wheres| + |s.orWheres|] == BasicCalls(And, s.wheres) + BasicCalls(Or, s.orWheres);
  }

  /** A recorded `whereIn`, even with no values, goes before every orWhereIn. */
  lemma WhereInLandsBeforeOrWhereIns(s: Recorded, column: string, values: seq<Value>)
    ensures var g := SimpleGroup(s); var n := |g| - |s.orWhereIns|;
      SimpleGroup(WhereIn(s, column, values)) == g[..n] + [In(And, column, values)] + g[n..]
  {
    InCallsAppend(And, s.whereIns, Membership(column, values));
    var g := SimpleGroup(s);
    assert g[..|g| - |s.orWhereIns|] == BasicCalls(And, s.wheres) + BasicCalls(Or, s.orWheres) + InCalls(And, s.whereIns);
  }

  /** A recorded `orWhereIn`, even with no values, is the last clause of the group. */
  lemma OrWhereInLandsLast(s: Recorded, column: string, values: seq<Value>)
    ensures SimpleGroup(OrWhereIn(s, column, values)) == SimpleGroup(s) + [In(Or, column, values)]
  {
    InCallsAppend(Or, s.orWhereIns, Membership(column, values));
  }

  // ---------------------------------------------------------------------------
  // SearchCriteria
  // ---------------------------------------------------------------------------

  /** `new SearchCriteria($columns, $search, $logic = LOGIC_AND)`: `logic` must be exactly 1 or 2. */
  function NewSearch(columns: seq<string>, search: string, logic: Value := Int(LOGIC_AND)): (r: Result<Criteria>)
    ensures r.Ok? <==> logic == Int(LOGIC_AND) || logic == Int(LOGIC_OR)
    ensures r.Ok? ==> r.value == Search(columns, search, logic)
    ensures r.Err? ==> r.fault.InvalidArgument?
  {
    if logic != Int(LOGIC_AND) && logic != Int(LOGIC_OR) then
      Err(InvalidArgument("Invalid value for $logic, use one of the SearchCriteria::LOGIC constants"))
    else Ok(Search(columns, search, logic))
  }

  /** `str_replace(' ', '%', $s)`. */
  function SpacesToPercent(s: string): (r: string)
    ensures |r| == |s|
    ensures forall i :: 0 <= i < |s| ==> r[i] == (if s[i] == ' ' then '%' else s[i])
  {
    if |s| == 0 then "" else [if s[0] == ' ' then '%' else s[0]] + SpacesToPercent(s[1..])
  }

  /** The LIKE pattern: 'foo bar' becomes '%foo%bar%'. */
  function Pattern(search: string): (r: string)
    ensures |r| == |search| + 2
    ensures r[0] == '%' && r[|r| - 1] == '%'
    ensures forall i :: 0 <= i < |search| ==> r[i + 1] == (if search[i] == ' ' then '%' else search[i])
    ensures forall i :: 0 <= i < |r| ==> r[i] != ' '
  {
    "%" + SpacesToPercent(search) + "%"
  }

  /** The clause method SearchCriteria uses: `where` only for exactly LOGIC_AND. */
  function SearchBoolean(logic: Value): Boolean
  {
    if logic == Int(LOGIC_AND) then And else Or
  }

  // ---------------------------------------------------------------------------
  // MultipleCriteria
  // ---------------------------------------------------------------------------

  /**
   * MultipleCriteria::push as written: the guard asks whether the condition
   * differs from LOGIC_AND or differs from LOGIC_OR, which holds for every
   * condition, so the exception is always thrown.
   */
  function PushAsWritten(entries: seq<(Criteria, int)>, c: Criteria, condition: int := LOGIC_AND): (r: Result<seq<(Criteria, int)>>)
    ensures r.Ok? ==> condition == LOGIC_AND && condition == LOGIC_OR
    ensures r.Err? ==> r == Err(InvalidArgument("Unknown condition."))
  {
    if condition != LOGIC_AND || condition != LOGIC_OR then Err(InvalidArgument("Unknown condition."))
    else Ok(entries + [(c, condition)])
  }

  /** No condition gets past the guard as written: every push throws. */
  lemma PushAsWrittenAlwaysThrows(entries: seq<(Criteria, int)>, c: Criteria, condition: int)
    ensures PushAsWritten(entries, c, condition) == Err(InvalidArgument("Unknown condition."))
  {
  }

  /** MultipleCriteria::push with the guard its exception message describes: unknown conditions throw. */
  function Push(entries: seq<(Criteria, int)>, c: Criteria, condition: int := LOGIC_AND): (r: Result<seq<(Criteria, int)>>)
    ensures r.Ok? <==> condition == LOGIC_AND || condition == LOGIC_OR
    ensures r.Ok? ==> |r.value| == |entries| + 1 && r.value[..|entries|] == entries && r.value[|entries|] == (c, condition)
    ensures r.Err? ==> r == Err(InvalidArgument("Unknown condition."))
  {
    if condition != LOGIC_AND && condition != LOGIC_OR then Err(InvalidArgument("Unknown condition."))
    else Ok(entries + [(c, condition)])
  }

  /** The group `applyCriteria` opens: 'and' only for exactly LOGIC_AND, 'or' for anything else. */
  function EntryBoolean(condition: int): Boolean
  {
    if condition == LOGIC_AND then And else Or
  }

  // ---------------------------------------------------------------------------
  // Applying criteria
  // ---------------------------------------------------------------------------

  /** CriteriaInterface::apply. */
  function Apply(c: Criteria, q: Builder): (r: Builder)
    ensures Extends(q, r)
    decreases c, 1
  {
    match c
    case Simple(s) =>
      AddNested(q, And, ForNested(q).(wheres := SimpleGroup(s)))
    case Search(columns, search, logic) =>
      var pattern := Str(Pattern(search));
      var group := seq(|columns|, i requires 0 <= i < |columns| => Basic(SearchBoolean(logic), columns[i], "like", pattern));
      AddNested(q, And, ForNested(q).(wheres := group))
    case Multiple(_) =>
      ApplyEntries(c, 0, q)
    case Callback(run) =>
      AddNested(q, And, run(ForNested(q)))
  }

  /** MultipleCriteria::apply from the `i`-th stored pair on. */
  function ApplyEntries(c: Criteria, i: nat, q: Builder): (r: Builder)
    requires c.Multiple? && i <= |c.entries|
    ensures Extends(q, r)
    decreases c, 0, |c.entries| - i
  {
    if i == |c.entries| then q
    else
      assert c.entries[i] in c.entries;
      var (child, condition) := c.entries[i];
      var q' := AddNested(q, EntryBoolean(condition), Apply(child, ForNested(q)));
      assert q'.wheres[..|q.wheres|] == q.wheres;
      var r := ApplyEntries(c, i + 1, q');
      ExtendsTransitive(q, q', r);
      r
  }

  /** Simple, search and callback criteria each add exactly one nested 'and' group. */
  lemma AddsOneGroup(c: Criteria, q: Builder)
    requires !c.Multiple?
    ensures var r := Apply(c, q);
      && Extends(q, r)
      && |r.wheres| == |q.wheres| + 1
      && r.wheres[|q.wheres|].Nested? && r.wheres[|q.wheres|].boolean == And
  {
    assert Apply(c, q).wheres[..|q.wheres|] == q.wheres;
  }

  /** SimpleCriteria::apply adds one group, even when nothing was recorded, holding SimpleGroup. */
  lemma SimpleApply(s: Recorded, q: Builder)
    ensures Apply(Simple(s), q).wheres == q.wheres + [Nested(And, SimpleGroup(s))]
    ensures s == NothingRecorded ==> Apply(Simple(s), q).wheres == q.wheres + [Nested(And, [])]
  {
    if s == NothingRecorded {
      assert SimpleGroup(s) == [];
    }
  }

  /**
   * SearchCriteria::apply adds one group with a 'like' clause per column, in
   * column order, all with the same pattern, joined by 'and' exactly when the
   * logic is LOGIC_AND; with no columns the group is empty.
   */
  lemma SearchApply(columns: seq<string>, search: string, logic: Value, q: Builder)
    ensures var r := Apply(Search(columns, search, logic), q);
      && Extends(q, r) && |r.wheres| == |q.wheres| + 1
      && r.wheres[|q.wheres|].Nested? && r.wheres[|q.wheres|].boolean == And
      && var g := r.wheres[|q.wheres|].clauses;
      && |g| == |columns|
      && (forall i :: 0 <= i < |g| ==>
            && g[i].Basic? && g[i].column == columns[i] && g[i].operator == "like"
            && g[i].value == Str(Pattern(search))
            && (g[i].boolean == And <==> logic == Int(LOGIC_AND)))
  {
    AddsOneGroup(Search(columns, search, logic), q);
    var r := Apply(Search(columns, search, logic), q);
    var g := r.wheres[|q.wheres|].clauses;
    assert g == seq(|columns|, i requires 0 <= i < |columns| => Basic(SearchBoolean(logic), columns[i], "like", Str(Pattern(search))));
    forall i | 0 <= i < |g|
      ensures && g[i].Basic? && g[i].column == columns[i] && g[i].operator == "like"
              && g[i].value == Str(Pattern(search))
              && (g[i].boolean == And <==> logic == Int(LOGIC_AND))
    {
      assert g[i] == Basic(SearchBoolean(logic), columns[i], "like", Str(Pattern(search)));
    }
  }

  /**
   * MultipleCriteria::apply adds one group per stored pair, in the order they
   * were pushed: an 'and' group for LOGIC_AND and an 'or' group otherwise,
   * each holding what the child adds to a fresh query. With nothing stored
   * the query is unchanged.
   */
  lemma MultipleApply(entries: seq<(Criteria, int)>, q: Builder)
    ensures var r := Apply(Multiple(entries), q);
      && Extends(q, r)
      && |r.wheres| == |q.wheres| + |entries|
      && (forall i :: 0 <= i < |entries| ==>
            r.wheres[|q.wheres| + i] == Nested(EntryBoolean(entries[i].1), Apply(entries[i].0, NewQuery(q.from)).wheres))
    ensures entries == [] ==> Apply(Multiple(entries), q) == q
  {
    var c := Multiple(entries);
    ApplyMultiple(c, q);
    MultipleGroupsFromStart(c, q);
  }

  lemma ApplyMultiple(c: Criteria, q: Builder)
    requires c.Multiple?
    ensures Apply(c, q) == ApplyEntries(c, 0, q)
  {
  }

  lemma MultipleGroupsFromStart(c: Criteria, q: Builder)
    requires c.Multiple?
    ensures var r := ApplyEntries(c, 0, q);
      && |r.wheres| == |q.wheres| + |c.entries|
      && (forall j :: 0 <= j < |c.entries| ==>
            r.wheres[|q.wheres| + j] == Nested(EntryBoolean(c.entries[j].1), Apply(c.entries[j].0, NewQuery(q.from)).wheres))
  {
    MultipleGroups(c, 0, q);
    var r := ApplyEntries(c, 0, q);
    forall j | 0 <= j < |c.entries|
      ensures r.wheres[|q.wheres| + j] == Nested(EntryBoolean(c.entries[j].1), Apply(c.entries[j].0, NewQuery(q.from)).wheres)
    {
      assert |q.wheres| + j - 0 == |q.wheres| + j;
    }
  }

  lemma {:induction false} MultipleGroups(c: Criteria, i: nat, q: Builder)
    requires c.Multiple? && i <= |c.entries|
    ensures var r := ApplyEntries(c, i, q);
      && |r.wheres| == |q.wheres| + |c.entries| - i
      && (forall j :: i <= j < |c.entries| ==>
            r.wheres[|q.wheres| + j - i] == Nested(EntryBoolean(c.entries[j].1), Apply(c.entries[j].0, NewQuery(q.from)).wheres))
    decreases |c.entries| - i
  {
    if i < |c.entries| {
      var (child, condition) := c.entries[i];
      var q' := AddNested(q, EntryBoolean(condition), Apply(child, ForNested(q)));
      MultipleGroups(c, i + 1, q');
      var r := ApplyEntries(c, i, q);
      assert r == ApplyEntries(c, i + 1, q');
      assert r.wheres[|q.wheres|] == q'.wheres[|q.wheres|];
    }
  }

  /**
   * Pushing a criteria and then applying adds, after everything the earlier
   * entries add, one more group: 'and' for LOGIC_AND, 'or' otherwise,
   * holding what the pushed criteria adds to a fresh query.
   */
  lemma PushThenApply(entries: seq<(Criteria, int)>, c: Criteria, condition: int, q: Builder)
    ensures Push(entries, c, condition).Ok? ==>
      Apply(Multiple(Push(entries, c, condition).value), q) ==
        Apply(Multiple(entries), q).(wheres := Apply(Multiple(entries), q).wheres +
          [Nested(EntryBoolean(condition), Apply(c, NewQuery(q.from)).wheres)])
  {
    var p := Push(entries, c, condition);
    if p.Ok? {
      var es := p.value;
      assert es == entries + [(c, condition)];
      MultipleApply(entries, q);
      MultipleApply(es, q);
      var r1 := Apply(Multiple(entries), q);
      var r2 := Apply(Multiple(es), q);
      var x := Nested(EntryBoolean(condition), Apply(c, NewQuery(q.from)).wheres);
      var n := |q.wheres|;
      forall i | 0 <= i < |r2.wheres| ensures r2.wheres[i] == (r1.wheres + [x])[i] {
        if i < n {
          assert r2.wheres[i] == r2.wheres[..n][i];
          assert r1.wheres[i] == r1.wheres[..n][i];
        } else if i < n + |entries| {
          assert es[i - n] == entries[i - n];
        } else {
          assert es[|entries|] == (c, condition);
        }
      }
      assert r2.wheres == r1.wheres + [x];
    }
  }

  /** CallbackCriteria::apply hands the fresh inner query to the stored callback once and nests what it adds. */
  lemma CallbackApply(run: Builder -> Builder, q: Builder)
    ensures Apply(Callback(run), q).wheres == q.wheres + [Nested(And, run(NewQuery(q.from)).wheres)]
  {
  }

  /**
   * Two callback criteria pushed with the default condition: both pushes
   * succeed and the query gets two 'and' groups in push order, each
   * wrapping the callback's own group, so each callback's clauses sit two
   * levels deep.
   */
  lemma TwoCallbacksNestTwice(f: Builder -> Builder, g: Builder -> Builder, q: Builder)
    ensures Push([], Callback(f)).Ok?
    ensures Push(Push([], Callback(f)).value, Callback(g)).Ok?
    ensures var es := Push(Push([], Callback(f)).value, Callback(g)).value;
      var n := NewQuery(q.from);
      Apply(Multiple(es), q).wheres == q.wheres + [
        Nested(And, [Nested(And, f(n).wheres)]),
        Nested(And, [Nested(And, g(n).wheres)])]
  {
    var es := Push(Push([], Callback(f)).value, Callback(g)).value;
    assert es == [(Callback(f), LOGIC_AND), (Callback(g), LOGIC_AND)];
    MultipleApply(es, q);
    var n := NewQuery(q.from);
    assert NewQuery(n.from) == n;
    CallbackApply(f, n);
    CallbackApply(g, n);
    assert Apply(Callback(f), n).wheres == [Nested(And, f(n).wheres)];
    assert Apply(Callback(g), n).wheres == [Nested(And, g(n).wheres)];
    var r := Apply(Multiple(es), q);
    assert r.wheres[|q.wheres|] == Nested(And, [Nested(And, f(n).wheres)]);
    assert r.wheres[|q.wheres| + 1] == Nested(And, [Nested(And, g(n).wheres)]);
    assert r.wheres == r.wheres[..|q.wheres|] + [r.wheres[|q.wheres|], r.wheres[|q.wheres| + 1]];
  }
}
