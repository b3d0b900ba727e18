/**
 * SimpleFilter (src/SimpleFilter.php): four recorded clause lists, each
 * applied as its own nested group, empty lists skipped.
 */
module Filter {
  import opened Php
  import opened Query

  datatype SimpleFilter = SimpleFilter(
    whereFilters: seq<Comparison>,
    orWhereFilters: seq<Comparison>,
    whereInFilters: seq<Membership>,
    orWhereInFilters: seq<Membership>)

  const EmptyFilter: SimpleFilter := SimpleFilter([], [], [], [])

  /** `filterWhere($column, $value, $operator = '=')`. */
  function FilterWhere(f: SimpleFilter, column: string, value: Value, operator: string := "="): (r: SimpleFilter)
    ensures r.whereFilters == f.whereFilters + [Comparison(column, operator, value)]
    ensures r.orWhereFilters == f.orWhereFilters && r.whereInFilters == f.whereInFilters && r.orWhereInFilters == f.orWhereInFilters
  {
    f.(whereFilters := f.whereFilters + [Comparison(column, operator, value)])
  }

  /** `filterOrWhere($column, $value, $operator = '=')`. */
  function FilterOrWhere(f: SimpleFilter, column: string, value: Value, operator: string := "="): (r: SimpleFilter)
    ensures r.orWhereFilters == f.orWhereFilters + [Comparison(column, operator, value)]
    ensures r.whereFilters == f.whereFilters && r.whereInFilters == f.whereInFilters && r.orWhereInFilters == f.orWhereInFilters
  {
    f.(orWhereFilters := f.orWhereFilters + [Comparison(column, operator, value)])
  }

  /** `filterWhereIn($column, $values)`: an empty value list is not recorded. */
  function FilterWhereIn(f: SimpleFilter, column: string, values: seq<Value>): (r: SimpleFilter)
    ensures r == f <==> |values| == 0
    ensures |values| > 0 ==> r.whereInFilters == f.whereInFilters + [Membership(column, values)]
    ensures r.whereFilters == f.whereFilters && r.orWhereFilters == f.orWhereFilters && r.orWhereInFilters == f.orWhereInFilters
  {
    if |values| == 0 then f
    else f.(whereInFilters := f.whereInFilters + [Membership(column, values)])
  }

  /** `filterOrWhereIn($column, $values)`: an empty value list is not recorded. */
  function FilterOrWhereIn(f: SimpleFilter, column: string, values: seq<Value>): (r: SimpleFilter)
    ensures r == f <==> |values| == 0
    ensures |values| > 0 ==> r.orWhereInFilters == f.orWhereInFilters + [Membership(column, values)]
    ensures r.whereFilters == f.whereFilters && r.orWhereFilters == f.orWhereFilters && r.whereInFilters == f.whereInFilters
  {
    if |values| == 0 then f
    else f.(orWhereInFilters := f.orWhereInFilters + [Membership(column, values)])
  }

  /** `applyWhereFilters`: one nested group holding `clauses`, or nothing when there are none. */
  function ApplyGroup(q: Builder, clauses: seq<Clause>): Builder
  {
    if |clauses| == 0 then q
    else AddNested(q, And, ForNested(q).(wheres := clauses))
  }

  /** The four groups, in the fixed order 'where', 'orWhere', 'whereIn', 'orWhereIn'. */
  function Groups(f: SimpleFilter): seq<seq<Clause>>
  {
    [ BasicCalls(And, f.whereFilters), BasicCalls(Or, f.orWhereFilters),
      InCalls(And, f.whereInFilters), InCalls(Or, f.orWhereInFilters) ]
  }

  /** The `foreach` of SimpleFilter::apply over the groups `gs`. */
  function ApplyGroups(q: Builder, gs: seq<seq<Clause>>): (r: Builder)
    ensures Extends(q, r) && |r.wheres| <= |q.wheres| + |gs|
    decreases |gs|
  {
    if |gs| == 0 then q
    else
      var q1 := ApplyGroup(q, gs[0]);
      assert q1.wheres[..|q.wheres|] == q.wheres;
      var r := ApplyGroups(q1, gs[1..]);
      ExtendsTransitive(q, q1, r);
      r
  }

  /** SimpleFilter::apply: only where clauses after the query's own, at most one group per list. */
  function FilterApply(f: SimpleFilter, q: Builder): (r: Builder)
    ensures Extends(q, r) && |r.wheres| <= |q.wheres| + 4
  {
    ApplyGroups(q, Groups(f))
  }

  /** The groups that have at least one clause, order kept. */
  function NonEmpty(gs: seq<seq<Clause>>): (r: seq<seq<Clause>>)
    ensures |r| <= |gs|
    ensures forall i :: 0 <= i < |r| ==> |r[i]| > 0
  {
    if |gs| == 0 then []
    else (if |gs[0]| == 0 then [] else [gs[0]]) + NonEmpty(gs[1..])
  }

  function AsGroups(gs: seq<seq<Clause>>): (r: seq<Clause>)
    ensures |r| == |gs|
    ensures forall i :: 0 <= i < |gs| ==> r[i] == Nested(And, gs[i])
  {
    seq(|gs|, i requires 0 <= i < |gs| => Nested(And, gs[i]))
  }

  lemma AsGroupsAppend(a: seq<seq<Clause>>, b: seq<seq<Clause>>)
    ensures AsGroups(a + b) == AsGroups(a) + AsGroups(b)
  {
  }

  /**
   * Applying groups one by one adds one nested 'and' group per non-empty
   * group, in order, holding its clauses; empty groups add nothing, and
   * nothing else changes.
   */
  lemma {:induction false} ApplyGroupsAddsNonEmpty(q: Builder, gs: seq<seq<Clause>>)
    ensures ApplyGroups(q, gs) == q.(wheres := q.wheres + AsGroups(NonEmpty(gs)))
    decreases |gs|
  {
    if |gs| > 0 {
      var q1 := ApplyGroup(q, gs[0]);
      ApplyGroupsAddsNonEmpty(q1, gs[1..]);
      var h := if |gs[0]| == 0 then [] else [gs[0]];
      assert NonEmpty(gs) == h + NonEmpty(gs[1..]);
      AsGroupsAppend(h, NonEmpty(gs[1..]));
      assert q1 == q.(wheres := q.wheres + AsGroups(h));
    }
  }

  /**
   * `apply` adds one nested 'and' group per non-empty list, in the order
   * where, orWhere, whereIn, orWhereIn, each holding its list's clauses in
   * recording order; empty lists add nothing, and nothing else changes.
   */
  lemma FilterApplyAddsNonEmptyGroups(f: SimpleFilter, q: Builder)
    ensures FilterApply(f, q) == q.(wheres := q.wheres + AsGroups(NonEmpty(Groups(f))))
  {
    ApplyGroupsAddsNonEmpty(q, Groups(f));
  }

  /** A filter with nothing recorded leaves the query unchanged. */
  lemma EmptyFilterAddsNothing(q: Builder)
    ensures FilterApply(EmptyFilter, q) == q
  {
    FilterApplyAddsNonEmptyGroups(EmptyFilter, q);
    assert NonEmpty(Groups(EmptyFilter)) == [] by {
      var g := Groups(EmptyFilter);
      assert g[1..][1..][1..][1..] == [];
    }
  }

  /** One recorded where: the query gets exactly one group holding exactly that comparison. */
  lemma SingleWhereFilter(column: string, value: Value, q: Builder)
    ensures FilterApply(FilterWhere(EmptyFilter, column, value), q).wheres ==
      q.wheres + [Nested(And, [Basic(And, column, "=", value)])]
  {
    var f := FilterWhere(EmptyFilter, column, value);
    var g := Groups(f);
    assert g[0] == [Basic(And, column, "=", value)];
    assert |g[1]| == 0 && |g[2]| == 0 && |g[3]| == 0;
    assert NonEmpty(g[1..][1..][1..]) == [] by {
      assert g[1..][1..][1..][1..] == [];
    }
    assert NonEmpty(g[1..][1..]) == [];
    assert NonEmpty(g[1..]) == [];
    assert NonEmpty(g) == [g[0]];
    FilterApplyAddsNonEmptyGroups(f, q);
  }
}
