/**
 * The query builder as the repository layer sees it: a log of the clause
 * calls made on it. Nothing is compiled to SQL; the terminal calls that
 * would run the query are opaque results elsewhere.
 */
module Query {
  import opened Php

  /** How a clause is joined to the one before it: `where` or `orWhere`. */
  datatype Boolean = And | Or

  datatype Clause =
    | Basic(boolean: Boolean, column: string, operator: string, value: Value)  // where / orWhere
    | In(boolean: Boolean, column: string, values: seq<Value>)                 // whereIn / orWhereIn
    | Nested(boolean: Boolean, clauses: seq<Clause>)                           // where(Closure) / whereNested

  /** The arguments a join was called with: a closure, or column/operator/column/type/where. */
  datatype JoinOn =
    | OnClosure(id: nat)
    | OnColumns(first: Value, operator: Value, second: Value, kind: Value, condition: Value)

  datatype Join = Join(table: string, on: JoinOn)

  /** A query on table `from`: its where clauses, joins and applied scopes, in call order. */
  datatype Builder = Builder(from: string, wheres: seq<Clause>, joins: seq<Join>, scopes: seq<string>)

  function NewQuery(table: string): Builder
  {
    Builder(table, [], [], [])
  }

  /** `$query->where($column, $operator, $value)` and `orWhere`. */
  function AddBasic(q: Builder, boolean: Boolean, column: string, operator: string, value: Value): Builder
  {
    q.(wheres := q.wheres + [Basic(boolean, column, operator, value)])
  }

  /** `$query->whereIn($column, $values)` and `orWhereIn`. */
  function AddIn(q: Builder, boolean: Boolean, column: string, values: seq<Value>): Builder
  {
    q.(wheres := q.wheres + [In(boolean, column, values)])
  }

  /**
   * The fresh query a nested-where closure receives (`forNestedWhere`): same
   * table, no clauses.
   */
  function ForNested(q: Builder): Builder
  {
    NewQuery(q.from)
  }

  /** `whereNested` once the closure has filled `inner`: its clauses become one group. */
  function AddNested(q: Builder, boolean: Boolean, inner: Builder): Builder
  {
    q.(wheres := q.wheres + [Nested(boolean, inner.wheres)])
  }

  /** `$query->join(...)`. */
  function AddJoin(q: Builder, j: Join): Builder
  {
    q.(joins := q.joins + [j])
  }

  /** An Eloquent global-scope toggle such as `withTrashed()`. */
  function AddScope(q: Builder, name: string): Builder
  {
    q.(scopes := q.scopes + [name])
  }

  /** The arguments recorded for a later `where`/`orWhere` call: [column, operator, value]. */
  datatype Comparison = Comparison(column: string, operator: string, value: Value)

  /** The arguments recorded for a later `whereIn`/`orWhereIn` call: [column, values]. */
  datatype Membership = Membership(column: string, values: seq<Value>)

  /** The clauses that replaying recorded comparisons with `where` or `orWhere` adds. */
  function BasicCalls(boolean: Boolean, cs: seq<Comparison>): (r: seq<Clause>)
    ensures |r| == |cs|
    ensures forall i :: 0 <= i < |cs| ==> r[i] == Basic(boolean, cs[i].column, cs[i].operator, cs[i].value)
  {
    seq(|cs|, i requires 0 <= i < |cs| => Basic(boolean, cs[i].column, cs[i].operator, cs[i].value))
  }

  /** The clauses that replaying recorded memberships with `whereIn` or `orWhereIn` adds. */
  function InCalls(boolean: Boolean, ms: seq<Membership>): (r: seq<Clause>)
    ensures |r| == |ms|
    ensures forall i :: 0 <= i < |ms| ==> r[i] == In(boolean, ms[i].column, ms[i].values)
  {
    seq(|ms|, i requires 0 <= i < |ms| => In(boolean, ms[i].column, ms[i].values))
  }

  lemma BasicCallsAppend(boolean: Boolean, cs: seq<Comparison>, c: Comparison)
    ensures BasicCalls(boolean, cs + [c]) == BasicCalls(boolean, cs) + [Basic(boolean, c.column, c.operator, c.value)]
  {
  }

  lemma InCallsAppend(boolean: Boolean, ms: seq<Membership>, m: Membership)
    ensures InCalls(boolean, ms + [m]) == InCalls(boolean, ms) + [In(boolean, m.column, m.values)]
  {
  }

  /** `foreach ($cs as $params) $query->where(...$params)` (or `orWhere`): one call per recorded comparison. */
  function ReplayBasic(q: Builder, boolean: Boolean, cs: seq<Comparison>): Builder
    decreases |cs|
  {
    if |cs| == 0 then q
    else ReplayBasic(AddBasic(q, boolean, cs[0].column, cs[0].operator, cs[0].value), boolean, cs[1..])
  }

  /** `foreach ($ms as $params) $query->whereIn(...$params)` (or `orWhereIn`): one call per recorded membership. */
  function ReplayIn(q: Builder, boolean: Boolean, ms: seq<Membership>): Builder
    decreases |ms|
  {
    if |ms| == 0 then q
    else ReplayIn(AddIn(q, boolean, ms[0].column, ms[0].values), boolean, ms[1..])
  }

  /** Replaying the calls one at a time appends exactly BasicCalls, after the query's own clauses. */
  lemma {:induction false} ReplayBasicAppends(q: Builder, boolean: Boolean, cs: seq<Comparison>)
    ensures ReplayBasic(q, boolean, cs) == q.(wheres := q.wheres + BasicCalls(boolean, cs))
    decreases |cs|
  {
    if |cs| > 0 {
      var c := cs[0];
      var q' := AddBasic(q, boolean, c.column, c.operator, c.value);
      var rest := BasicCalls(boolean, cs[1..]);
      ReplayBasicAppends(q', boolean, cs[1..]);
      BasicCallsCons(boolean, cs);
      AppendAfterOne(q.wheres, Basic(boolean, c.column, c.operator, c.value), rest);
    }
  }

  lemma AppendAfterOne(a: seq<Clause>, x: Clause, b: seq<Clause>)
    ensures a + [x] + b == a + ([x] + b)
  {
  }

  lemma BasicCallsCons(boolean: Boolean, cs: seq<Comparison>)
    requires |cs| > 0
    ensures BasicCalls(boolean, cs) == [Basic(boolean, cs[0].column, cs[0].operator, cs[0].value)] + BasicCalls(boolean, cs[1..])
  {
  }

  /** Replaying the calls one at a time appends exactly InCalls, after the query's own clauses. */
  lemma {:induction false} ReplayInAppends(q: Builder, boolean: Boolean, ms: seq<Membership>)
    ensures ReplayIn(q, boolean, ms) == q.(wheres := q.wheres + InCalls(boolean, ms))
    decreases |ms|
  {
    if |ms| > 0 {
      var m := ms[0];
      var q' := AddIn(q, boolean, m.column, m.values);
      var rest := InCalls(boolean, ms[1..]);
      ReplayInAppends(q', boolean, ms[1..]);
      InCallsCons(boolean, ms);
      AppendAfterOne(q.wheres, In(boolean, m.column, m.values), rest);
    }
  }

  lemma InCallsCons(boolean: Boolean, ms: seq<Membership>)
    requires |ms| > 0
    ensures InCalls(boolean, ms) == [In(boolean, ms[0].column, ms[0].values)] + InCalls(boolean, ms[1..])
  {
  }

  /** `q` was obtained from `p` by adding clauses after its own: nothing earlier changes. */
  predicate Extends(p: Builder, q: Builder)
  {
    && q.from == p.from && q.joins == p.joins && q.scopes == p.scopes
    && |p.wheres| <= |q.wheres| && q.wheres[..|p.wheres|] == p.wheres
  }

  lemma ExtendsTransitive(a: Builder, b: Builder, c: Builder)
    requires Extends(a, b) && Extends(b, c)
    ensures Extends(a, c)
  {
    assert c.wheres[..|a.wheres|] == c.wheres[..|b.wheres|][..|a.wheres|];
  }
}
