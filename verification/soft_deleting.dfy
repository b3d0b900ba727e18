/**
 * The two scope flags of src/SoftDeletingEloquentRepository.php and the
 * scopes `newQuery` adds for them.
 */
module SoftDeleting {
  import opened Query

  /** The `$onlyTrashed` and `$withTrashed` properties. */
  datatype Trashed = Trashed(onlyTrashed: bool, withTrashed: bool)

  /** Both properties are declared `false`. */
  const Initial: Trashed := Trashed(false, false)

  /** The two public setters, as a call log can name them. */
  datatype Toggle = OnlyTrashedCall | WithTrashedCall

  /** `onlyTrashed()`: sets its own flag and clears the other. */
  function OnlyTrashed(t: Trashed): (r: Trashed)
    ensures Consistent(r)
    ensures r.onlyTrashed
  {
    Trashed(true, false)
  }

  /** `withTrashed()`: sets its own flag and clears the other. */
  function WithTrashed(t: Trashed): (r: Trashed)
    ensures Consistent(r)
    ensures r.withTrashed
  {
    Trashed(false, true)
  }

  /** One setter call: the named flag ends up set and the other clear. */
  function Call(t: Trashed, c: Toggle): (r: Trashed)
    ensures Consistent(r)
    ensures r.onlyTrashed <==> c == OnlyTrashedCall
    ensures r.withTrashed <==> c == WithTrashedCall
  {
    match c
    case OnlyTrashedCall => OnlyTrashed(t)
    case WithTrashedCall => WithTrashed(t)
  }

  /** The flags after a sequence of setter calls, first call first. */
  function Run(t: Trashed, cs: seq<Toggle>): (r: Trashed)
    ensures |cs| == 0 ==> r == t
    ensures |cs| > 0 ==> r.onlyTrashed || r.withTrashed
    decreases |cs|
  {
    if |cs| == 0 then t else Run(Call(t, cs[0]), cs[1..])
  }

  /** The two flags are never both set. */
  predicate Consistent(t: Trashed)
  {
    !(t.onlyTrashed && t.withTrashed)
  }

  /** After any sequence of setter calls on a fresh repository, the flags are consistent. */
  lemma {:induction false} RunKeepsConsistent(t: Trashed, cs: seq<Toggle>)
    requires Consistent(t)
    ensures Consistent(Run(t, cs))
    decreases |cs|
  {
    if |cs| > 0 {
      RunKeepsConsistent(Call(t, cs[0]), cs[1..]);
    }
  }

  lemma NeverBothSet(cs: seq<Toggle>)
    ensures Consistent(Run(Initial, cs))
  {
    RunKeepsConsistent(Initial, cs);
  }

  /**
   * Only the last call counts: after a non-empty sequence of calls the
   * flags are exactly what that last setter leaves, whatever came before.
   */
  lemma {:induction false} LastCallWins(t: Trashed, cs: seq<Toggle>)
    requires |cs| > 0
    ensures Run(t, cs) == Call(Initial, cs[|cs| - 1])
    ensures Run(t, cs).onlyTrashed <==> cs[|cs| - 1] == OnlyTrashedCall
    ensures Run(t, cs).withTrashed <==> cs[|cs| - 1] == WithTrashedCall
    decreases |cs|
  {
    if |cs| > 1 {
      LastCallWins(Call(t, cs[0]), cs[1..]);
      assert cs[1..][|cs[1..]| - 1] == cs[|cs| - 1];
    }
  }

  /** Calling a setter twice is the same as calling it once. */
  lemma SettersIdempotent(t: Trashed)
    ensures OnlyTrashed(OnlyTrashed(t)) == OnlyTrashed(t)
    ensures WithTrashed(WithTrashed(t)) == WithTrashed(t)
  {
  }

  /**
   * `newQuery`: the parent's query, then the `onlyTrashed` scope when that
   * flag is set and the `withTrashed` scope when that flag is set.
   */
  function ScopeQuery(t: Trashed, q: Builder): (r: Builder)
    ensures r.from == q.from && r.wheres == q.wheres && r.joins == q.joins
    ensures |q.scopes| <= |r.scopes| && r.scopes[..|q.scopes|] == q.scopes
    ensures "onlyTrashed" in r.scopes[|q.scopes|..] <==> t.onlyTrashed
    ensures "withTrashed" in r.scopes[|q.scopes|..] <==> t.withTrashed
  {
    var q1 := if t.onlyTrashed then AddScope(q, "onlyTrashed") else q;
    var r := if t.withTrashed then AddScope(q1, "withTrashed") else q1;
    var added := (if t.onlyTrashed then ["onlyTrashed"] else []) + (if t.withTrashed then ["withTrashed"] else []);
    assert r.scopes == q.scopes + added;
    assert r.scopes[|q.scopes|..] == added;
    assert "onlyTrashed"[0] != "withTrashed"[0];
    r
  }

  /** With consistent flags `newQuery` adds at most one scope, and none with both flags clear. */
  lemma AtMostOneScope(t: Trashed, q: Builder)
    requires Consistent(t)
    ensures |ScopeQuery(t, q).scopes| == |q.scopes| + (if t.onlyTrashed || t.withTrashed then 1 else 0)
  {
  }
}
