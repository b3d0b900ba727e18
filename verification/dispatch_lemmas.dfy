/**
 * What the action pipeline promises: the order of its stages, which results
 * stop it, and what the Eloquent and database handlers send to the model or
 * the table once it reaches them.
 */
module DispatchLemmas {
  import opened Php
  import opened Query
  import opened Repository
  import opened Dispatch

  /** The verdict `perform` acts on: the validator's when asked to validate, else true. */
  function Verdict(env: Env, r: Repo, action: string, attrs: Value, validate: bool): Checked
    requires validate ==> attrs.Arr?
  {
    if validate then Valid(env, r, action, attrs.entries) else Checked(r, Bool(true), [])
  }

  lemma CreateName() ensures Ucfirst("create") == "Create" {}
  lemma UpdateName() ensures Ucfirst("update") == "Update" {}
  lemma SaveName() ensures Ucfirst("save") == "Save" {}
  lemma DeleteName() ensures Ucfirst("delete") == "Delete" {}
  lemma QueryName() ensures Ucfirst("query") == "Query" {}

  /** The handler, hook and validator method names each built-in action looks for. */
  lemma CreateNames()
    ensures PerformName("create") == "performCreate" && ValidName("create") == "validCreate"
    ensures "before" + Ucfirst("create") == "beforeCreate" && "after" + Ucfirst("create") == "afterCreate"
  {
    CreateName();
  }

  lemma UpdateNames()
    ensures PerformName("update") == "performUpdate" && ValidName("update") == "validUpdate"
    ensures "before" + Ucfirst("update") == "beforeUpdate" && "after" + Ucfirst("update") == "afterUpdate"
  {
    UpdateName();
  }

  lemma SaveNames()
    ensures PerformName("save") == "performSave"
    ensures "before" + Ucfirst("save") == "beforeSave" && "after" + Ucfirst("save") == "afterSave"
  {
    SaveName();
  }

  lemma DeleteNames()
    ensures PerformName("delete") == "performDelete"
    ensures "before" + Ucfirst("delete") == "beforeDelete" && "after" + Ucfirst("delete") == "afterDelete"
  {
    DeleteName();
  }

  lemma QueryNames()
    ensures PerformName("query") == "performQuery"
    ensures "before" + Ucfirst("query") == "beforeQuery" && "after" + Ucfirst("query") == "afterQuery"
  {
    QueryName();
  }

  // ---------------------------------------------------------------------------
  // The stages of perform
  // ---------------------------------------------------------------------------

  /**
   * A failed validation ends the action with `false`: the validator is the
   * only call made, so no hook and no handler runs.
   */
  lemma ValidationFailureStops(env: Env, r: Repo, action: string, subject: Thing, attrs: Assoc<Value>)
    requires HandlerOf(r, action).Some? && r.validator.Some?
    requires !Truthy(env.answer(Validate(ValidName(action), attrs, r.validator.value)))
    ensures Perform(env, r, action, subject, Arr(attrs), true) ==
      Ok(Step(Valid(env, r, action, attrs).repo, False, [Validate(ValidName(action), attrs, r.validator.value)]))
  {
  }

  /**
   * A before hook that returns exactly `false` ends the action with `false`
   * before the handler runs.
   */
  lemma BeforeHookVetoes(env: Env, r: Repo, action: string, subject: Thing, attrs: Value, validate: bool)
    requires HandlerOf(r, action).Some? && (validate ==> attrs.Arr?)
    requires Truthy(Verdict(env, r, action, attrs, validate).result)
    requires "before" + Ucfirst(action) in r.methods
    requires IsFalse(env.answer(Hook("before" + Ucfirst(action), subject, attrs)))
    ensures var c := Verdict(env, r, action, attrs, validate);
      Perform(env, r, action, subject, attrs, validate) ==
        Ok(Step(c.repo, False, c.trace + [Hook("before" + Ucfirst(action), subject, attrs)]))
  {
    var c := Verdict(env, r, action, attrs, validate);
    var b := DoBefore(env, c.repo, action, subject, attrs);
    assert b == Hooked(Bool(false), [Hook("before" + Ucfirst(action), subject, attrs)]);
  }

  /**
   * Without a veto the handler runs. A handler result of exactly `false` is
   * returned as is and skips the after hook; any other result is returned
   * unchanged after the after hook has run once on it, whatever that hook
   * returns. A missing before hook, or one returning anything but `false`
   * (null, 0, ''), is no veto.
   */
  lemma HandlerRunsUnlessVetoed(env: Env, r: Repo, action: string, subject: Thing, attrs: Value, validate: bool)
    requires HandlerOf(r, action).Some? && (validate ==> attrs.Arr?)
    requires Truthy(Verdict(env, r, action, attrs, validate).result)
    requires "before" + Ucfirst(action) in r.methods ==> !IsFalse(env.answer(Hook("before" + Ucfirst(action), subject, attrs)))
    ensures var c := Verdict(env, r, action, attrs, validate);
      var pre := c.trace + DoBefore(env, c.repo, action, subject, attrs).trace;
      var run := RunHandler(env, c.repo, HandlerOf(r, action).value, subject, attrs);
      var res := Perform(env, r, action, subject, attrs, validate);
      && (run.Err? ==> res == Err(run.fault))
      && (run.Ok? && run.value.out == False ==> res == Ok(Step(c.repo, False, pre + run.value.trace)))
      && (run.Ok? && run.value.out != False ==> var afterName := "after" + Ucfirst(action);
            res == Ok(Step(c.repo, run.value.out, pre + run.value.trace + (if afterName in r.methods then [Hook(afterName, run.value.out, attrs)] else []))))
  {
    var c := Verdict(env, r, action, attrs, validate);
    var b := DoBefore(env, c.repo, action, subject, attrs);
    assert !IsFalse(b.result);
    assert c.repo.methods == r.methods;
  }

  /** Errors only ever accumulate: two actions in a row keep every earlier message, in order. */
  lemma ErrorsAccumulate(env: Env, r: Repo, a1: Assoc<Value>, a2: Assoc<Value>)
    requires Create(env, r, a1).Ok?
    requires Create(env, Create(env, r, a1).value.repo, a2).Ok?
    ensures var r1 := Create(env, r, a1).value.repo;
      var r2 := Create(env, r1, a2).value.repo;
      r.errors <= r1.errors <= r2.errors && OnlyErrorsGrow(r, r2)
  {
    var r1 := Create(env, r, a1).value.repo;
    var r2 := Create(env, r1, a2).value.repo;
    OnlyErrorsGrowTransitive(r, r1, r2);
  }

  /**
   * With no validator to consult and no hooks for the action, `perform` is
   * its handler: same result, same calls.
   */
  lemma QuietPerform(env: Env, r: Repo, action: string, h: Handler, subject: Thing, attrs: Value, validate: bool)
    requires HandlerOf(r, action) == Some(h)
    requires validate ==> attrs.Arr? && r.validator.None?
    requires "before" + Ucfirst(action) !in r.methods && "after" + Ucfirst(action) !in r.methods
    ensures Perform(env, r, action, subject, attrs, validate) == RunHandler(env, r, h, subject, attrs)
  {
    var run := RunHandler(env, r, h, subject, attrs);
    if run.Ok? {
      var st := run.value;
      if st.out == False {
        assert [] + [] + st.trace == st.trace;
      } else {
        assert [] + [] + st.trace + [] == st.trace;
      }
    }
  }

  /**
   * With a validator that passes and no hooks for the action, `perform` is
   * the validator call followed by its handler.
   */
  lemma ValidatedPerform(env: Env, r: Repo, action: string, h: Handler, subject: Thing, attrs: Assoc<Value>)
    requires HandlerOf(r, action) == Some(h) && r.validator.Some?
    requires Truthy(env.answer(Validate(ValidName(action), attrs, r.validator.value)))
    requires "before" + Ucfirst(action) !in r.methods && "after" + Ucfirst(action) !in r.methods
    ensures var call := Validate(ValidName(action), attrs, r.validator.value);
      var run := RunHandler(env, r, h, subject, Arr(attrs));
      Perform(env, r, action, subject, Arr(attrs), true) == (if run.Err? then run else Ok(run.value.(trace := [call] + run.value.trace)))
  {
    ValidPasses(env, r, action, attrs);
    var run := RunHandler(env, r, h, subject, Arr(attrs));
    if run.Ok? {
      ValidatedPerformOk(env, r, action, h, subject, attrs);
    }
  }

  lemma ValidatedPerformOk(env: Env, r: Repo, action: string, h: Handler, subject: Thing, attrs: Assoc<Value>)
    requires HandlerOf(r, action) == Some(h) && r.validator.Some?
    requires "before" + Ucfirst(action) !in r.methods && "after" + Ucfirst(action) !in r.methods
    requires var call := Validate(ValidName(action), attrs, r.validator.value);
      Valid(env, r, action, attrs) == Checked(r, env.answer(call), [call]) && Truthy(env.answer(call))
    requires RunHandler(env, r, h, subject, Arr(attrs)).Ok?
    ensures var call := Validate(ValidName(action), attrs, r.validator.value);
      var st := RunHandler(env, r, h, subject, Arr(attrs)).value;
      Perform(env, r, action, subject, Arr(attrs), true) == Ok(st.(trace := [call] + st.trace))
  {
    var call := Validate(ValidName(action), attrs, r.validator.value);
    var st := RunHandler(env, r, h, subject, Arr(attrs)).value;
    if st.out == False {
      assert [call] + [] + st.trace == [call] + st.trace;
    } else {
      assert [call] + [] + st.trace + [] == [call] + st.trace;
    }
  }

  /** A validator answer that is truthy leaves the repository as it was. */
  lemma ValidPasses(env: Env, r: Repo, action: string, attrs: Assoc<Value>)
    requires r.validator.Some?
    requires Truthy(env.answer(Validate(ValidName(action), attrs, r.validator.value)))
    ensures var call := Validate(ValidName(action), attrs, r.validator.value);
      Valid(env, r, action, attrs) == Checked(r, env.answer(call), [call])
  {
    var call := Validate(ValidName(action), attrs, r.validator.value);
    assert !IsFalse(env.answer(call));
    assert r.errors + [] == r.errors;
  }

  // ---------------------------------------------------------------------------
  // Eloquent: create, update, save
  // ---------------------------------------------------------------------------

  /** A plain Eloquent repository: no extra methods, no validator, `save()` rather than `push()`. */
  predicate PlainEloquent(r: Repo)
  {
    r.kind.Eloquent? && !r.kind.push && r.methods == {} && r.validator.None?
  }

  /** The class declares none of the built-in actions' handler methods. */
  predicate NoCustomHandlers(r: Repo)
  {
    && "performCreate" !in r.methods && "performUpdate" !in r.methods && "performSave" !in r.methods
    && "performDelete" !in r.methods && "performQuery" !in r.methods
  }

  lemma PlainEloquentHandlers(r: Repo)
    requires r.kind.Eloquent? && NoCustomHandlers(r)
    ensures HandlerOf(r, "create") == Some(Builtin(ModelCreate))
    ensures HandlerOf(r, "update") == Some(Builtin(ModelUpdate))
    ensures HandlerOf(r, "save") == Some(Builtin(ModelSave))
    ensures HandlerOf(r, "delete") == Some(Builtin(ModelDelete))
  {
    CreateNames(); UpdateNames(); SaveNames(); DeleteNames();
  }

  /**
   * The nested `save` action of an Eloquent repository that uses `save()`
   * and declares no methods: one `save()` of the model, the model back when
   * it is truthy, `false` otherwise. The validator plays no part.
   */
  lemma PlainSave(env: Env, r: Repo, m: Entity, attrs: Value)
    requires r.kind.Eloquent? && !r.kind.push && r.methods == {}
    ensures Perform(env, r, "save", Ent(m), attrs, false) ==
      Ok(Step(r, if Truthy(env.answer(SaveModel(m))) then Ent(m) else False, [SaveModel(m)]))
  {
    PlainEloquentHandlers(r);
    QuietPerform(env, r, "save", Builtin(ModelSave), Ent(m), attrs, false);
  }

  /**
   * create() on a plain Eloquent repository whose performCreate is
   * corrected saves a new model filled with exactly the attributes, and
   * returns it when the save is truthy.
   */
  lemma CreateSavesFilledModel(env: Env, r: Repo, attrs: Assoc<Value>)
    requires PlainEloquent(r) && r.kind.createFills
    ensures var m := FillModel(Blank, attrs);
      Create(env, r, attrs) == Ok(Step(r, if Truthy(env.answer(SaveModel(m))) then Ent(m) else False, [SaveModel(m)]))
  {
    PlainEloquentHandlers(r);
    QuietPerform(env, r, "create", Builtin(ModelCreate), Ent(Blank), Arr(attrs), true);
    PlainSave(env, r, FillModel(Blank, attrs), Arr(attrs));
  }

  /** The attributes of a model filled on a blank one are exactly the attributes given. */
  lemma FillBlankModel(attrs: Assoc<Value>)
    requires Unique(attrs)
    ensures FillModel(Blank, attrs).attributes == attrs
  {
    PutAllIntoEmpty(attrs);
  }

  /**
   * As written, performCreate hands the nested save the model it received;
   * for the model `create()` makes that is the blank one, so create() on a
   * plain Eloquent repository saves a blank model, whatever the attributes.
   */
  lemma CreateAsWrittenSavesBlankModel(env: Env, r: Repo, attrs: Assoc<Value>)
    requires PlainEloquent(r) && !r.kind.createFills
    ensures Create(env, r, attrs) ==
      Ok(Step(r, if Truthy(env.answer(SaveModel(Blank))) then Ent(Blank) else False, [SaveModel(Blank)]))
  {
    PlainEloquentHandlers(r);
    QuietPerform(env, r, "create", Builtin(ModelCreate), Ent(Blank), Arr(attrs), true);
    PlainSave(env, r, Blank, Arr(attrs));
  }

  /**
   * So the class as written and the corrected one differ on every non-empty
   * attribute list: as written the validated attributes never reach the
   * saved model; corrected they do.
   */
  lemma CreateAsWrittenLosesAttributes(env: Env, r: Repo, attrs: Assoc<Value>)
    requires PlainEloquent(r) && !r.kind.createFills && |attrs| > 0
    ensures var asWritten := Create(env, r, attrs);
      var corrected := Create(env, WithFillingCreate(r), attrs);
      asWritten.Ok? && corrected.Ok? && asWritten.value.trace != corrected.value.trace
  {
    CreateAsWrittenSavesBlankModel(env, r, attrs);
    CreateSavesFilledModel(env, WithFillingCreate(r), attrs);
    var m := FillModel(Blank, attrs);
    assert Keys(attrs)[0] == attrs[0].0;
    assert Get(m.attributes, attrs[0].0).Some?;
    assert m != Blank;
  }

  /** delete() on a plain Eloquent repository: one `delete()` of the model, its answer returned as is. */
  lemma EloquentDeleteReturnsAnswer(env: Env, r: Repo, m: Entity)
    requires r.kind.Eloquent? && NoCustomHandlers(r)
    requires "beforeDelete" !in r.methods && "afterDelete" !in r.methods
    ensures Delete(env, r, m) == Ok(Step(r, Val(env.answer(DeleteModel(m))), [DeleteModel(m)]))
  {
    PlainEloquentHandlers(r);
    DeleteNames();
    QuietPerform(env, r, "delete", Builtin(ModelDelete), Ent(m), Arr([]), false);
  }

  /**
   * A `beforeSave` veto inside create(): the outer action returns `false`,
   * nothing is saved and no after hook runs. As written, the hook is shown
   * the blank model.
   */
  lemma NestedSaveVetoFailsCreate(env: Env, r: Repo, attrs: Assoc<Value>)
    requires r.kind.Eloquent? && !r.kind.createFills && r.methods == {"beforeSave"} && r.validator.None?
    requires IsFalse(env.answer(Hook("beforeSave", Ent(Blank), Arr(attrs))))
    ensures Create(env, r, attrs) == Ok(Step(r, False, [Hook("beforeSave", Ent(Blank), Arr(attrs))]))
  {
    var veto := Hook("beforeSave", Ent(Blank), Arr(attrs));
    CreateNames(); SaveNames();
    PlainEloquentHandlers(r);
    BeforeHookVetoes(env, r, "save", Ent(Blank), Arr(attrs), false);
    assert Perform(env, r, "save", Ent(Blank), Arr(attrs), false) == Ok(Step(r, False, [] + [veto]));
    assert [] + [veto] == [veto];
    HandlerRunsUnlessVetoed(env, r, "create", Ent(Blank), Arr(attrs), true);
    assert RunHandler(env, r, Builtin(ModelCreate), Ent(Blank), Arr(attrs)) == Ok(Step(r, False, [veto]));
    assert DoBefore(env, r, "create", Ent(Blank), Arr(attrs)).trace == [];
    assert Create(env, r, attrs) == Ok(Step(r, False, [] + [] + [veto]));
    assert [] + [] + [veto] == [veto];
  }

  /**
   * update() on an Eloquent repository with a validator: the entity's key is
   * bound into the validator first, the validator sees the attributes, and
   * on success the model filled with the attributes is saved; the result is
   * the save's truthiness.
   */
  lemma UpdateFillsThenSaves(env: Env, r: Repo, m: Entity, attrs: Assoc<Value>)
    requires r.kind.Eloquent? && !r.kind.push && r.methods == {} && r.validator.Some?
    requires m.persisted
    requires var v := Replace(r.validator.value, "key", EntityKey(r, m));
      Truthy(env.answer(Validate(ValidName("update"), attrs, v)))
    ensures var v := Replace(r.validator.value, "key", EntityKey(r, m));
      var saved := FillModel(m, attrs);
      var res := Update(env, r, m, attrs);
      && res.Ok?
      && res.value.out == Val(Bool(Truthy(env.answer(SaveModel(saved)))))
      && res.value.trace == [Validate(ValidName("update"), attrs, v), SaveModel(saved)]
  {
    var saved := FillModel(m, attrs);
    var r1 := BindKey(r, m);
    PlainEloquentHandlers(r1);
    PlainSave(env, r1, saved, Arr(attrs));
    ValidatedPerform(env, r1, "update", Builtin(ModelUpdate), Ent(m), attrs);
  }

  // ---------------------------------------------------------------------------
  // Database: create, update, delete
  // ---------------------------------------------------------------------------

  /** A plain database repository: no extra methods, no validator. */
  predicate PlainDatabase(r: Repo)
  {
    r.kind.Database? && r.methods == {} && r.validator.None?
  }

  lemma PlainDatabaseHandlers(r: Repo)
    requires r.kind.Database? && NoCustomHandlers(r)
    ensures HandlerOf(r, "create") == Some(Builtin(RowCreate))
    ensures HandlerOf(r, "update") == Some(Builtin(RowUpdate))
    ensures HandlerOf(r, "delete") == Some(Builtin(RowDelete))
    ensures HandlerOf(r, "save").None?
  {
    CreateNames(); UpdateNames(); SaveNames(); DeleteNames();
  }

  /**
   * create() on a database repository inserts exactly the attributes into
   * the table and returns the new row iff the insert is truthy, else false.
   */
  lemma DatabaseCreateInserts(env: Env, r: Repo, attrs: Assoc<Value>)
    requires PlainDatabase(r) && Unique(attrs)
    ensures var call := Insert(NewQuery(r.kind.table), attrs);
      Create(env, r, attrs) == Ok(Step(r, if Truthy(env.answer(call)) then Ent(Entity(attrs, false)) else False, [call]))
  {
    PlainDatabaseHandlers(r);
    QuietPerform(env, r, "create", Builtin(RowCreate), Ent(Blank), Arr(attrs), true);
    assert RunHandler(env, r, Builtin(RowCreate), Ent(Blank), Arr(attrs)) == PerformRowCreate(env, r, Ent(Blank), Arr(attrs));
    FillBlankModel(attrs);
    assert Overlay(Blank, attrs) == Entity(attrs, false);
    assert RepoQuery(r) == NewQuery(r.kind.table);
  }

  /**
   * update() on a database repository: one update of the whole overlaid row,
   * restricted to the key column equal to the row's key after the overlay;
   * the result is that update's truthiness.
   */
  lemma DatabaseUpdateWritesRow(env: Env, r: Repo, e: Entity, attrs: Assoc<Value>)
    requires PlainDatabase(r)
    ensures var row := FillModel(e, attrs);
      var call := UpdateRows(NewQuery(r.kind.table).(wheres := [Basic(And, KeyName(r), "=", EntityKey(r, row))]), row.attributes);
      Update(env, r, e, attrs) == Ok(Step(r, Val(Bool(Truthy(env.answer(call)))), [call]))
  {
    PlainDatabaseHandlers(r);
    assert BindKey(r, e) == r;
    QuietPerform(env, r, "update", Builtin(RowUpdate), Ent(e), Arr(attrs), true);
    assert RunHandler(env, r, Builtin(RowUpdate), Ent(e), Arr(attrs)) == PerformRowUpdate(env, r, Ent(e), Arr(attrs));
    var row := FillModel(e, attrs);
    assert KeyQuery(r, row) == NewQuery(r.kind.table).(wheres := [Basic(And, KeyName(r), "=", EntityKey(r, row))]);
  }

  /**
   * The row with key `id = 1` updated with `foo = 'bar'`: the update is
   * restricted to `table.id = 1` and writes both columns.
   */
  lemma DatabaseUpdateExample(env: Env, r: Repo, key: Value, column: string, value: Value)
    requires PlainDatabase(r) && column != r.kind.primaryKey
    ensures var call := UpdateRows(NewQuery(r.kind.table).(wheres := [Basic(And, r.kind.table + "." + r.kind.primaryKey, "=", key)]),
                                   [(r.kind.primaryKey, key), (column, value)]);
      Update(env, r, Entity([(r.kind.primaryKey, key)], false), [(column, value)]) ==
        Ok(Step(r, Val(Bool(Truthy(env.answer(call)))), [call]))
  {
    var e := Entity([(r.kind.primaryKey, key)], false);
    DatabaseUpdateWritesRow(env, r, e, [(column, value)]);
    var row := FillModel(e, [(column, value)]);
    assert Unique(e.attributes + [(column, value)]);
    PutAllAppend(e.attributes, [(column, value)]);
    assert row.attributes == [(r.kind.primaryKey, key), (column, value)];
    assert Get(row.attributes, r.kind.primaryKey) == Some(key);
    assert EntityKey(r, row) == key;
  }

  /** delete() on a database repository deletes the row whose key column equals the entity's key. */
  lemma DatabaseDeleteByKey(env: Env, r: Repo, e: Entity)
    requires PlainDatabase(r)
    ensures var call := DeleteRows(NewQuery(r.kind.table).(wheres := [Basic(And, KeyName(r), "=", EntityKey(r, e))]));
      Delete(env, r, e) == Ok(Step(r, Val(env.answer(call)), [call]))
  {
    PlainDatabaseHandlers(r);
    QuietPerform(env, r, "delete", Builtin(RowDelete), Ent(e), Arr([]), false);
    assert RunHandler(env, r, Builtin(RowDelete), Ent(e), Arr([])) == PerformRowDelete(env, r, Ent(e));
    assert KeyQuery(r, e) == NewQuery(r.kind.table).(wheres := [Basic(And, KeyName(r), "=", EntityKey(r, e))]);
  }

  // ---------------------------------------------------------------------------
  // Queries
  // ---------------------------------------------------------------------------

  /** A repository whose class adds no query handler and no query hooks. */
  predicate PlainQueries(r: Repo)
  {
    "performQuery" !in r.methods && "beforeQuery" !in r.methods && "afterQuery" !in r.methods
  }

  /** Without a class of its own, the query action runs `performQuery`, whatever the repository kind. */
  lemma QueryHandler(r: Repo)
    requires "performQuery" !in r.methods
    ensures HandlerOf(r, "query") == Some(Builtin(RunQuery))
  {
    QueryNames();
  }

  /** The `query` action of a plain repository is `performQuery` alone. */
  lemma PlainQuery(env: Env, r: Repo, q: Builder, many: Value)
    requires PlainQueries(r)
    ensures Perform(env, r, "query", Q(q), many, false) == PerformQuery(env, r, Q(q), many)
  {
    QueryHandler(r);
    QueryNames();
    QuietPerform(env, r, "query", Builtin(RunQuery), Q(q), many, false);
  }

  /**
   * findByKey: one `first()` on the key query; a falsy row is an error
   * exactly when exceptions are on, and is returned otherwise.
   */
  lemma FindByKeyNotFound(env: Env, r: Repo, key: Value)
    requires PlainQueries(r)
    ensures var q := RepoQuery(r).(wheres := [Basic(And, KeyName(r), "=", key)]);
      var row := env.answer(SelectFirst(q));
      var res := FindByKey(env, r, key);
      && (res.Err? <==> r.throwExceptions && !Truthy(row))
      && (res.Err? ==> res.fault == NotFound)
      && (res.Ok? ==> res.value == Step(r, Val(row), [SelectFirst(q)]))
  {
    var q := AddBasic(RepoQuery(r), And, KeyName(r), "=", key);
    assert q == RepoQuery(r).(wheres := [Basic(And, KeyName(r), "=", key)]);
    PlainQuery(env, r, q, Bool(false));
  }

  /** After `toggleExceptions(true)` a missing row is an error; after `toggleExceptions(false)` it is returned. */
  lemma ToggledFind(env: Env, r: Repo, key: Value)
    requires PlainQueries(r)
    requires !Truthy(env.answer(SelectFirst(RepoQuery(r).(wheres := [Basic(And, KeyName(r), "=", key)]))))
    ensures FindByKey(env, ToggleExceptions(r, Bool(true)), key) == Err(NotFound)
    ensures FindByKey(env, ToggleExceptions(r, Bool(false)), key).Ok?
  {
    FindByKeyNotFound(env, ToggleExceptions(r, Bool(true)), key);
    FindByKeyNotFound(env, ToggleExceptions(r, Bool(false)), key);
  }

  /**
   * getAll after `paginate($toggle)`: one `get()` when the toggle is
   * `false`, else one `paginate((int) $toggle)`; the answer is returned.
   */
  lemma GetAllPages(env: Env, r: Repo, toggle: Value)
    requires PlainQueries(r)
    ensures var r1 := Paginate(r, toggle);
      var call := if IsFalse(toggle) then SelectAll(RepoQuery(r)) else SelectPage(RepoQuery(r), ToInt(toggle));
      GetAll(env, r1) == Ok(Step(r1, Val(env.answer(call)), [call]))
  {
    var r1 := Paginate(r, toggle);
    assert RepoQuery(r1) == RepoQuery(r);
    PlainQuery(env, r1, RepoQuery(r), Bool(true));
  }

  /**
   * findByAttributes: one `first()` on the attributes query, NotFound on a
   * falsy row only when exceptions are on.
   */
  lemma FindByAttributesFirst(env: Env, r: Repo, attrs: Assoc<Value>)
    requires PlainQueries(r)
    ensures var q := NewAttributesQuery(r, attrs);
      var row := env.answer(SelectFirst(q));
      var res := FindByAttributes(env, r, attrs);
      && (res.Err? <==> r.throwExceptions && !Truthy(row))
      && (res.Err? ==> res.fault == NotFound)
      && (res.Ok? ==> res.value == Step(r, Val(row), [SelectFirst(q)]))
  {
    PlainQuery(env, r, NewAttributesQuery(r, attrs), Bool(false));
  }

  /** getByAttributes: one `get()` or `paginate($n)` on the attributes query, never NotFound. */
  lemma GetByAttributesMany(env: Env, r: Repo, attrs: Assoc<Value>)
    requires PlainQueries(r)
    ensures var call := ManyCall(r, NewAttributesQuery(r, attrs));
      GetByAttributes(env, r, attrs) == Ok(Step(r, Val(env.answer(call)), [call]))
  {
    PlainQuery(env, r, NewAttributesQuery(r, attrs), Bool(true));
  }

  /** fetchList fetches the list even when `beforeQuery` returns `false`. */
  lemma ListIgnoresVeto(env: Env, r: Repo, q: Builder, column: string, key: Value)
    requires "beforeQuery" in r.methods && IsFalse(env.answer(Hook("beforeQuery", Q(q), Bool(true))))
    ensures FetchList(env, r, q, column, key).trace == [Hook("beforeQuery", Q(q), Bool(true)), SelectList(q, column, key)]
    ensures FetchList(env, r, q, column, key).out == Val(env.answer(SelectList(q, column, key)))
  {
    QueryNames();
  }
}
