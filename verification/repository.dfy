/**
 * Repository state shared by src/AbstractRepository.php and its Eloquent,
 * soft-deleting and database flavours: configuration, the error bag, the
 * pagination and exception toggles, validation, and the before/after hooks.
 *
 * Everything outside the repository (the validator's verdicts, hook bodies,
 * the database's answers) is an `Env`: a function from the call made to the
 * value it returns. The calls themselves are recorded, in order, so that
 * contracts can say which calls happened.
 */
module Repository {
  import opened Php
  import opened Query
  import opened SoftDeleting

  /** An Eloquent model or a Fluent row: its attributes and Eloquent's `exists` flag (`persisted`). */
  datatype Entity = Entity(attributes: Assoc<Value>, persisted: bool)

  /** A new, unsaved entity with no attributes (`newInstance([])`, `new Fluent([])`). */
  const Blank: Entity := Entity([], false)

  /** What flows through the pipeline: a plain value, an entity, or a query builder. */
  datatype Thing = Val(v: Value) | Ent(e: Entity) | Q(q: Builder)

  /** The one result the pipeline treats as failure. */
  const False: Thing := Val(Bool(false))

  /** `if ($x)` on a pipeline value: objects are always truthy. */
  predicate ThingTruthy(t: Thing)
  {
    match t
    case Val(v) => Truthy(v)
    case _ => true
  }

  /** The validator's state as the repository sees it: its `replace` bindings and exception toggle. */
  datatype Validator = Validator(replacements: Assoc<Value>, throws: bool)

  /** `$validator->replace($key, $value)`. */
  function Replace(v: Validator, key: string, value: Value): (r: Validator)
    ensures Get(r.replacements, key) == Some(value) && r.throws == v.throws
  {
    v.(replacements := Put(v.replacements, key, value))
  }

  /** A call that leaves the repository; its answer comes from the `Env`. */
  datatype Call =
    | Validate(name: string, input: Assoc<Value>, validator: Validator)     // $validator->valid<Action>($attributes)
    | Hook(name: string, subject: Thing, attributes: Value)                   // $this->before<Action> / after<Action>
    | Handle(name: string, subject: Thing, attributes: Value)                 // a perform<Action> the concrete class defines
    | SaveModel(model: Entity)                                                  // $model->save()
    | PushModel(model: Entity)                                                  // $model->push()
    | DeleteModel(model: Entity)                                                // $model->delete()
    | Insert(query: Builder, row: Assoc<Value>)                                 // $query->insert($row)
    | UpdateRows(query: Builder, row: Assoc<Value>)                             // $query->update($row)
    | DeleteRows(query: Builder)                                                // $query->delete()
    | SelectFirst(query: Builder)                                               // $query->first()
    | SelectAll(query: Builder)                                                 // $query->get()
    | SelectPage(query: Builder, perPage: int)                                  // $query->paginate($n)
    | SelectList(query: Builder, column: string, key: Value)                    // $query->lists($column, $key)

  /** The world outside: what each call returns, and the validator's messages after a call. */
  datatype Env = Env(answer: Call -> Value, messages: Call -> seq<string>)

  /**
   * The concrete repository class. `trashed` is set for
   * SoftDeletingEloquentRepository only. `createFills` says whether
   * performCreate fills the model before the nested save: false for
   * EloquentRepository as written, true for its corrected form.
   */
  datatype Kind =
    | Eloquent(table: string, keyName: string, push: bool, trashed: Option<Trashed>, createFills: bool)
    | Database(table: string, primaryKey: string)

  /** `$paginate`: `false`, or the page size as an int. */
  datatype Paging = Off | PerPage(n: int)

  /**
   * A repository: its class, the names of the extra methods that class
   * declares (hooks such as `beforeCreate`, handlers such as `performPublish`),
   * its validator, error bag and toggles.
   */
  datatype Repo = Repo(
    kind: Kind,
    methods: set<string>,
    validator: Option<Validator>,
    errors: seq<string>,
    throwExceptions: bool,
    paging: Paging)

  /** `r'` differs from `r` at most by messages added to the end of the error bag. */
  predicate OnlyErrorsGrow(r: Repo, r': Repo)
  {
    r' == r.(errors := r'.errors) && r.errors <= r'.errors
  }

  lemma OnlyErrorsGrowTransitive(a: Repo, b: Repo, c: Repo)
    requires OnlyErrorsGrow(a, b) && OnlyErrorsGrow(b, c)
    ensures OnlyErrorsGrow(a, c)
  {
    assert a.errors <= c.errors by {
      assert c.errors[..|b.errors|] == b.errors;
      assert c.errors[..|a.errors|] == c.errors[..|b.errors|][..|a.errors|];
    }
  }

  const DefaultPrimaryKey: string := "id"

  /**
   * EloquentRepository's constructor: an empty error bag, both toggles off,
   * and the model's table pushed into the validator only when there is one.
   */
  function NewEloquent(table: string, keyName: string, push: bool, softDeletes: bool, methods: set<string>, validator: Option<Validator>): (r: Repo)
    ensures r.errors == [] && !r.throwExceptions && r.paging == Off
    ensures r.kind.Eloquent? && r.kind.table == table && r.kind.keyName == keyName && r.kind.push == push
    ensures !r.kind.createFills
    ensures softDeletes ==> r.kind.trashed == Some(Initial)
    ensures !softDeletes ==> r.kind.trashed.None?
    ensures validator.None? <==> r.validator.None?
    ensures validator.Some? ==> r.validator == Some(Replace(validator.value, "table", Str(table)))
  {
    Repo(
      Eloquent(table, keyName, push, if softDeletes then Some(Initial) else None, false),
      methods,
      if validator.Some? then Some(Replace(validator.value, "table", Str(table))) else None,
      [], false, Off)
  }

  /**
   * DatabaseRepository's constructor as written. The file imports no
   * `Validator`, so the parameter's type hint names the missing class
   * `anlutro\LaravelRepository\Validator`: any validator passed is a
   * TypeError, and only the default null gets through. Then a class that
   * leaves `$table` null is refused.
   */
  function NewDatabase(className: string, table: Option<string>, methods: set<string>, validator: Option<Validator>, primaryKey: string := DefaultPrimaryKey): (r: Result<Repo>)
    ensures r.Ok? <==> validator.None? && table.Some?
    ensures validator.Some? ==> r == Err(TypeError("__construct"))
    ensures validator.None? && table.None? ==> r == Err(Runtime("Property " + className + "::$table must be defined."))
    ensures r.Ok? ==> r.value.kind == Database(table.value, primaryKey) && r.value.methods == methods
    ensures r.Ok? ==> r.value.validator.None? && r.value.errors == [] && !r.value.throwExceptions && r.value.paging == Off
    ensures r.Ok? ==> KeyName(r.value) == table.value + "." + primaryKey
  {
    if validator.Some? then Err(TypeError("__construct"))
    else NewDatabaseCorrected(className, table, methods, None, primaryKey)
  }

  /**
   * DatabaseRepository's constructor with the validator type imported as in
   * AbstractRepository: a class that leaves `$table` null is refused;
   * otherwise as for Eloquent, with the table pushed into the validator.
   */
  function NewDatabaseCorrected(className: string, table: Option<string>, methods: set<string>, validator: Option<Validator>, primaryKey: string := DefaultPrimaryKey): (r: Result<Repo>)
    ensures r.Err? <==> table.None?
    ensures r.Err? ==> r.fault == Runtime("Property " + className + "::$table must be defined.")
    ensures r.Ok? ==> r.value.kind == Database(table.value, primaryKey) && r.value.methods == methods
    ensures r.Ok? ==> r.value.errors == [] && !r.value.throwExceptions && r.value.paging == Off
    ensures r.Ok? ==> (validator.None? <==> r.value.validator.None?)
    ensures r.Ok? && validator.Some? ==> r.value.validator == Some(Replace(validator.value, "table", Str(table.value)))
  {
    if table.None? then Err(Runtime("Property " + className + "::$table must be defined."))
    else
      Ok(Repo(
        Database(table.value, primaryKey),
        methods,
        if validator.Some? then Some(Replace(validator.value, "table", Str(table.value))) else None,
        [], false, Off))
  }

  /**
   * As written, a database repository cannot be given a validator at all;
   * with the import corrected the same arguments build one whose validator
   * knows the table.
   */
  lemma DatabaseRefusesValidator(className: string, t: string, methods: set<string>, v: Validator)
    ensures NewDatabase(className, Some(t), methods, Some(v)).Err?
    ensures NewDatabaseCorrected(className, Some(t), methods, Some(v)).Ok?
    ensures NewDatabaseCorrected(className, Some(t), methods, Some(v)).value.validator == Some(Replace(v, "table", Str(t)))
  {
  }

  /** The table the repository queries. */
  function TableOf(r: Repo): string
  {
    r.kind.table
  }

  /** DatabaseRepository::setTable: stores `(string) $table`. */
  function SetTable(r: Repo, table: Value): (res: Result<Repo>)
    requires r.kind.Database?
    ensures res.Ok? <==> ToStr(table).Ok?
    ensures res.Ok? ==> TableOf(res.value) == ToStr(table).value
    ensures res.Ok? ==> res.value == r.(kind := Database(ToStr(table).value, r.kind.primaryKey))
  {
    match ToStr(table)
    case Err(f) => Err(f)
    case Ok(s) => Ok(r.(kind := Database(s, r.kind.primaryKey)))
  }

  /** Setting a string table and reading it back gives that string. */
  lemma SetTableGetTable(r: Repo, s: string)
    requires r.kind.Database?
    ensures SetTable(r, Str(s)).Ok? && TableOf(SetTable(r, Str(s)).value) == s
  {
  }

  /** The column name `findByKey` filters on: the table, a dot, then the key column. */
  function KeyName(r: Repo): (k: string)
    ensures r.kind.Database? ==> k == r.kind.table + "." + r.kind.primaryKey
    ensures r.kind.Eloquent? ==> k == r.kind.table + "." + r.kind.keyName
  {
    match r.kind
    case Eloquent(table, keyName, _, _, _) => table + "." + keyName
    case Database(table, primaryKey) => table + "." + primaryKey
  }

  /**
   * EloquentRepository with performCreate corrected: the same repository,
   * except that `create` fills the model before saving it.
   */
  function WithFillingCreate(r: Repo): (r': Repo)
    requires r.kind.Eloquent?
    ensures r'.kind.Eloquent? && r'.kind.createFills
    ensures r'.kind.table == r.kind.table && r'.kind.keyName == r.kind.keyName
    ensures r'.kind.push == r.kind.push && r'.kind.trashed == r.kind.trashed
    ensures r'.methods == r.methods && r'.validator == r.validator && r'.errors == r.errors
    ensures r'.throwExceptions == r.throwExceptions && r'.paging == r.paging
  {
    r.(kind := Eloquent(r.kind.table, r.kind.keyName, r.kind.push, r.kind.trashed, true))
  }

  /** The key column of an entity: `getKey()` or `$entity->{$primaryKey}`; null when unset. */
  function EntityKey(r: Repo, e: Entity): (k: Value)
    ensures var column := if r.kind.Eloquent? then r.kind.keyName else r.kind.primaryKey;
      && (Get(e.attributes, column).Some? ==> k == Get(e.attributes, column).value)
      && (Get(e.attributes, column).None? ==> k == Null)
  {
    match r.kind
    case Eloquent(_, keyName, _, _, _) => GetOr(e.attributes, keyName, Null)
    case Database(_, primaryKey) => GetOr(e.attributes, primaryKey, Null)
  }

  /** `newQuery`: a query on the table, with the soft-deleting scopes where they apply. */
  function RepoQuery(r: Repo): (q: Builder)
    ensures q.from == TableOf(r) && q.wheres == [] && q.joins == []
    ensures r.kind.Database? || r.kind.trashed.None? ==> q.scopes == []
  {
    match r.kind
    case Eloquent(table, _, _, trashed, _) =>
      if trashed.Some? then ScopeQuery(trashed.value, NewQuery(table)) else NewQuery(table)
    case Database(table, _) => NewQuery(table)
  }

  /** SoftDeletingEloquentRepository::onlyTrashed. */
  function RepoOnlyTrashed(r: Repo): (r': Repo)
    requires r.kind.Eloquent? && r.kind.trashed.Some?
    ensures r' == r.(kind := r.kind.(trashed := Some(OnlyTrashed(r.kind.trashed.value))))
  {
    r.(kind := r.kind.(trashed := Some(OnlyTrashed(r.kind.trashed.value))))
  }

  /** SoftDeletingEloquentRepository::withTrashed. */
  function RepoWithTrashed(r: Repo): (r': Repo)
    requires r.kind.Eloquent? && r.kind.trashed.Some?
    ensures r' == r.(kind := r.kind.(trashed := Some(WithTrashed(r.kind.trashed.value))))
  {
    r.(kind := r.kind.(trashed := Some(WithTrashed(r.kind.trashed.value))))
  }

  /** After `onlyTrashed()` every new query carries exactly the `onlyTrashed` scope. */
  lemma OnlyTrashedScopesQueries(r: Repo)
    requires r.kind.Eloquent? && r.kind.trashed.Some?
    ensures RepoQuery(RepoOnlyTrashed(r)).scopes == ["onlyTrashed"]
  {
    var q := NewQuery(r.kind.table);
    AtMostOneScope(Trashed(true, false), q);
    assert ScopeQuery(Trashed(true, false), q).scopes[|q.scopes|..] == ScopeQuery(Trashed(true, false), q).scopes;
  }

  /** After `withTrashed()` every new query carries exactly the `withTrashed` scope. */
  lemma WithTrashedScopesQueries(r: Repo)
    requires r.kind.Eloquent? && r.kind.trashed.Some?
    ensures RepoQuery(RepoWithTrashed(r)).scopes == ["withTrashed"]
  {
    var q := NewQuery(r.kind.table);
    AtMostOneScope(Trashed(false, true), q);
    assert ScopeQuery(Trashed(false, true), q).scopes[|q.scopes|..] == ScopeQuery(Trashed(false, true), q).scopes;
  }

  /** `paginate($toggle)`: `false` turns pagination off; anything else is cast to int. */
  function Paginate(r: Repo, toggle: Value): (r': Repo)
    ensures r'.paging.Off? <==> IsFalse(toggle)
    ensures r'.paging.PerPage? ==> r'.paging.n == ToInt(toggle)
    ensures r' == r.(paging := r'.paging)
  {
    r.(paging := if IsFalse(toggle) then Off else PerPage(ToInt(toggle)))
  }

  /**
   * `toggleExceptions($toggle, $toggleValidator)`: the repository's flag
   * becomes `(bool) $toggle`, and so does the validator's when there is one
   * and `$toggleValidator` is set.
   */
  function ToggleExceptions(r: Repo, toggle: Value, toggleValidator: bool := true): (r': Repo)
    ensures r'.throwExceptions == Truthy(toggle)
    ensures r'.validator.Some? <==> r.validator.Some?
    ensures r.validator.Some? ==> r'.validator.value.replacements == r.validator.value.replacements
    ensures r.validator.Some? ==> r'.validator.value.throws == (if toggleValidator then Truthy(toggle) else r.validator.value.throws)
    ensures r' == r.(throwExceptions := r'.throwExceptions, validator := r'.validator)
  {
    r.(throwExceptions := Truthy(toggle),
       validator := if r.validator.Some? && toggleValidator then Some(r.validator.value.(throws := Truthy(toggle))) else r.validator)
  }

  // ---------------------------------------------------------------------------
  // Validation
  // ---------------------------------------------------------------------------

  /** The validator method for an action: `'valid' . ucfirst($action)`. */
  function ValidName(action: string): string
  {
    "valid" + Ucfirst(action)
  }

  /** The result of `valid`, the repository afterwards and the calls it made. */
  datatype Checked = Checked(repo: Repo, result: Value, trace: seq<Call>)

  /**
   * AbstractRepository::valid: true without a validator; otherwise whatever
   * the validator returns, and only an exact `false` adds the validator's
   * messages to the error bag.
   */
  function Valid(env: Env, r: Repo, action: string, attrs: Assoc<Value>): (c: Checked)
    ensures r.validator.None? ==> c == Checked(r, Bool(true), [])
    ensures r.validator.Some? ==> var call := Validate(ValidName(action), attrs, r.validator.value);
      && c.trace == [call]
      && c.result == env.answer(call)
      && c.repo == r.(errors := r.errors + (if IsFalse(c.result) then env.messages(call) else []))
    ensures OnlyErrorsGrow(r, c.repo)
  {
    if r.validator.None? then Checked(r, Bool(true), [])
    else
      var call := Validate(ValidName(action), attrs, r.validator.value);
      var result := env.answer(call);
      var r' := if IsFalse(result) then r.(errors := r.errors + env.messages(call)) else r;
      Checked(r', result, [call])
  }

  /**
   * A validator answering null or another falsy value fails the action
   * without adding messages: only `false` itself is reported.
   */
  lemma FalsyVerdictAddsNoMessages(env: Env, r: Repo, action: string, attrs: Assoc<Value>)
    requires r.validator.Some?
    requires var call := Validate(ValidName(action), attrs, r.validator.value);
      !Truthy(env.answer(call)) && !IsFalse(env.answer(call))
    ensures !Truthy(Valid(env, r, action, attrs).result)
    ensures Valid(env, r, action, attrs).repo == r
  {
  }

  /** Messages from successive failed validations pile up in order; nothing clears them. */
  lemma FailedValidationsAccumulate(env: Env, r: Repo, a1: string, x1: Assoc<Value>, a2: string, x2: Assoc<Value>)
    requires r.validator.Some?
    requires IsFalse(env.answer(Validate(ValidName(a1), x1, r.validator.value)))
    requires IsFalse(env.answer(Validate(ValidName(a2), x2, r.validator.value)))
    ensures var r1 := Valid(env, r, a1, x1).repo;
      Valid(env, r1, a2, x2).repo.errors ==
        r.errors + env.messages(Validate(ValidName(a1), x1, r.validator.value))
                 + env.messages(Validate(ValidName(a2), x2, r.validator.value))
  {
  }

  // ---------------------------------------------------------------------------
  // Before and after hooks
  // ---------------------------------------------------------------------------

  /** What `doBeforeOrAfter` returns and the calls it made. */
  datatype Hooked = Hooked(result: Value, trace: seq<Call>)

  /**
   * doBeforeOrAfter: when the class has a `$which . ucfirst($action)` method
   * it is called with the subject and attributes; the result is `false` when
   * that call returned exactly `false`, and null otherwise.
   */
  function DoBeforeOrAfter(env: Env, r: Repo, which: string, action: string, subject: Thing, attrs: Value): (h: Hooked)
    ensures h.result == Bool(false) || h.result == Null
    ensures var name := which + Ucfirst(action);
      && (name !in r.methods ==> h == Hooked(Null, []))
      && (name in r.methods ==> h.trace == [Hook(name, subject, attrs)])
      && (IsFalse(h.result) <==> name in r.methods && IsFalse(env.answer(Hook(name, subject, attrs))))
  {
    var name := which + Ucfirst(action);
    if name in r.methods then
      var call := Hook(name, subject, attrs);
      Hooked(if IsFalse(env.answer(call)) then Bool(false) else Null, [call])
    else Hooked(Null, [])
  }

  function DoBefore(env: Env, r: Repo, action: string, subject: Thing, attrs: Value): (h: Hooked)
    ensures var name := "before" + Ucfirst(action);
      && (name !in r.methods ==> h == Hooked(Null, []))
      && (name in r.methods ==> h.trace == [Hook(name, subject, attrs)])
      && (IsFalse(h.result) <==> name in r.methods && IsFalse(env.answer(Hook(name, subject, attrs))))
  {
    DoBeforeOrAfter(env, r, "before", action, subject, attrs)
  }

  function DoAfter(env: Env, r: Repo, action: string, result: Thing, attrs: Value): (h: Hooked)
    ensures var name := "after" + Ucfirst(action);
      && (name !in r.methods ==> h == Hooked(Null, []))
      && (name in r.methods ==> h.trace == [Hook(name, result, attrs)])
      && (IsFalse(h.result) <==> name in r.methods && IsFalse(env.answer(Hook(name, result, attrs))))
  {
    DoBeforeOrAfter(env, r, "after", action, result, attrs)
  }
}
