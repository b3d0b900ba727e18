/**
 * The action pipeline of src/AbstractRepository.php (`perform`) with the
 * handlers of src/EloquentRepository.php and src/DatabaseRepository.php,
 * and the public operations built on it.
 */
module Dispatch {
  import opened Php
  import opened Query
  import opened Repository

  /** The handlers the repository classes themselves define. */
  datatype Op =
    | RunQuery                                   // AbstractRepository::performQuery
    | ModelCreate | ModelUpdate | ModelSave | ModelDelete   // EloquentRepository
    | RowCreate | RowUpdate | RowDelete          // DatabaseRepository

  /** A resolved `perform<Action>` method: one of the above, or one the concrete class declares. */
  datatype Handler = Builtin(op: Op) | Custom(name: string)

  /** The handler method for an action: `'perform' . ucfirst($action)`. */
  function PerformName(action: string): string
  {
    "perform" + Ucfirst(action)
  }

  /** The handlers a repository class inherits, by method name. */
  function BuiltinHandler(kind: Kind, name: string): (r: Option<Op>)
    ensures name == "performQuery" ==> r == Some(RunQuery)
    ensures kind.Eloquent? ==> (r.Some? <==> name in {"performQuery", "performCreate", "performUpdate", "performSave", "performDelete"})
    ensures kind.Database? ==> (r.Some? <==> name in {"performQuery", "performCreate", "performUpdate", "performDelete"})
    ensures kind.Eloquent? && r.Some? ==> !(r.value.RowCreate? || r.value.RowUpdate? || r.value.RowDelete?)
    ensures kind.Database? && r.Some? ==> !(r.value.ModelCreate? || r.value.ModelUpdate? || r.value.ModelSave? || r.value.ModelDelete?)
  {
    if name == "performQuery" then Some(RunQuery)
    else
      match kind
      case Eloquent(_, _, _, _, _) =>
        if name == "performCreate" then Some(ModelCreate)
        else if name == "performUpdate" then Some(ModelUpdate)
        else if name == "performSave" then Some(ModelSave)
        else if name == "performDelete" then Some(ModelDelete)
        else None
      case Database(_, _) =>
        if name == "performCreate" then Some(RowCreate)
        else if name == "performUpdate" then Some(RowUpdate)
        else if name == "performDelete" then Some(RowDelete)
        else None
  }

  /**
   * `method_exists($this, $perform)` followed by the call: a method the
   * concrete class declares wins over an inherited one.
   */
  function HandlerOf(r: Repo, action: string): (h: Option<Handler>)
    ensures PerformName(action) in r.methods ==> h == Some(Custom(PerformName(action)))
    ensures PerformName(action) !in r.methods ==>
      (h.None? <==> BuiltinHandler(r.kind, PerformName(action)).None?)
  {
    var name := PerformName(action);
    if name in r.methods then Some(Custom(name))
    else
      match BuiltinHandler(r.kind, name)
      case Some(op) => Some(Builtin(op))
      case None => None
  }

  /** 1 for the handlers that run a nested `save` action, 0 for the others. */
  function Nests(h: Handler): nat
  {
    if h == Builtin(ModelCreate) || h == Builtin(ModelUpdate) then 1 else 0
  }

  function NestsOf(r: Repo, action: string): nat
  {
    match HandlerOf(r, action)
    case Some(h) => Nests(h)
    case None => 0
  }

  /** The nested action is `save`, whose handler never nests again. */
  lemma SaveDoesNotNest(r: Repo)
    ensures PerformName("save") == "performSave"
    ensures NestsOf(r, "save") == 0
  {
    assert Ucfirst("save") == "Save";
  }

  /** What an action left behind: the repository, its result and the calls made, in order. */
  datatype Step = Step(repo: Repo, out: Thing, trace: seq<Call>)

  /**
   * AbstractRepository::perform. The handler must exist; then, when asked,
   * the attributes are validated; then the before hook, the handler and the
   * after hook run. A failed validation, a before hook returning exactly
   * `false` or a handler returning exactly `false` end the action with
   * `false`; the after hook's result is ignored.
   */
  function Perform(env: Env, r: Repo, action: string, subject: Thing, attrs: Value, validate: bool): (res: Result<Step>)
    ensures HandlerOf(r, action).None? ==> res == Err(BadMethodCall(PerformName(action)))
    ensures res.Ok? ==> OnlyErrorsGrow(r, res.value.repo)
    ensures res.Ok? && !validate ==> res.value.repo == r
    decreases NestsOf(r, action), 2
  {
    match HandlerOf(r, action)
    case None => Err(BadMethodCall(PerformName(action)))
    case Some(h) =>
      if validate && !attrs.Arr? then Err(TypeError("valid"))
      else
        var c := if validate then Valid(env, r, action, attrs.entries) else Checked(r, Bool(true), []);
        if !Truthy(c.result) then Ok(Step(c.repo, False, c.trace))
        else
          var b := DoBefore(env, c.repo, action, subject, attrs);
          if IsFalse(b.result) then Ok(Step(c.repo, False, c.trace + b.trace))
          else
            match RunHandler(env, c.repo, h, subject, attrs)
            case Err(f) => Err(f)
            case Ok(s) =>
              if s.out == False then Ok(Step(s.repo, False, c.trace + b.trace + s.trace))
              else Ok(Step(s.repo, s.out, c.trace + b.trace + s.trace + DoAfter(env, s.repo, action, s.out, attrs).trace))
  }

  /** `call_user_func_array([$this, $perform], [$object, $attributes])` for a resolved handler. */
  function RunHandler(env: Env, r: Repo, h: Handler, subject: Thing, attrs: Value): (res: Result<Step>)
    ensures res.Ok? ==> res.value.repo == r
    decreases Nests(h), 1
  {
    match h
    case Custom(name) =>
      var call := Handle(name, subject, attrs);
      Ok(Step(r, Val(env.answer(call)), [call]))
    case Builtin(op) =>
      match op
      case RunQuery => PerformQuery(env, r, subject, attrs)
      case ModelCreate =>
        if r.kind.Eloquent? && r.kind.createFills then FillThenSave(env, r, subject, attrs)
        else ModelCreateAsWritten(env, r, subject, attrs)
      case ModelUpdate => FillThenSave(env, r, subject, attrs)
      case ModelSave => PerformSave(env, r, subject)
      case ModelDelete => PerformModelDelete(env, r, subject)
      case RowCreate => PerformRowCreate(env, r, subject, attrs)
      case RowUpdate => PerformRowUpdate(env, r, subject, attrs)
      case RowDelete => PerformRowDelete(env, r, subject)
  }

  // ---------------------------------------------------------------------------
  // AbstractRepository::performQuery
  // ---------------------------------------------------------------------------

  /** The call a many-row fetch makes: `get()`, or `paginate($n)` when pagination is on. */
  function ManyCall(r: Repo, q: Builder): (c: Call)
    ensures r.paging.Off? <==> c == SelectAll(q)
    ensures r.paging.PerPage? ==> c == SelectPage(q, r.paging.n)
  {
    match r.paging
    case Off => SelectAll(q)
    case PerPage(n) => SelectPage(q, n)
  }

  /**
   * performQuery($query, $many): `first()` when `$many` is exactly false,
   * throwing NotFoundException on a falsy row when exceptions are on;
   * otherwise `get()` or `paginate($n)`.
   */
  function PerformQuery(env: Env, r: Repo, subject: Thing, many: Value): (res: Result<Step>)
    ensures !subject.Q? ==> res == Err(TypeError("query"))
    ensures subject.Q? && IsFalse(many) ==> var call := SelectFirst(subject.q);
      && (res.Err? <==> r.throwExceptions && !Truthy(env.answer(call)))
      && (res.Err? ==> res.fault == NotFound)
      && (res.Ok? ==> res.value == Step(r, Val(env.answer(call)), [call]))
    ensures subject.Q? && !IsFalse(many) ==> var call := ManyCall(r, subject.q);
      res == Ok(Step(r, Val(env.answer(call)), [call]))
  {
    match subject
    case Q(q) =>
      if IsFalse(many) then
        var call := SelectFirst(q);
        var row := env.answer(call);
        if !Truthy(row) && r.throwExceptions then Err(NotFound)
        else Ok(Step(r, Val(row), [call]))
      else
        var call := ManyCall(r, q);
        Ok(Step(r, Val(env.answer(call)), [call]))
    case _ => Err(TypeError("query"))
  }

  // ---------------------------------------------------------------------------
  // EloquentRepository handlers
  // ---------------------------------------------------------------------------

  /** `$model->fill($attributes)`: every attribute set on the model, in order. */
  function FillModel(m: Entity, attrs: Assoc<Value>): (m': Entity)
    ensures m'.persisted == m.persisted
    ensures forall k :: Get(m'.attributes, k) == (if k in Keys(attrs) then Some(LastValue(attrs, k)) else Get(m.attributes, k))
  {
    var m' := m.(attributes := PutAll(m.attributes, attrs));
    assert forall k :: Get(m'.attributes, k) == (if k in Keys(attrs) then Some(LastValue(attrs, k)) else Get(m.attributes, k)) by {
      forall k ensures Get(m'.attributes, k) == (if k in Keys(attrs) then Some(LastValue(attrs, k)) else Get(m.attributes, k)) {
        PutAllGet(m.attributes, attrs, k);
      }
    }
    m'
  }

  /**
   * performUpdate, and the corrected performCreate: fill the model with the
   * attributes, then run the nested `save` action without validation.
   */
  function FillThenSave(env: Env, r: Repo, subject: Thing, attrs: Value): (res: Result<Step>)
    ensures res.Ok? ==> res.value.repo == r
    ensures subject.Ent? && attrs.Arr? ==> res == Perform(env, r, "save", Ent(FillModel(subject.e, attrs.entries)), attrs, false)
    decreases 1, 0
  {
    SaveDoesNotNest(r);
    match subject
    case Ent(m) =>
      if !attrs.Arr? then Err(TypeError("fill"))
      else Perform(env, r, "save", Ent(FillModel(m, attrs.entries)), attrs, false)
    case _ => Err(TypeError("fill"))
  }

  /** performCreate as written: the nested `save` receives the model as it came, unfilled. */
  function ModelCreateAsWritten(env: Env, r: Repo, subject: Thing, attrs: Value): (res: Result<Step>)
    ensures res.Ok? ==> res.value.repo == r
    decreases 1, 0
  {
    SaveDoesNotNest(r);
    Perform(env, r, "save", subject, attrs, false)
  }

  /** The call performSave makes: `push()` when the repository's push flag is set, else `save()`. */
  function SaveCall(r: Repo, m: Entity): (c: Call)
    requires r.kind.Eloquent?
    ensures r.kind.push ==> c == PushModel(m)
    ensures !r.kind.push ==> c == SaveModel(m)
  {
    if r.kind.push then PushModel(m) else SaveModel(m)
  }

  /** performSave: the model when `push()`/`save()` is truthy, else false. */
  function PerformSave(env: Env, r: Repo, subject: Thing): (res: Result<Step>)
    ensures !subject.Ent? || !r.kind.Eloquent? ==> res == Err(TypeError("save"))
    ensures subject.Ent? && r.kind.Eloquent? ==> var call := SaveCall(r, subject.e);
      && res.Ok? && res.value.repo == r && res.value.trace == [call]
      && (res.value.out == Ent(subject.e) <==> Truthy(env.answer(call)))
      && (res.value.out == False <==> !Truthy(env.answer(call)))
  {
    if subject.Ent? && r.kind.Eloquent? then
      var call := SaveCall(r, subject.e);
      Ok(Step(r, if Truthy(env.answer(call)) then subject else False, [call]))
    else Err(TypeError("save"))
  }

  /** performDelete: whatever `$model->delete()` returns. */
  function PerformModelDelete(env: Env, r: Repo, subject: Thing): (res: Result<Step>)
    ensures !subject.Ent? ==> res == Err(TypeError("delete"))
    ensures subject.Ent? ==> res == Ok(Step(r, Val(env.answer(DeleteModel(subject.e))), [DeleteModel(subject.e)]))
  {
    match subject
    case Ent(m) => Ok(Step(r, Val(env.answer(DeleteModel(m))), [DeleteModel(m)]))
    case _ => Err(TypeError("delete"))
  }

  // ---------------------------------------------------------------------------
  // DatabaseRepository handlers
  // ---------------------------------------------------------------------------

  /** `$entity->$key = $value` for every attribute, in order. */
  function Overlay(e: Entity, attrs: Assoc<Value>): (e': Entity)
    ensures e'.persisted == e.persisted
    ensures forall k :: Get(e'.attributes, k) == (if k in Keys(attrs) then Some(LastValue(attrs, k)) else Get(e.attributes, k))
  {
    FillModel(e, attrs)
  }

  /** `where(getKeyName(), '=', $entity->{$primaryKey})` on a new query. */
  function KeyQuery(r: Repo, e: Entity): (q: Builder)
    ensures q.from == TableOf(r) && q.joins == [] && q.scopes == RepoQuery(r).scopes
    ensures q.wheres == [Basic(And, KeyName(r), "=", EntityKey(r, e))]
  {
    AddBasic(RepoQuery(r), And, KeyName(r), "=", EntityKey(r, e))
  }

  /** performCreate: overlay the attributes, insert the whole row, return the entity iff the insert is truthy. */
  function PerformRowCreate(env: Env, r: Repo, subject: Thing, attrs: Value): (res: Result<Step>)
    ensures !subject.Ent? || !attrs.Arr? ==> res.Err?
    ensures subject.Ent? && attrs.Arr? ==>
      var e := Overlay(subject.e, attrs.entries);
      var call := Insert(RepoQuery(r), e.attributes);
      && res.Ok? && res.value.repo == r && res.value.trace == [call]
      && res.value.out == (if Truthy(env.answer(call)) then Ent(e) else False)
  {
    match subject
    case Ent(e) =>
      if !attrs.Arr? then Err(TypeError("performCreate"))
      else
        var e' := Overlay(e, attrs.entries);
        var call := Insert(RepoQuery(r), e'.attributes);
        Ok(Step(r, if Truthy(env.answer(call)) then Ent(e') else False, [call]))
    case _ => Err(TypeError("performCreate"))
  }

  /**
   * performUpdate: overlay the attributes, then one update of the whole row
   * restricted to the key read from the overlaid entity; its result is returned.
   */
  function PerformRowUpdate(env: Env, r: Repo, subject: Thing, attrs: Value): (res: Result<Step>)
    ensures !subject.Ent? || !attrs.Arr? ==> res.Err?
    ensures subject.Ent? && attrs.Arr? ==>
      var e := Overlay(subject.e, attrs.entries);
      var call := UpdateRows(KeyQuery(r, e), e.attributes);
      res == Ok(Step(r, Val(env.answer(call)), [call]))
  {
    match subject
    case Ent(e) =>
      if !attrs.Arr? then Err(TypeError("performUpdate"))
      else
        var e' := Overlay(e, attrs.entries);
        var call := UpdateRows(KeyQuery(r, e'), e'.attributes);
        Ok(Step(r, Val(env.answer(call)), [call]))
    case _ => Err(TypeError("performUpdate"))
  }

  /** performDelete: delete where the key equals the entity's key; its result is returned. */
  function PerformRowDelete(env: Env, r: Repo, subject: Thing): (res: Result<Step>)
    ensures !subject.Ent? ==> res.Err?
    ensures subject.Ent? ==> var call := DeleteRows(KeyQuery(r, subject.e));
      res == Ok(Step(r, Val(env.answer(call)), [call]))
  {
    match subject
    case Ent(e) =>
      var call := DeleteRows(KeyQuery(r, e));
      Ok(Step(r, Val(env.answer(call)), [call]))
    case _ => Err(TypeError("performDelete"))
  }

  // ---------------------------------------------------------------------------
  // Public operations
  // ---------------------------------------------------------------------------

  /** create($attributes): a new entity through the validated `create` action. */
  function Create(env: Env, r: Repo, attrs: Assoc<Value>): (res: Result<Step>)
    ensures HandlerOf(r, "create").None? ==> res == Err(BadMethodCall(PerformName("create")))
    ensures res.Ok? ==> OnlyErrorsGrow(r, res.value.repo)
  {
    Perform(env, r, "create", Ent(Blank), Arr(attrs), true)
  }

  /** The repository `update` validates with: the entity's key bound as `key` when there is a validator. */
  function BindKey(r: Repo, e: Entity): (r': Repo)
    ensures r.validator.None? ==> r' == r
    ensures r.validator.Some? ==> r' == r.(validator := Some(Replace(r.validator.value, "key", EntityKey(r, e))))
  {
    if r.validator.Some? then r.(validator := Some(Replace(r.validator.value, "key", EntityKey(r, e)))) else r
  }

  /**
   * update($entity, $attributes): an Eloquent model that does not exist is
   * refused before anything else; then the validated `update` action, whose
   * result is reduced to a bool.
   */
  function Update(env: Env, r: Repo, e: Entity, attrs: Assoc<Value>): (res: Result<Step>)
    ensures r.kind.Eloquent? && !e.persisted ==> res == Err(Runtime("Cannot update non-existant model"))
    ensures res.Ok? ==> res.value.out.Val? && res.value.out.v.Bool?
  {
    if r.kind.Eloquent? && !e.persisted then Err(Runtime("Cannot update non-existant model"))
    else
      match Perform(env, BindKey(r, e), "update", Ent(e), Arr(attrs), true)
      case Err(f) => Err(f)
      case Ok(s) => Ok(s.(out := Val(Bool(ThingTruthy(s.out)))))
  }

  /** delete($entity): the unvalidated `delete` action. */
  function Delete(env: Env, r: Repo, e: Entity): (res: Result<Step>)
    ensures HandlerOf(r, "delete").None? ==> res == Err(BadMethodCall(PerformName("delete")))
    ensures res.Ok? ==> res.value.repo == r
  {
    Perform(env, r, "delete", Ent(e), Arr([]), false)
  }

  /** fetchMany($query): the `query` action with `$many` true. */
  function FetchMany(env: Env, r: Repo, q: Builder): (res: Result<Step>)
    ensures HandlerOf(r, "query").None? ==> res == Err(BadMethodCall(PerformName("query")))
    ensures res.Ok? ==> res.value.repo == r
  {
    Perform(env, r, "query", Q(q), Bool(true), false)
  }

  /** fetchSingle($query): the `query` action with `$many` false. */
  function FetchSingle(env: Env, r: Repo, q: Builder): (res: Result<Step>)
    ensures HandlerOf(r, "query").None? ==> res == Err(BadMethodCall(PerformName("query")))
    ensures res.Ok? ==> res.value.repo == r
  {
    Perform(env, r, "query", Q(q), Bool(false), false)
  }

  /**
   * fetchList($query, $column, $key): the `beforeQuery` hook runs but cannot
   * veto; the list is always fetched.
   */
  function FetchList(env: Env, r: Repo, q: Builder, column: string := "id", key: Value := Null): (s: Step)
    ensures var call := SelectList(q, column, key);
      && s.repo == r && s.out == Val(env.answer(call))
      && s.trace == DoBefore(env, r, "query", Q(q), Bool(true)).trace + [call]
  {
    var b := DoBefore(env, r, "query", Q(q), Bool(true));
    var call := SelectList(q, column, key);
    Step(r, Val(env.answer(call)), b.trace + [call])
  }

  /** The `foreach` of newAttributesQuery: `$query->where($key, $operator, $value)` per attribute. */
  function WhereEach(q: Builder, attrs: Assoc<Value>, operator: string): (r: Builder)
    ensures r.from == q.from && r.joins == q.joins && r.scopes == q.scopes
    ensures |r.wheres| == |q.wheres| + |attrs|
    decreases |attrs|
  {
    if |attrs| == 0 then q else WhereEach(AddBasic(q, And, attrs[0].0, operator, attrs[0].1), attrs[1..], operator)
  }

  /** The loop appends one `where` per attribute, in order, and changes nothing else. */
  lemma {:induction false} WhereEachAppends(q: Builder, attrs: Assoc<Value>, operator: string)
    ensures var r := WhereEach(q, attrs, operator);
      && r.from == q.from && r.joins == q.joins && r.scopes == q.scopes
      && |r.wheres| == |q.wheres| + |attrs| && r.wheres[..|q.wheres|] == q.wheres
      && forall i :: 0 <= i < |attrs| ==> r.wheres[|q.wheres| + i] == Basic(And, attrs[i].0, operator, attrs[i].1)
    decreases |attrs|
  {
    if |attrs| > 0 {
      var q1 := AddBasic(q, And, attrs[0].0, operator, attrs[0].1);
      WhereEachAppends(q1, attrs[1..], operator);
      var r := WhereEach(q, attrs, operator);
      assert r == WhereEach(q1, attrs[1..], operator);
      assert r.wheres[..|q.wheres|] == q.wheres by {
        assert r.wheres[..|q.wheres|] == r.wheres[..|q1.wheres|][..|q.wheres|];
        assert q1.wheres[..|q.wheres|] == q.wheres;
      }
      forall i | 0 <= i < |attrs|
        ensures r.wheres[|q.wheres| + i] == Basic(And, attrs[i].0, operator, attrs[i].1)
      {
        if i == 0 {
          assert r.wheres[|q.wheres|] == r.wheres[..|q1.wheres|][|q.wheres|];
        } else {
          assert attrs[1..][i - 1] == attrs[i];
        }
      }
    }
  }

  /** newAttributesQuery($attributes, $operator = '='). */
  /**
   * newAttributesQuery($attributes, $operator = '='): a fresh query with
   * exactly one `where` per attribute, in the attributes' order, each
   * comparing with `operator`.
   */
  function NewAttributesQuery(r: Repo, attrs: Assoc<Value>, operator: string := "="): (q: Builder)
    ensures q.from == TableOf(r) && q.joins == [] && q.scopes == RepoQuery(r).scopes
    ensures |q.wheres| == |attrs|
    ensures forall i :: 0 <= i < |attrs| ==> q.wheres[i] == Basic(And, attrs[i].0, operator, attrs[i].1)
  {
    WhereEachAppends(RepoQuery(r), attrs, operator);
    WhereEach(RepoQuery(r), attrs, operator)
  }

  /** findByKey($key): the first row whose key column equals `$key`. */
  function FindByKey(env: Env, r: Repo, key: Value): (res: Result<Step>)
    ensures res.Ok? ==> res.value.repo == r
  {
    FetchSingle(env, r, AddBasic(RepoQuery(r), And, KeyName(r), "=", key))
  }

  /** findByAttributes($attributes): the first row matching every attribute. */
  function FindByAttributes(env: Env, r: Repo, attrs: Assoc<Value>): (res: Result<Step>)
    ensures res.Ok? ==> res.value.repo == r
  {
    FetchSingle(env, r, NewAttributesQuery(r, attrs))
  }

  /** getAll(): every row of a fresh query. */
  function GetAll(env: Env, r: Repo): (res: Result<Step>)
    ensures res.Ok? ==> res.value.repo == r
  {
    FetchMany(env, r, RepoQuery(r))
  }

  /** getByAttributes($attributes): every row matching every attribute. */
  function GetByAttributes(env: Env, r: Repo, attrs: Assoc<Value>): (res: Result<Step>)
    ensures res.Ok? ==> res.value.repo == r
  {
    FetchMany(env, r, NewAttributesQuery(r, attrs))
  }

  /** getList($column, $key): the list fetched from a fresh query, always, after the before hook. */
  function GetList(env: Env, r: Repo, column: string := "id", key: Value := Null): (s: Step)
    ensures s.repo == r && |s.trace| > 0
    ensures s.trace[|s.trace| - 1] == SelectList(RepoQuery(r), column, key)
    ensures s.out == Val(env.answer(SelectList(RepoQuery(r), column, key)))
  {
    FetchList(env, r, RepoQuery(r), column, key)
  }
}
