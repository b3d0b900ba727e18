# laravel-repository, modelled in Dafny

A model of the core of `anlutro/laravel-repository`, a PHP repository layer
over Laravel's Eloquent models and query builder:

- **the action pipeline** (`AbstractRepository::perform`): resolve the
  `perform<Action>` handler, validate when asked, run the `before<Action>`
  hook, the handler and the `after<Action>` hook. A falsy verdict from the
  validator, or exactly `false` from the before hook or the handler, ends
  the action. The model also
  covers the public operations built on the pipeline: `create`, `update`,
  `delete`, `findByKey`, `findByAttributes`, `getAll`, `getByAttributes`,
  `getList`, plus the pagination and exception toggles;
- **the handlers** of `EloquentRepository` (`create` runs a nested `save`
  action on the model as it was received, unfilled; `update` fills, then runs
  the nested `save`), of `DatabaseRepository` (whole-row insert, and update
  or delete by key) and the scopes of `SoftDeletingEloquentRepository`;
- **the data mappers** of `EntityRepository`: `PropertyMapper`,
  `GetterSetterMapper` and `ArrayAccessMapper`. The model includes their
  snake_case/camelCase key conversion, and the mapper that is built lazily
  on first use and then reused;
- **the query-clause builders**: `SimpleCriteria`, `SearchCriteria`,
  `MultipleCriteria`, `CallbackCriteria`, `SimpleFilter`, the `join` helper of
  `JoinTrait`, and `QueryJoinStack`.

## How the model is built

- **Query builder.** The builder is a log of the clause calls made on it
  (`Query.Builder`). Nested `where(Closure)` groups become `Nested` clauses.
  SQL is never rendered.
- **The outside world** is an `Env`. Everything outside the repository is
  one of its answers: the validator's verdicts and messages, the hook
  bodies, custom handlers, `save()`, `delete()`, `insert()`, `first()`,
  `get()`, and so on. Every action returns a `Step`: the repository
  afterwards, the result, and the calls it made, in order. The contracts
  talk about that call trace.
- **PHP arrays** are ordered association lists (`Php.Assoc`). `Php.Put` is
  `$a[$k] = $v`: an existing key keeps its place.
- **PHP values.** Truthiness (`Php.Truthy`), `=== false` (`Php.IsFalse`)
  and the casts are written out.
- **Errors.** Exceptions and fatal errors are `Err` values of `Php.Result`.

Modules follow the source files:

| module | file |
|---|---|
| `Php` | PHP values and arrays |
| `KeyCase` | key-name conversion |
| `Mappers` | the three mappers |
| `EntityRepo` | `EntityRepository` |
| `Query` | the builder log |
| `Criteria` | `src/Criteria/*` |
| `Filter` | `SimpleFilter` |
| `Joins` | `JoinTrait`, `QueryJoinStack` |
| `SoftDeleting` | the trashed flags |
| `Repository` | repository state, validation, hooks, toggles |
| `Dispatch` | `perform`, the handlers, the public operations |
| `DispatchLemmas` | properties of the pipeline |

## Model

| member | source | states |
|---|---|---|
| Php.FalseIsFalsy | src/AbstractRepository.php:77-89 | `false` is falsy; null is falsy but is not `false`, so a hook returning null does not veto |
| Php.Get | src/Mappers/PropertyMapper.php:11-15 | an array lookup finds nothing exactly when the key is absent |
| Php.Put | src/Mappers/PropertyMapper.php:13 | `$a[$k] = $v` stores `v` under `k` and leaves every other key unchanged. An existing key keeps its position; a new key is appended last |
| Php.PutKeepsUnique | src/Mappers/PropertyMapper.php:13 | assignment never creates a duplicate key |
| Php.PutAllGet | src/Mappers/ArrayAccessMapper.php:15-17 | assigning entries one by one leaves each key with its last assigned value; other keys are untouched |
| Php.PutAllKeepsUnique | src/Mappers/ArrayAccessMapper.php:15-17 | a loop of assignments keeps keys unique |
| Php.PutAllIntoEmpty | src/Mappers/ArrayAccessMapper.php:15-17 | copying a duplicate-free array into an empty one reproduces it, order included |
| Php.PutAllAppend | src/Mappers/PropertyMapper.php:20-23 | assigning keys that are all new appends them in order |
| Php.Lower | src/Mappers/PropertyMapper.php:12 | `strtolower` lower-cases each character and nothing else |
| Php.Ucfirst | src/AbstractRepository.php:72 | `ucfirst` upper-cases the first character only |
| Php.Lcfirst | src/Mappers/PropertyMapper.php:21 | `lcfirst` lower-cases the first character only |
| Php.SkipSpace | src/AbstractRepository.php:207 | the numeric-string reading drops exactly the leading run of blank, tab, LF, CR, VT and FF characters |
| Php.LeadingSpaceIgnored | src/AbstractRepository.php:207 | `(int)` of a string is unchanged by leading whitespace, so `paginate(" 15")` pages by 15 |
| KeyCase.UcWords | src/Mappers/PropertyMapper.php:21 | `ucwords` capitalises the first character and each character after a blank, tab, CR, LF, FF or VT |
| KeyCase.Without | src/Mappers/PropertyMapper.php:21 | removing blanks leaves none and never lengthens the string |
| KeyCase.WithoutKeepsOthers | src/Mappers/PropertyMapper.php:21 | `str_replace(' ', '', ...)` removes exactly the blanks: the length drops by their count, and every other character keeps its count |
| KeyCase.WithoutConcat | src/Mappers/PropertyMapper.php:21 | removing blanks from a concatenation removes them from each part, so the remaining characters keep their order |
| KeyCase.DashesToSpaces | src/Mappers/PropertyMapper.php:21 | every `-` and `_` becomes a blank and every other character is kept in place |
| KeyCase.Studly | src/Mappers/PropertyMapper.php:21 | `studly_case` never lengthens the key and leaves no blank. For a key without dashes or blanks it capitalises the first letter and each letter after an underscore, dropping the underscores |
| KeyCase.Camel | src/Mappers/PropertyMapper.php:21 | `camel_case` is `studly_case` with the first character not upper case and the rest identical |
| KeyCase.SplitHumps | src/Mappers/PropertyMapper.php:12 | the `(.)([A-Z])` rewrite never shortens the name and keeps its first character |
| KeyCase.SplitHumpsOnlyInsertsUnderscores | src/Mappers/PropertyMapper.php:12 | the `(.)([A-Z])` rewrite only inserts underscores: with all underscores removed, input and output agree |
| KeyCase.Snake | src/Mappers/PropertyMapper.php:12 | a mapped key never has an uppercase letter, and a name with no uppercase letter is kept as is |
| KeyCase.SnakeIsRewriteThenLower | src/Mappers/PropertyMapper.php:12 | the `ctype_lower` shortcut agrees with rewrite-then-lowercase on every name |
| KeyCase.CamelIsHumps | src/Mappers/PropertyMapper.php:21 | the camelCase property name equals a direct reading of the key: capital after each underscore, no underscores |
| KeyCase.RoundTrip | src/Mappers/PropertyMapper.php:12-21 | a snake key converted to a property name by `fill` and back by `map` is the key itself |
| KeyCase.RoundTripExactly | src/Mappers/PropertyMapper.php:12-21 | over lowercase letters and underscores, a key survives fill-then-map if and only if it is a snake key |
| KeyCase.SnakeOfLettersIsSnakeKey | src/Mappers/PropertyMapper.php:12 | `map` turns every letters-only name into a well separated snake key |
| KeyCase.CamelTwoWords | src/Mappers/PropertyMapper.php:21 | `foo_bar` becomes `fooBar` for `fill`, and `FooBar` in a setter name |
| KeyCase.SnakeFooBar | src/Mappers/GetterSetterMapper.php:14 | `fooBar` maps to `foo_bar` |
| KeyCase.SnakeABC | src/Mappers/GetterSetterMapper.php:14 | `aBC` maps to `a_bc`: matches do not overlap |
| KeyCase.OneLetterWordMerges | src/Mappers/PropertyMapper.php:12-21 | `x_y_z` does not survive the round trip: it comes back as `x_yz` |
| KeyCase.DigitWordMerges | src/Mappers/PropertyMapper.php:12-21 | an underscore before a digit-led word is lost in the round trip |
| Mappers.PublicVarsMembers | src/Mappers/PropertyMapper.php:11 | `get_object_vars` from outside yields exactly the public fields, each paired with its value, and nothing else |
| Mappers.SetProperty | src/Mappers/PropertyMapper.php:22 | writing a protected property fails, and that is its only failure. Otherwise the property takes the value and no other field changes |
| Mappers.PropertyMapKeys | src/Mappers/PropertyMapper.php:8-16 | the keys `map` returns are exactly the snake forms of the public field names, all without capitals |
| Mappers.PropertyMapKeepsLowercaseNames | src/Mappers/PropertyMapper.php:12 | an all-lowercase public field is mapped under its own name |
| Mappers.PropertyMap | src/Mappers/PropertyMapper.php:8-16 | the array `map` returns has no duplicate key |
| Mappers.PropertyFill | src/Mappers/PropertyMapper.php:18-24 | a successful `fill` keeps the class, its methods and its array items |
| Mappers.PropertyFillAssigns | src/Mappers/PropertyMapper.php:18-24 | when no key names a protected property, `fill` assigns every attribute, in order, to its camelCase property |
| Mappers.PropertyFillRefuses | src/Mappers/PropertyMapper.php:18-24 | otherwise `fill` fails at the first key whose property is protected |
| Mappers.SetPropertyKeepsProtection | src/Mappers/PropertyMapper.php:22 | an allowed write never changes which properties are protected |
| Mappers.PropertyFillLaterWins | src/Mappers/PropertyMapper.php:20-23 | two keys with the same property name (`foo_bar`, `foo-bar`): the later value stays |
| Mappers.CamelInjective | src/Mappers/PropertyMapper.php:21 | distinct snake keys give distinct property names |
| Mappers.PropertyRoundTrip | src/Mappers/PropertyMapper.php:8-24 | fill-then-map on an object without public fields returns exactly the attributes, order included, for distinct snake keys that name no protected field |
| Mappers.GetterKey | src/Mappers/GetterSetterMapper.php:12-14 | a getter's array key has no uppercase letter |
| Mappers.FindMethod | src/Mappers/GetterSetterMapper.php:24 | method lookup fails exactly when no method matches the name, ignoring ASCII case |
| Mappers.CallGetter | src/Mappers/GetterSetterMapper.php:15 | calling a `get` method with no argument fails exactly when it needs one |
| Mappers.GetterSetterMapReadsGetters | src/Mappers/GetterSetterMapper.php:8-18 | `map` fails if and only if some `get` method needs an argument. Otherwise it stores every getter's result under its key, in method order, and skips the other methods |
| Mappers.GetterSetterMapKeysLower | src/Mappers/GetterSetterMapper.php:14 | every key `map` returns is free of capitals |
| Mappers.GetterSetterMap | src/Mappers/GetterSetterMapper.php:8-18 | `map` fails if and only if some `get` method needs an argument; its keys are unique |
| Mappers.GetterSetterMapFinds | src/Mappers/GetterSetterMapper.php:11-16 | the value `map` gives a key is the result of the last getter with that key, and there is none without such a getter |
| Mappers.GetterSetterMapAfterFill | src/Mappers/GetterSetterMapper.php:8-26 | after a successful `fill`, `map` still succeeds. A key whose last getter reads a field returns the field as `fill` left it, the last value written there or the old value; any other key maps as before |
| Mappers.CallSetter | src/Mappers/GetterSetterMapper.php:24 | calling a missing setter is a fatal error naming it; a found one keeps the class and the methods |
| Mappers.GetterSetterFill | src/Mappers/GetterSetterMapper.php:20-26 | `fill` fails if and only if some attribute has no setter, and never changes the class, its methods or its items. Afterwards each field a found setter writes holds the last value written to it, and every other field is as before |
| Mappers.GetterKeyOfSetter | src/Mappers/GetterSetterMapper.php:14-23 | the getter named after a key's setter maps back to that key |
| Mappers.GetterSetterStubRoundTrip | src/Mappers/GetterSetterMapper.php:8-26 | an entity with a getter and a setter over a protected field takes the value through the setter and maps back to exactly `[k => x]` |
| Mappers.PropertyStubRoundTrip | src/Mappers/PropertyMapper.php:8-24 | the same entity under the property mapper maps back to exactly its public property |
| Mappers.ArrayAccessFill | src/Mappers/ArrayAccessMapper.php:13-18 | an object that is not array-accessible fails on the first attribute, with nothing to assign it succeeds unchanged. Otherwise each item ends with its last assigned value, the rest stay; fields, methods and class are unchanged |
| Mappers.ArrayAccessMap | src/Mappers/ArrayAccessMapper.php:8-11 | `iterator_to_array` returns the items exactly, and fails exactly on an object that is not traversable |
| Mappers.ArrayAccessRoundTrip | src/Mappers/ArrayAccessMapper.php:8-18 | fill on an empty entity, then map, returns exactly the attributes, order included |
| Mappers.Fill | src/EntityRepository.php:30-33 | no mapper changes the entity's class or methods |
| Mappers.Map | src/EntityRepository.php:25-28 | the property mapper never fails, the array-access one fails exactly on an object that is not traversable, and the other two return unique keys free of capitals |
| EntityRepo.Instantiate | src/EntityRepository.php:20 | `new $entityClass` keeps the class's name, fields and methods; the object has items exactly when the class is array-accessible, and they start empty |
| EntityRepo.GetDataMapper | src/EntityRepository.php:35-42 | a cached mapper is returned as is. Otherwise a new one of `$dataMapperClass` is built once and cached, or the class is not found |
| EntityRepo.CachedMapperIsKept | src/EntityRepository.php:37-41 | once cached, any number of calls return the same mapper and build nothing |
| EntityRepo.MapperBuiltOnce | src/EntityRepository.php:35-42 | on a fresh repository, n calls build exactly one mapper and all return it |
| EntityRepo.FillEntityAttributes | src/EntityRepository.php:30-33 | filling goes through the (possibly new) mapper's `fill` |
| EntityRepo.GetEntityAttributes | src/EntityRepository.php:25-28 | mapping goes through the (possibly new) mapper's `map` |
| EntityRepo.GetNew | src/EntityRepository.php:18-23 | an unknown entity class fails. Otherwise the result is a new `$entityClass` object filled through the mapper |
| EntityRepo.GetNewRoundTripArrayAccess | src/EntityRepository.php:18-28 | with the array-access mapper, a new entity maps back to exactly its attributes |
| EntityRepo.GetNewRoundTripProperty | src/EntityRepository.php:18-28 | with the property mapper, a new entity maps back to exactly its snake-key attributes |
| EntityRepo.GetNewSharesMapper | src/EntityRepository.php:35-42 | two entities made in a row share the one mapper built by the first |
| Query.BasicCalls | src/Criteria/SimpleCriteria.php:91-93 | one clause per recorded comparison, at the same position, with its column, operator and value |
| Query.InCalls | src/Criteria/SimpleCriteria.php:91-93 | one clause per recorded membership, at the same position, with its column and value list |
| Query.ReplayBasicAppends | src/Criteria/SimpleCriteria.php:91-93 | calling `where` (or `orWhere`) once per recorded comparison appends exactly those clauses after the query's own, in recording order |
| Query.ReplayInAppends | src/Criteria/SimpleCriteria.php:91-93 | calling `whereIn` (or `orWhereIn`) once per recorded membership appends exactly those clauses, in recording order |
| Query.ExtendsTransitive | src/Criteria/MultipleCriteria.php:62-65 | clauses added after clauses added still leave the original ones first |
| Criteria.SimpleGroupLayout | src/Criteria/SimpleCriteria.php:87-96 | the group holds all wheres, then orWheres, whereIns and orWhereIns, each in recording order |
| Criteria.SimpleGroupIsReplay | src/Criteria/SimpleCriteria.php:88-96 | the group is what the closure builds by calling `where`, `orWhere`, `whereIn` and `orWhereIn` once per record, in that order, on the fresh inner query |
| Criteria.Where | src/Criteria/SimpleCriteria.php:43-46 | `where` appends its comparison to the wheres, operator defaulting to `=`, and leaves the other three lists alone |
| Criteria.OrWhere | src/Criteria/SimpleCriteria.php:55-58 | `orWhere` appends its comparison to the orWheres and leaves the other three lists alone |
| Criteria.WhereIn | src/Criteria/SimpleCriteria.php:66-69 | `whereIn` appends its membership, even an empty one, and leaves the other lists alone |
| Criteria.OrWhereIn | src/Criteria/SimpleCriteria.php:77-80 | `orWhereIn` appends its membership, even an empty one, and leaves the other lists alone |
| Criteria.WhereLandsAfterEarlierWheres | src/Criteria/SimpleCriteria.php:43-46 | a new `where` lands after the earlier wheres and before every other kind |
| Criteria.OrWhereLandsAfterWheres | src/Criteria/SimpleCriteria.php:55-58 | a new `orWhere` lands after all wheres and earlier orWheres |
| Criteria.WhereInLandsBeforeOrWhereIns | src/Criteria/SimpleCriteria.php:66-69 | a new `whereIn`, even an empty one, lands before every orWhereIn |
| Criteria.OrWhereInLandsLast | src/Criteria/SimpleCriteria.php:77-80 | a new `orWhereIn`, even an empty one, is last |
| Criteria.SimpleApply | src/Criteria/SimpleCriteria.php:87-96 | `apply` adds one 'and' group holding the recorded clauses; with nothing recorded, an empty group |
| Criteria.NewSearch | src/Criteria/SearchCriteria.php:41-51 | the constructor accepts the logic exactly when it is the int 1 or 2; otherwise it throws InvalidArgument |
| Criteria.Pattern | src/Criteria/SearchCriteria.php:63 | the LIKE pattern is the search text wrapped in `%`, with every blank turned into `%` |
| Criteria.SearchApply | src/Criteria/SearchCriteria.php:58-68 | one 'and' group with one `like` clause per column, in column order, same pattern. The clauses are joined by 'and' exactly when the logic is LOGIC_AND |
| Criteria.PushAsWrittenAlwaysThrows | src/Criteria/MultipleCriteria.php:43-53 | as written, every push throws `Unknown condition.` |
| Criteria.PushAsWritten | src/Criteria/MultipleCriteria.php:43-53 | as written, a push could only succeed for a condition equal to both LOGIC_AND and LOGIC_OR; every failure is `Unknown condition.` |
| Criteria.Push | src/Criteria/MultipleCriteria.php:43-53 | corrected: push succeeds exactly for LOGIC_AND and LOGIC_OR and appends exactly the pair (criteria, condition) after the stored ones; otherwise it throws `Unknown condition.` |
| Criteria.Apply | src/Criteria/MultipleCriteria.php:60-66 | applying any criteria only adds where clauses after the existing ones; table, joins and scopes stay |
| Criteria.AddsOneGroup | src/Criteria/CallbackCriteria.php:37-42 | callback criteria, and likewise simple and search criteria (each `apply` opens one `where(Closure)`), each add exactly one nested 'and' group |
| Criteria.MultipleApply | src/Criteria/MultipleCriteria.php:60-106 | one group per stored pair, in push order. Each group is 'and' for LOGIC_AND and 'or' otherwise, and holds what the child adds to a fresh query. Nothing stored, nothing added |
| Criteria.PushThenApply | src/Criteria/MultipleCriteria.php:43-106 | pushing a criteria and then applying adds, after everything the earlier entries add, one group: 'and' for LOGIC_AND, 'or' otherwise, holding what the pushed criteria adds to a fresh query |
| Criteria.CallbackApply | src/Criteria/CallbackCriteria.php:37-42 | the callback runs once on a fresh inner query, and its clauses become one group |
| Criteria.TwoCallbacksNestTwice | src/Criteria/MultipleCriteria.php:43-106 | two callbacks pushed with the default condition give two 'and' groups in push order, each wrapping the callback's own group |
| Filter.FilterWhereIn | src/SimpleFilter.php:21-25 | an empty value list is not recorded; any other list is appended; the other lists are untouched |
| Filter.FilterOrWhereIn | src/SimpleFilter.php:27-31 | an empty value list is not recorded; any other list is appended; the other lists are untouched |
| Filter.ApplyGroupsAddsNonEmpty | src/SimpleFilter.php:40-50 | applying groups one by one adds one 'and' group per non-empty group, in order; empty groups add nothing |
| Filter.FilterApplyAddsNonEmptyGroups | src/SimpleFilter.php:33-50 | one group per non-empty list, in the order where, orWhere, whereIn, orWhereIn, each in recording order; nothing else changes |
| Filter.EmptyFilterAddsNothing | src/SimpleFilter.php:43 | a filter with nothing recorded leaves the query unchanged |
| Filter.FilterWhere | src/SimpleFilter.php:11-14 | `filterWhere` appends its comparison, operator defaulting to `=`, and leaves the other three lists alone |
| Filter.FilterOrWhere | src/SimpleFilter.php:16-19 | `filterOrWhere` appends its comparison and leaves the other three lists alone |
| Filter.ApplyGroups | src/SimpleFilter.php:35-37 | applying groups only adds where clauses after the query's own, at most one per group |
| Filter.FilterApply | src/SimpleFilter.php:33-38 | `apply` only adds where clauses after the query's own, at most four |
| Filter.SingleWhereFilter | src/SimpleFilter.php:11-50 | one recorded `filterWhere` adds exactly one group holding exactly that `=` comparison |
| Joins.HasJoinIn | src/Criteria/JoinTrait.php:58-69 | `hasJoin` holds exactly when some join is on the table |
| Joins.JoinVia | src/Criteria/JoinTrait.php:30-51 | an already joined table leaves the query as it is. Otherwise a closure is joined as is, an array is joined with its elements 0 to 4 as one, operator, two, type and where (null where missing), and anything else throws `Unknown join conditions.` The wheres, table and scopes never change |
| Joins.JoinIsIdempotent | src/Criteria/JoinTrait.php:32-35 | joining an already joined table changes nothing, whatever the conditions |
| Joins.JoinAddsExactlyOne | src/Criteria/JoinTrait.php:37-46 | joining a new table leaves exactly one join on it, appended last |
| Joins.ArrayConditionsUnpack | src/Criteria/JoinTrait.php:43-45 | a three-element array is unpacked into column, operator and column, with null type and null where |
| Joins.StackPush | src/QueryJoinStack.php:41-48 | push stores the join under its class name. A known class is replaced in place, a new class goes last, and other classes stay |
| Joins.PushSameClassReplaces | src/QueryJoinStack.php:43-45 | a second push of the same class keeps only the second, count unchanged |
| Joins.PushesKeepOnePerClass | src/QueryJoinStack.php:43-45 | however many pushes, at most one join per class |
| Joins.StackApplyAsWrittenNeverJoins | src/QueryJoinStack.php:53-59 | as written, `apply` fails exactly when some stored join adds a join, and then with a call on null |
| Joins.StackApplyAsWritten | src/QueryJoinStack.php:53-59 | as written, every failure of `apply` is a call on null, and an empty stack never fails |
| Joins.StackApplyAsWrittenFails | src/QueryJoinStack.php:27-59 | a stack holding one real join fails on `apply` |
| Joins.ApplyEachAddsInOrder | src/QueryJoinStack.php:55-58 | corrected: each stored join runs once, in key order, on the stored query, appending its joins |
| Joins.ApplyEach | src/QueryJoinStack.php:55-58 | handing the query to each join keeps its table, wheres and scopes, and keeps its own joins first, followed by as many joins as the stored ones add |
| Joins.StackApply | src/QueryJoinStack.php:53-59 | corrected `apply` keeps the stored query's table, wheres, scopes and own joins first |
| Joins.StackApplyAddsInOrder | src/QueryJoinStack.php:53-59 | corrected `apply` adds all stored joins' joins after the query's own, nothing else |
| SoftDeleting.OnlyTrashed | src/SoftDeletingEloquentRepository.php:38-42 | sets `onlyTrashed` and clears `withTrashed` |
| SoftDeleting.WithTrashed | src/SoftDeletingEloquentRepository.php:47-51 | sets `withTrashed` and clears `onlyTrashed` |
| SoftDeleting.Call | src/SoftDeletingEloquentRepository.php:38-51 | a setter call leaves exactly its own flag set |
| SoftDeleting.Run | src/SoftDeletingEloquentRepository.php:38-51 | no calls keep the flags; after at least one call some flag is set |
| SoftDeleting.NeverBothSet | src/SoftDeletingEloquentRepository.php:20-51 | after any sequence of setter calls, the two flags are never both set |
| SoftDeleting.LastCallWins | src/SoftDeletingEloquentRepository.php:38-51 | the flags after a sequence of calls depend only on the last call |
| SoftDeleting.SettersIdempotent | src/SoftDeletingEloquentRepository.php:38-51 | calling a setter twice is calling it once |
| SoftDeleting.ScopeQuery | src/SoftDeletingEloquentRepository.php:58-71 | `newQuery` keeps the parent query and adds the `onlyTrashed` scope if and only if that flag is set, and likewise for `withTrashed` |
| SoftDeleting.AtMostOneScope | src/SoftDeletingEloquentRepository.php:58-71 | with consistent flags, at most one scope is added |
| Repository.Replace | src/EloquentRepository.php:43-45 | `replace` binds the key and keeps the validator's exception setting |
| Repository.OnlyErrorsGrowTransitive | src/AbstractRepository.php:127-129 | growing only the error bag is preserved over successive steps |
| Repository.NewEloquent | src/EloquentRepository.php:37-46 | empty error bag, both toggles off, and the model's table bound into the validator when there is one |
| Repository.NewDatabase | src/DatabaseRepository.php:46-60 | as written, passing any validator is a TypeError. Without one, a null `$table` throws the RuntimeException naming the class; otherwise an empty error bag, both toggles off, and the key column is the table, a dot, then `$primaryKey` (`id` unless the class overrides it) |
| Repository.NewDatabaseCorrected | src/DatabaseRepository.php:46-60 | with the validator type resolved: a null `$table` throws as above; otherwise the validator, when given, has the table bound |
| Repository.DatabaseRefusesValidator | src/DatabaseRepository.php:46 | the same arguments with a validator fail as written and succeed, with the table bound into the validator, once corrected |
| Repository.SetTable | src/DatabaseRepository.php:95-98 | `setTable` stores `(string) $table` and fails exactly when the cast fails |
| Repository.SetTableGetTable | src/DatabaseRepository.php:85-98 | setting a string table and reading it back gives that string |
| Repository.KeyName | src/DatabaseRepository.php:103-106 | the key column is the table, a dot, then the key name |
| Repository.RepoQuery | src/DatabaseRepository.php:166-169 | a new query is on the repository's table, with no clauses and no joins, and with no scopes outside the soft-deleting class |
| Repository.EntityKey | src/DatabaseRepository.php:174-177 | an entity's key is its attribute under the key column, or null when it has none |
| Repository.RepoOnlyTrashed | src/SoftDeletingEloquentRepository.php:38-42 | `onlyTrashed()` changes only the trashed flags, to the state OnlyTrashed leaves |
| Repository.RepoWithTrashed | src/SoftDeletingEloquentRepository.php:47-51 | `withTrashed()` changes only the trashed flags, to the state WithTrashed leaves |
| Repository.WithFillingCreate | src/EloquentRepository.php:103-106 | the same Eloquent repository with the corrected `create`; every other field is kept |
| Repository.OnlyTrashedScopesQueries | src/SoftDeletingEloquentRepository.php:38-71 | after `onlyTrashed()`, every new query carries exactly the `onlyTrashed` scope |
| Repository.WithTrashedScopesQueries | src/SoftDeletingEloquentRepository.php:47-71 | after `withTrashed()`, every new query carries exactly the `withTrashed` scope |
| Repository.Paginate | src/AbstractRepository.php:205-209 | pagination is off exactly for `false`; otherwise it is `(int) $toggle`; nothing else changes |
| Repository.ToggleExceptions | src/AbstractRepository.php:220-229 | the repository flag becomes `(bool) $toggle`; the validator's too, when there is one and it is asked to |
| Repository.Valid | src/AbstractRepository.php:118-132 | true without a validator. Otherwise the `valid<Action>` answer is returned, and only an exact `false` appends the messages; only the error bag can grow |
| Repository.FalsyVerdictAddsNoMessages | src/AbstractRepository.php:127-131 | a falsy answer other than `false` fails the action but adds no messages |
| Repository.FailedValidationsAccumulate | src/AbstractRepository.php:127-129 | messages of successive failures pile up in order |
| Repository.DoBeforeOrAfter | src/AbstractRepository.php:101-108 | the hook runs exactly when the class declares it. The result is `false` exactly when the hook returned exactly `false`, and null otherwise |
| Repository.DoBefore | src/AbstractRepository.php:238-241 | no `before<Action>` method means no call and a null result; otherwise one hook call on the subject and attributes, whose exact `false` vetoes |
| Repository.DoAfter | src/AbstractRepository.php:250-253 | the same for `after<Action>`, called on the result |
| Dispatch.HandlerOf | src/AbstractRepository.php:72-75 | the class's own `perform<Action>` wins; otherwise an inherited one; otherwise none |
| Dispatch.BuiltinHandler | src/EloquentRepository.php:103-132 | Eloquent classes inherit `performQuery`, `performCreate`, `performUpdate`, `performSave` and `performDelete` and no other; database classes the same without `performSave`; neither gets the other's handlers |
| Dispatch.Perform | src/AbstractRepository.php:70-90 | a missing handler throws BadMethodCall. Only validation can change the repository, and then only its error bag |
| Dispatch.RunHandler | src/AbstractRepository.php:84 | running a handler never changes the repository; the Eloquent create handler runs as written unless the corrected one is selected |
| Dispatch.ManyCall | src/AbstractRepository.php:154-155 | `get()` when pagination is off, else `paginate($n)` |
| Dispatch.PerformQuery | src/AbstractRepository.php:142-156 | `$many === false` means one `first()`: a falsy row is NotFound exactly when exceptions are on, and is returned otherwise. Any other `$many` means one `get()` or `paginate()`, answer returned |
| Dispatch.FillModel | src/EloquentRepository.php:113 | every attribute ends with its last given value, the rest are kept, and `exists` is unchanged |
| Dispatch.FillThenSave | src/EloquentRepository.php:111-115 | fill the model, then the nested unvalidated `save` action on the filled model |
| Dispatch.ModelCreateAsWritten | src/EloquentRepository.php:103-106 | as written: the nested `save` action on the model as received |
| Dispatch.SaveCall | src/EloquentRepository.php:122 | `push()` when the push flag is set, else `save()` |
| Dispatch.PerformSave | src/EloquentRepository.php:120-124 | one save call; the model when it is truthy, `false` otherwise |
| Dispatch.PerformModelDelete | src/EloquentRepository.php:129-132 | one `delete()`, its answer returned |
| Dispatch.KeyQuery | src/DatabaseRepository.php:144-145 | a new query restricted to key column = the entity's key |
| Dispatch.PerformRowCreate | src/DatabaseRepository.php:123-133 | overlay the attributes and insert the whole row; the entity when the insert is truthy, else `false` |
| Dispatch.Overlay | src/DatabaseRepository.php:125-127 | each assigned attribute ends with its last given value, the rest are kept, and whether the row exists is unchanged |
| Dispatch.PerformRowUpdate | src/DatabaseRepository.php:138-149 | overlay the attributes, then one update of the whole row restricted by the overlaid key; its answer returned |
| Dispatch.PerformRowDelete | src/DatabaseRepository.php:154-161 | one delete restricted by the entity's key; its answer returned |
| Dispatch.BindKey | src/AbstractRepository.php:277-279 | with a validator, the entity's key is bound as `key`; without one, nothing changes |
| Dispatch.Update | src/EloquentRepository.php:89-96 | a non-existent Eloquent model is refused before anything else; otherwise the parent `update` runs and its result is always a bool |
| Dispatch.FetchList | src/AbstractRepository.php:329-333 | the before-query hook runs, then `lists()`, whose answer is returned whatever the hook said |
| Dispatch.WhereEachAppends | src/AbstractRepository.php:432-434 | the loop appends one `where` per attribute, in order, and changes nothing else |
| Dispatch.WhereEach | src/AbstractRepository.php:433-435 | the loop keeps table, joins and scopes and adds one clause per attribute |
| Dispatch.Create | src/AbstractRepository.php:262-265 | without a create handler, `create` throws BadMethodCall; otherwise it can only grow the error bag |
| Dispatch.Delete | src/AbstractRepository.php:291-294 | without a delete handler, `delete` throws BadMethodCall; otherwise the repository is unchanged |
| Dispatch.FetchMany | src/AbstractRepository.php:303-306 | without a query handler, throws BadMethodCall; otherwise the repository is unchanged |
| Dispatch.FetchSingle | src/AbstractRepository.php:315-318 | without a query handler, throws BadMethodCall; otherwise the repository is unchanged |
| Dispatch.FindByKey | src/AbstractRepository.php:342-347 | a lookup by key never changes the repository |
| Dispatch.FindByAttributes | src/AbstractRepository.php:356-359 | a lookup by attributes never changes the repository |
| Dispatch.GetAll | src/AbstractRepository.php:366-370 | listing everything never changes the repository |
| Dispatch.GetByAttributes | src/AbstractRepository.php:387-390 | a listing by attributes never changes the repository |
| Dispatch.GetList | src/AbstractRepository.php:402-405 | `getList` never changes the repository, ends with one `lists()` call on a new query, and returns its answer |
| Dispatch.NewAttributesQuery | src/AbstractRepository.php:429-438 | the attributes query is a new query with exactly one `where key operator value` per attribute, in order |
| DispatchLemmas.ValidationFailureStops | src/AbstractRepository.php:77-79 | a failed validation returns `false`; the validator is the only call, so no hook or handler runs |
| DispatchLemmas.BeforeHookVetoes | src/AbstractRepository.php:81-82 | a before hook returning exactly `false` ends the action with `false` before the handler |
| DispatchLemmas.HandlerRunsUnlessVetoed | src/AbstractRepository.php:81-89 | otherwise the handler runs. An exact `false` result skips the after hook. Any other result is returned unchanged after the after hook has run once on it, whatever that hook returns |
| DispatchLemmas.ErrorsAccumulate | src/AbstractRepository.php:127-129 | over two creates, every earlier message is kept, in order |
| DispatchLemmas.QuietPerform | src/AbstractRepository.php:70-90 | with no validator and no hooks, an action is exactly its handler |
| DispatchLemmas.ValidatedPerform | src/AbstractRepository.php:70-90 | with a passing validator and no hooks, an action is the validator call followed by its handler |
| DispatchLemmas.ValidPasses | src/AbstractRepository.php:118-132 | a truthy verdict leaves the repository as it was |
| DispatchLemmas.PlainEloquentHandlers | src/EloquentRepository.php:103-132 | an Eloquent class without its own handlers uses the four inherited ones |
| DispatchLemmas.PlainSave | src/EloquentRepository.php:120-124 | the nested `save` is one `save()`: the model back when truthy, `false` otherwise |
| DispatchLemmas.CreateSavesFilledModel | src/AbstractRepository.php:262-265 | corrected `create` saves a new model filled with the attributes and returns it when the save is truthy |
| DispatchLemmas.FillBlankModel | src/EloquentRepository.php:81-84 | a blank model filled with distinct keys holds exactly those attributes |
| DispatchLemmas.CreateAsWrittenSavesBlankModel | src/EloquentRepository.php:103-106 | as written, `create` saves the blank model, whatever the attributes |
| DispatchLemmas.CreateAsWrittenLosesAttributes | src/EloquentRepository.php:103-106 | as written and corrected differ on every non-empty attribute list |
| DispatchLemmas.NestedSaveVetoFailsCreate | src/EloquentRepository.php:103-106 | a `beforeSave` veto fails the whole `create`: nothing is saved |
| DispatchLemmas.UpdateFillsThenSaves | src/AbstractRepository.php:275-282 | `update` binds the key, validates the attributes, saves the filled model, and returns the save's truthiness |
| DispatchLemmas.EloquentDeleteReturnsAnswer | src/AbstractRepository.php:291-294 | `delete` on a plain Eloquent repository is one `delete()`, its answer returned as is |
| DispatchLemmas.PlainDatabaseHandlers | src/DatabaseRepository.php:123-161 | a database class uses the inherited create, update and delete handlers and has no `save` handler |
| DispatchLemmas.DatabaseCreateInserts | src/DatabaseRepository.php:123-133 | `create` inserts exactly the attributes and returns the new row when the insert is truthy, else `false` |
| DispatchLemmas.DatabaseUpdateWritesRow | src/DatabaseRepository.php:138-149 | `update` writes the whole overlaid row where key = the overlaid key; the result is the update's truthiness |
| DispatchLemmas.DatabaseUpdateExample | src/DatabaseRepository.php:138-149 | the row with key 1 updated with one column: restricted to `table.id = 1`, writing both columns |
| DispatchLemmas.DatabaseDeleteByKey | src/DatabaseRepository.php:154-161 | `delete` deletes where key = the entity's key and returns the answer |
| DispatchLemmas.QueryHandler | src/AbstractRepository.php:142-156 | without its own handler, the query action runs `performQuery` |
| DispatchLemmas.PlainQuery | src/AbstractRepository.php:303-318 | on a plain repository, the query action is `performQuery` alone |
| DispatchLemmas.FindByKeyNotFound | src/AbstractRepository.php:342-347 | `findByKey` is one `first()` where key = the key; a falsy row is NotFound exactly when exceptions are on |
| DispatchLemmas.ToggledFind | src/AbstractRepository.php:220-229 | after `toggleExceptions(true)` a missing row throws; after `toggleExceptions(false)` it is returned |
| DispatchLemmas.FindByAttributesFirst | src/AbstractRepository.php:356-359 | `findByAttributes` is one `first()` on the attributes query, NotFound only when exceptions are on |
| DispatchLemmas.GetAllPages | src/AbstractRepository.php:366-370 | after `paginate(false)`, `getAll` makes one `get()`; otherwise one `paginate((int) toggle)` |
| DispatchLemmas.GetByAttributesMany | src/AbstractRepository.php:387-390 | `getByAttributes` is one `get()` or `paginate()` on the attributes query |
| DispatchLemmas.ListIgnoresVeto | src/AbstractRepository.php:329-333 | `fetchList` fetches the list even when `beforeQuery` returns `false` |

## Left out

- Rendering SQL, and the query builder's terminal methods: `first`, `get`, `paginate`, `lists`, `insert`, `update` and `delete` are calls whose answers come from the `Env`.
- Validator internals: the rules, and its own exceptions when toggled on. The validator is the `Env` answer to a `valid<Action>` call.
- The error bag: `MessageBag::merge` groups messages by field. The model appends the messages in order.
- `transaction`, `getConnection`, `setConnection`, `getModel`, `setModel`, `restore`: they hand work to Laravel and contain no logic.
- `setValidator`, `getValidator`, `getErrors`, `resetErrors`: plain accessors. The model reads the fields directly.
- `getByKey`: an alias of `findByKey`.
- The interfaces (`CriteriaInterface`, `FilterInterface`, `DataMapperInterface`, `JoinInterface`) and the `src/SimpleCriteria.php` alias: declarations only.
- The `examples/` directory and the integration tests.
- Side effects of hooks and custom handlers on the repository: the model assumes they do not change its fields. Identical calls get identical answers from the `Env`.
- Changes that happen before an exception: the model returns `Err` and drops the partly updated state.
- Eloquent's `fillable`/`guarded` rules: `FillModel` sets every attribute.
- JoinTrait: of the values `is_callable` accepts, only closures are modelled.
- User-defined data mappers: only the three shipped mappers are modelled.
- Dispatch.HandlerOf: method names the class declares are compared exactly. PHP's `method_exists` ignores case, so PHP finds a method declared as `PerformCreate` and the model does not. The mappers' method lookup (`Mappers.FindMethod`) does ignore ASCII case.
- Multibyte and locale-dependent case conversion: strings are ASCII.
- MultipleCriteria: the condition is modelled as an `int`, and other PHP types are not modelled. `push` returning `$this` for chaining is not modelled.
- The unreachable `return $result;` lines after `return` in src/DatabaseRepository.php:148 and :160.
- Dispatch.Update: the result is stated to be a bool; what it is in each case is stated by DispatchLemmas.UpdateFillsThenSaves and DispatchLemmas.DatabaseUpdateWritesRow for plain repositories.
- Mappers.PublicVarsMembers: states which (name, value) pairs `get_object_vars` yields, not their order. The order (declaration order) shows up only in the order of `map`'s keys, which Mappers.PropertyRoundTrip states for its case.
- Repository.Paginate: `(int)` of a string reads leading whitespace, a sign and leading decimal digits. Exponent notation (`"1e3"`, read as 1000 by PHP 7.1 and later) and saturation at the 64-bit integer bounds are not modelled.
- Dispatch.Perform: its own contract states only the error case and what may change. The stage-by-stage behaviour is stated by the DispatchLemmas lemmas ValidationFailureStops, BeforeHookVetoes and HandlerRunsUnlessVetoed.

## Findings

| source | as written | input that shows it | evidently intended | confidence | as-written member | corrected member |
|---|---|---|---|---|---|---|
| src/Criteria/MultipleCriteria.php:45-48 | the guard asks whether the condition differs from LOGIC_AND or differs from LOGIC_OR, which every int condition satisfies (a bool `true` equals both under loose `!=`), so `push` always throws; tests/unit/MultipleCriteriaTest.php:29-43 pushes with the default condition and expects the push to work | `push($c)` with the default LOGIC_AND | throw only when the condition is neither LOGIC_AND nor LOGIC_OR | not executed | Criteria.PushAsWritten, Criteria.PushAsWrittenAlwaysThrows | Criteria.Push, Criteria.TwoCallbacksNestTwice |
| src/QueryJoinStack.php:53-59 | `apply` passes `$query`, an undefined local, instead of the stored `$this->query`, so every stored join receives null | a stack holding one join whose `apply` calls `join` on its argument | hand the stored query to every join | not executed | Joins.StackApplyAsWritten, Joins.StackApplyAsWrittenFails | Joins.StackApply, Joins.StackApplyAddsInOrder |
| src/EloquentRepository.php:103-106 | `performCreate` runs the nested save on the model without filling it, so `create($attributes)` saves a blank model; tests/unit/EloquentRepositoryTest.php:122-130 and tests/unit/ValidatedRepositoryTest.php:15 expect `fill` with the attributes before `save` | `create(['foo' => 'bar'])` on a plain Eloquent repository | fill the model with the attributes, then save, as `performUpdate` does | not executed | Dispatch.ModelCreateAsWritten, DispatchLemmas.CreateAsWrittenSavesBlankModel, DispatchLemmas.CreateAsWrittenLosesAttributes | Dispatch.FillThenSave, Repository.WithFillingCreate, DispatchLemmas.CreateSavesFilledModel |
| src/DatabaseRepository.php:46 | the constructor's `Validator` type hint is not imported (the file uses only `Connection` and `Fluent`), so it names the missing class `anlutro\LaravelRepository\Validator` and any validator passed is a TypeError | `new DatabaseRepository($db, $validator)` with an `anlutro\LaravelValidation\Validator` | import `anlutro\LaravelValidation\Validator` as AbstractRepository does, so the validator is accepted and gets the table | not executed | Repository.NewDatabase, Repository.DatabaseRefusesValidator | Repository.NewDatabaseCorrected |
