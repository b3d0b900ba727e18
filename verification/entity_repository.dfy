/**
 * src/EntityRepository.php: entities built from a class name and passed
 * through a data mapper that is constructed on first use and then reused.
 */
module EntityRepo {
  import opened Php
  import opened Mappers

  /**
   * What `new $class` needs of a known class: its declared fields and
   * methods, and whether it implements ArrayAccess and IteratorAggregate.
   */
  datatype ClassDef = ClassDef(fields: Assoc<Field>, methods: Assoc<Method>, arrayAccess: bool)

  /** `new $class`: the declared fields and methods, and no entries yet. */
  function Instantiate(name: string, d: ClassDef): (o: Obj)
    ensures o.className == name && o.fields == d.fields && o.methods == d.methods
    ensures d.arrayAccess <==> o.items == Some([])
    ensures !d.arrayAccess <==> o.items.None?
  {
    Obj(name, d.fields, d.methods, if d.arrayAccess then Some([]) else None)
  }

  /** A constructed mapper; `id` tells instances apart (the `built` count when it was made). */
  datatype Instance = Instance(mapper: Mapper, id: nat)

  /**
   * The repository's `$entityClass`, `$dataMapperClass` and `$dataMapper`,
   * with the classes `new` can find and how many mappers it has built.
   */
  datatype EntityRepository = EntityRepository(
    entityClass: string,
    dataMapperClass: string,
    entityClasses: map<string, ClassDef>,
    mapperClasses: map<string, Mapper>,
    dataMapper: Option<Instance>,
    built: nat)

  /** A repository as constructed: no mapper yet. */
  predicate Fresh(r: EntityRepository)
  {
    r.dataMapper.None? && r.built == 0
  }

  /** The repository apart from its mapper cache. */
  predicate SameConfig(a: EntityRepository, b: EntityRepository)
  {
    && a.entityClass == b.entityClass && a.dataMapperClass == b.dataMapperClass
    && a.entityClasses == b.entityClasses && a.mapperClasses == b.mapperClasses
  }

  /**
   * getDataMapper: the cached mapper when there is one; otherwise a new
   * instance of `$dataMapperClass`, which is cached.
   */
  function GetDataMapper(r: EntityRepository): (res: Result<(EntityRepository, Instance)>)
    ensures res.Err? <==> r.dataMapper.None? && r.dataMapperClass !in r.mapperClasses
    ensures res.Err? ==> res.fault == ClassNotFound(r.dataMapperClass)
    ensures r.dataMapper.Some? ==> res == Ok((r, r.dataMapper.value))
    ensures res.Ok? ==> SameConfig(r, res.value.0) && res.value.0.dataMapper == Some(res.value.1)
    ensures res.Ok? ==> res.value.1.mapper == (if r.dataMapper.Some? then r.dataMapper.value.mapper else r.mapperClasses[r.dataMapperClass])
    ensures res.Ok? ==> res.value.0.built == r.built + (if r.dataMapper.None? then 1 else 0)
  {
    if r.dataMapper.Some? then Ok((r, r.dataMapper.value))
    else if r.dataMapperClass !in r.mapperClasses then Err(ClassNotFound(r.dataMapperClass))
    else
      var inst := Instance(r.mapperClasses[r.dataMapperClass], r.built);
      Ok((r.(dataMapper := Some(inst), built := r.built + 1), inst))
  }

  /** `n` calls of getDataMapper in a row, with the instances they return. */
  function GetDataMapperTimes(r: EntityRepository, n: nat): Result<(EntityRepository, seq<Instance>)>
    decreases n
  {
    if n == 0 then Ok((r, []))
    else
      match GetDataMapper(r)
      case Err(f) => Err(f)
      case Ok(p) =>
        match GetDataMapperTimes(p.0, n - 1)
        case Err(f) => Err(f)
        case Ok(q) => Ok((q.0, [p.1] + q.1))
  }

  /** Once a mapper is cached, any number of further calls return it and build nothing. */
  lemma {:induction false} CachedMapperIsKept(r: EntityRepository, n: nat)
    requires r.dataMapper.Some?
    ensures GetDataMapperTimes(r, n).Ok?
    ensures var p := GetDataMapperTimes(r, n).value;
      p.0 == r && |p.1| == n && forall i :: 0 <= i < n ==> p.1[i] == r.dataMapper.value
    decreases n
  {
    if n > 0 {
      CachedMapperIsKept(r, n - 1);
      assert GetDataMapper(r) == Ok((r, r.dataMapper.value));
    }
  }

  /**
   * On a fresh repository whose mapper class exists, any number of calls
   * build exactly one mapper and every call returns that same instance.
   */
  lemma MapperBuiltOnce(r: EntityRepository, n: nat)
    requires Fresh(r) && r.dataMapperClass in r.mapperClasses && n > 0
    ensures GetDataMapperTimes(r, n).Ok?
    ensures var p := GetDataMapperTimes(r, n).value;
      && p.0.built == 1 && |p.1| == n
      && forall i :: 0 <= i < n ==> p.1[i] == Instance(r.mapperClasses[r.dataMapperClass], 0)
  {
    var r1 := GetDataMapper(r).value.0;
    CachedMapperIsKept(r1, n - 1);
  }

  /** fillEntityAttributes: the mapper's `fill` with the attributes as given. */
  function FillEntityAttributes(r: EntityRepository, e: Obj, attrs: Assoc<Value>): (res: Result<(EntityRepository, Obj)>)
    ensures GetDataMapper(r).Err? ==> res == Err(GetDataMapper(r).fault)
    ensures GetDataMapper(r).Ok? ==> var (r1, m) := GetDataMapper(r).value;
      && (res.Ok? <==> Fill(m.mapper, e, attrs).Ok?)
      && (res.Ok? ==> res.value == (r1, Fill(m.mapper, e, attrs).value))
  {
    match GetDataMapper(r)
    case Err(f) => Err(f)
    case Ok((r1, m)) =>
      match Fill(m.mapper, e, attrs)
      case Err(f) => Err(f)
      case Ok(e1) => Ok((r1, e1))
  }

  /** getEntityAttributes: the mapper's `map` of the entity. */
  function GetEntityAttributes(r: EntityRepository, e: Obj): (res: Result<(EntityRepository, Assoc<Value>)>)
    ensures GetDataMapper(r).Err? ==> res == Err(GetDataMapper(r).fault)
    ensures GetDataMapper(r).Ok? ==> var (r1, m) := GetDataMapper(r).value;
      && (res.Ok? <==> Map(m.mapper, e).Ok?)
      && (res.Ok? ==> res.value == (r1, Map(m.mapper, e).value))
  {
    match GetDataMapper(r)
    case Err(f) => Err(f)
    case Ok((r1, m)) =>
      match Map(m.mapper, e)
      case Err(f) => Err(f)
      case Ok(a) => Ok((r1, a))
  }

  /**
   * getNew: a new object of `$entityClass`, filled through the mapper with
   * the given attributes. The class is looked up before the mapper.
   */
  function GetNew(r: EntityRepository, attrs: Assoc<Value>): (res: Result<(EntityRepository, Obj)>)
    ensures r.entityClass !in r.entityClasses ==> res == Err(ClassNotFound(r.entityClass))
    ensures res.Ok? ==> res.value.1.className == r.entityClass
    ensures res.Ok? ==> SameConfig(r, res.value.0) && res.value.0.dataMapper.Some?
    ensures res.Ok? ==> var e := Fill(res.value.0.dataMapper.value.mapper, Instantiate(r.entityClass, r.entityClasses[r.entityClass]), attrs);
      e.Ok? && res.value.1 == e.value
  {
    if r.entityClass !in r.entityClasses then Err(ClassNotFound(r.entityClass))
    else FillEntityAttributes(r, Instantiate(r.entityClass, r.entityClasses[r.entityClass]), attrs)
  }

  /**
   * With the array-access mapper, a new entity maps back to exactly the
   * attributes it was created with, order included.
   */
  lemma GetNewRoundTripArrayAccess(r: EntityRepository, attrs: Assoc<Value>)
    requires r.entityClass in r.entityClasses && r.dataMapperClass in r.mapperClasses
    requires Fresh(r) && r.mapperClasses[r.dataMapperClass] == ArrayAccessMapper
    requires r.entityClasses[r.entityClass].arrayAccess && Unique(attrs)
    ensures GetNew(r, attrs).Ok?
    ensures var (r1, e) := GetNew(r, attrs).value;
      GetEntityAttributes(r1, e) == Ok((r1, attrs))
  {
    var blank := Instantiate(r.entityClass, r.entityClasses[r.entityClass]);
    ArrayAccessRoundTrip(blank, attrs);
  }

  /**
   * With the property mapper and an entity class that declares no public
   * fields, a new entity maps back to exactly its attributes when these are
   * distinct snake_case keys none of which names a protected field.
   */
  lemma GetNewRoundTripProperty(r: EntityRepository, attrs: Assoc<Value>)
    requires r.entityClass in r.entityClasses && r.dataMapperClass in r.mapperClasses
    requires Fresh(r) && r.mapperClasses[r.dataMapperClass] == PropertyMapper
    requires var d := r.entityClasses[r.entityClass]; Unique(d.fields) && PublicVars(d.fields) == []
    requires Unique(attrs) && AllSnakeKeys(attrs)
    requires forall i :: 0 <= i < |attrs| ==> !ClashesAt(Instantiate(r.entityClass, r.entityClasses[r.entityClass]), attrs, i)
    ensures GetNew(r, attrs).Ok?
    ensures var (r1, e) := GetNew(r, attrs).value;
      GetEntityAttributes(r1, e) == Ok((r1, attrs))
  {
    var blank := Instantiate(r.entityClass, r.entityClasses[r.entityClass]);
    PropertyRoundTrip(blank, attrs);
  }

  /** Two entities made in a row share one mapper instance, built by the first. */
  lemma GetNewSharesMapper(r: EntityRepository, a: Assoc<Value>, b: Assoc<Value>)
    requires Fresh(r) && GetNew(r, a).Ok?
    ensures var r1 := GetNew(r, a).value.0;
      && r1.built == 1
      && (GetNew(r1, b).Ok? ==> GetNew(r1, b).value.0 == r1)
  {
  }
}
