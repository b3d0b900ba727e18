/**
 * The three data mappers of src/Mappers that move attributes between a
 * PHP array and an entity object.
 *
 * An object is modelled by what the mappers can observe of it: its fields in
 * declaration order with their visibility, its public methods in declaration
 * order (each reduced to what it does with `$this`), and, for objects that
 * implement ArrayAccess and IteratorAggregate, the entries its iterator
 * yields; other objects have no entries at all (`items` is None).
 * Reflection (`get_object_vars`, `get_class_methods`) becomes a read of
 * these sequences.
 */
module Mappers {
  import opened Php
  import opened KeyCase

  datatype Visibility = Public | Protected

  datatype Field = Field(visibility: Visibility, value: Value)

  /** What a public method does, as far as a mapper can tell. */
  datatype Method =
    | Reads(field: string)     // `return $this->field;`
    | Writes(field: string)    // `$this->field = $arg;`
    | Returns(result: Value)   // any other method without parameters

  datatype Obj = Obj(
    className: string,
    fields: Assoc<Field>,
    methods: Assoc<Method>,
    items: Option<Assoc<Value>>)

  // ---------------------------------------------------------------------------
  // Object access from outside the class
  // ---------------------------------------------------------------------------

  predicate IsProtected(o: Obj, name: string)
  {
    match Get(o.fields, name)
    case Some(f) => f.visibility == Protected
    case None => false
  }

  /** `get_object_vars($o)` called from outside the class: the public fields, in order. */
  function PublicVars(fs: Assoc<Field>): (r: Assoc<Value>)
    ensures |r| <= |fs|
  {
    if |fs| == 0 then []
    else (if fs[0].1.visibility == Public then [(fs[0].0, fs[0].1.value)] else []) + PublicVars(fs[1..])
  }

  /** Exactly the public fields are listed, each with its value. */
  lemma {:induction false} PublicVarsMembers(fs: Assoc<Field>)
    ensures forall e :: e in PublicVars(fs) <==> (e.0, Field(Public, e.1)) in fs
    decreases |fs|
  {
    if |fs| > 0 {
      PublicVarsMembers(fs[1..]);
      assert fs == [fs[0]] + fs[1..];
    }
  }

  lemma {:induction false} PublicVarsAppend(a: Assoc<Field>, b: Assoc<Field>)
    ensures PublicVars(a + b) == PublicVars(a) + PublicVars(b)
    decreases |a|
  {
    if |a| == 0 {
      assert a + b == b;
    } else {
      var head := if a[0].1.visibility == Public then [(a[0].0, a[0].1.value)] else [];
      assert (a + b)[0] == a[0] && (a + b)[1..] == a[1..] + b;
      assert PublicVars(a + b) == head + PublicVars(a[1..] + b);
      assert PublicVars(a) == head + PublicVars(a[1..]);
      PublicVarsAppend(a[1..], b);
      assert head + (PublicVars(a[1..]) + PublicVars(b)) == (head + PublicVars(a[1..])) + PublicVars(b);
    }
  }

  /**
   * `$o->$name = $v` from outside the class: a protected field refuses the
   * write, a public one takes the value in place, and an unknown name
   * becomes a new public field at the end.
   */
  function SetProperty(o: Obj, name: string, v: Value): (r: Result<Obj>)
    ensures IsProtected(o, name) <==> r.Err?
    ensures r.Ok? ==> Get(r.value.fields, name) == Some(Field(Public, v))
    ensures r.Ok? ==> forall n :: n != name ==> Get(r.value.fields, n) == Get(o.fields, n)
    ensures r.Err? ==> r.fault == ProtectedProperty(name)
  {
    if IsProtected(o, name) then Err(ProtectedProperty(name))
    else Ok(o.(fields := Put(o.fields, name, Field(Public, v))))
  }

  /** `$this->$field = $v` inside the class: the field keeps its visibility. */
  function Assign(fs: Assoc<Field>, name: string, v: Value): (r: Assoc<Field>)
    ensures Get(r, name).Some? && Get(r, name).value.value == v
    ensures Get(fs, name).Some? ==> Get(r, name).value.visibility == Get(fs, name).value.visibility
    ensures forall n :: n != name ==> Get(r, n) == Get(fs, n)
  {
    var vis := match Get(fs, name) case Some(f) => f.visibility case None => Public;
    Put(fs, name, Field(vis, v))
  }

  /** `$this->$field` inside the class; an undefined field reads as null. */
  function ReadField(o: Obj, name: string): Value
  {
    match Get(o.fields, name)
    case Some(f) => f.value
    case None => Null
  }

  // ---------------------------------------------------------------------------
  // PropertyMapper
  // ---------------------------------------------------------------------------

  /** The entries of `a` with every key rewritten by Snake. */
  function SnakeKeys(a: Assoc<Value>): (r: Assoc<Value>)
    ensures |r| == |a|
    ensures forall i :: 0 <= i < |a| ==> r[i] == (Snake(a[i].0), a[i].1)
  {
    seq(|a|, i requires 0 <= i < |a| => (Snake(a[i].0), a[i].1))
  }

  /** PropertyMapper::map: every public field under its snake_case key. */
  function PropertyMap(o: Obj): (r: Assoc<Value>)
    ensures Unique(r)
  {
    PutAllKeepsUnique([], SnakeKeys(PublicVars(o.fields)));
    PutAll([], SnakeKeys(PublicVars(o.fields)))
  }

  /**
   * Every key `map` returns is free of uppercase letters, and the keys are
   * exactly the snake_case forms of the public field names.
   */
  lemma PropertyMapKeys(o: Obj)
    ensures forall k :: k in Keys(PropertyMap(o)) ==> NoUpper(k)
    ensures forall k :: k in Keys(PropertyMap(o)) <==>
      exists n :: n in Keys(PublicVars(o.fields)) && Snake(n) == k
  {
    var pv := PublicVars(o.fields);
    var entries := SnakeKeys(pv);
    forall k ensures k in Keys(PropertyMap(o)) <==> exists n :: n in Keys(pv) && Snake(n) == k {
      PutAllGet([], entries, k);
      if k in Keys(entries) {
        var i :| 0 <= i < |entries| && Keys(entries)[i] == k;
        assert Keys(pv)[i] == pv[i].0;
      }
      if exists n :: n in Keys(pv) && Snake(n) == k {
        var n :| n in Keys(pv) && Snake(n) == k;
        var i :| 0 <= i < |pv| && Keys(pv)[i] == n;
        assert Keys(entries)[i] == k;
      }
    }
  }

  /** A public field whose name is all lowercase letters is mapped under that same name. */
  lemma PropertyMapKeepsLowercaseNames(o: Obj, n: string)
    requires n in Keys(PublicVars(o.fields)) && CtypeLower(n)
    ensures n in Keys(PropertyMap(o))
  {
    PropertyMapKeys(o);
  }

  /**
   * PropertyMapper::fill: assigns every attribute, in order, to the
   * camelCase property of its key, stopping at the first protected one.
   */
  function PropertyFill(o: Obj, attrs: Assoc<Value>): (r: Result<Obj>)
    ensures r.Ok? ==> r.value.className == o.className && r.value.methods == o.methods && r.value.items == o.items
    decreases |attrs|
  {
    if |attrs| == 0 then Ok(o)
    else
      match SetProperty(o, Camel(attrs[0].0), attrs[0].1)
      case Err(f) => Err(f)
      case Ok(o') => PropertyFill(o', attrs[1..])
  }

  /** The attributes as the public fields `fill` assigns. */
  function AsProperties(attrs: Assoc<Value>): (r: Assoc<Field>)
    ensures |r| == |attrs|
    ensures forall i :: 0 <= i < |attrs| ==> r[i] == (Camel(attrs[i].0), Field(Public, attrs[i].1))
  {
    seq(|attrs|, i requires 0 <= i < |attrs| => (Camel(attrs[i].0), Field(Public, attrs[i].1)))
  }

  predicate ClashesAt(o: Obj, attrs: Assoc<Value>, i: int)
    requires 0 <= i < |attrs|
  {
    IsProtected(o, Camel(attrs[i].0))
  }

  /**
   * When no key names a protected property, `fill` succeeds and assigns the
   * attributes in order, as a PHP array assignment loop would.
   */
  lemma {:induction false} PropertyFillAssigns(o: Obj, attrs: Assoc<Value>)
    requires forall i :: 0 <= i < |attrs| ==> !ClashesAt(o, attrs, i)
    ensures PropertyFill(o, attrs) == Ok(o.(fields := PutAll(o.fields, AsProperties(attrs))))
    decreases |attrs|
  {
    if |attrs| > 0 {
      var name := Camel(attrs[0].0);
      assert !ClashesAt(o, attrs, 0);
      var o' := o.(fields := Put(o.fields, name, Field(Public, attrs[0].1)));
      assert SetProperty(o, name, attrs[0].1) == Ok(o');
      assert PropertyFill(o, attrs) == PropertyFill(o', attrs[1..]);
      forall i | 0 <= i < |attrs| - 1 ensures !ClashesAt(o', attrs[1..], i) {
        assert attrs[1..][i] == attrs[i + 1];
        assert !ClashesAt(o, attrs, i + 1);
        SetPropertyKeepsProtection(o, name, attrs[0].1, Camel(attrs[i + 1].0));
      }
      PropertyFillAssigns(o', attrs[1..]);
      var props := AsProperties(attrs);
      assert props[0] == (name, Field(Public, attrs[0].1));
      assert props[1..] == AsProperties(attrs[1..]);
      assert PutAll(o.fields, props) == PutAll(o'.fields, props[1..]);
    }
  }

  /** An allowed write neither creates nor removes a protected property. */
  lemma SetPropertyKeepsProtection(o: Obj, name: string, v: Value, n: string)
    requires !IsProtected(o, name)
    ensures IsProtected(SetProperty(o, name, v).value, n) == IsProtected(o, n)
  {
  }

  /** Otherwise `fill` fails on the first key that names a protected property. */
  lemma {:induction false} PropertyFillRefuses(o: Obj, attrs: Assoc<Value>, i: nat)
    requires i < |attrs| && ClashesAt(o, attrs, i)
    requires forall j :: 0 <= j < i ==> !ClashesAt(o, attrs, j)
    ensures PropertyFill(o, attrs) == Err(ProtectedProperty(Camel(attrs[i].0)))
    decreases i
  {
    if i > 0 {
      assert !ClashesAt(o, attrs, 0);
      var o' := PropertyFillStep(o, attrs);
      forall j | 0 <= j < i - 1 ensures !ClashesAt(o', attrs[1..], j) {
        assert !ClashesAt(o, attrs, j + 1);
        ClashesShift(o, attrs, j);
      }
      ClashesShift(o, attrs, i - 1);
      PropertyFillRefuses(o', attrs[1..], i - 1);
    }
  }

  /** One turn of the `fill` loop over an allowed key. */
  lemma PropertyFillStep(o: Obj, attrs: Assoc<Value>) returns (o': Obj)
    requires |attrs| > 0 && !ClashesAt(o, attrs, 0)
    ensures o' == o.(fields := Put(o.fields, Camel(attrs[0].0), Field(Public, attrs[0].1)))
    ensures PropertyFill(o, attrs) == PropertyFill(o', attrs[1..])
  {
    o' := o.(fields := Put(o.fields, Camel(attrs[0].0), Field(Public, attrs[0].1)));
    assert SetProperty(o, Camel(attrs[0].0), attrs[0].1) == Ok(o');
  }

  /** After an allowed first assignment, the remaining keys clash exactly where they clashed before. */
  lemma ClashesShift(o: Obj, attrs: Assoc<Value>, j: nat)
    requires j + 1 < |attrs| && !ClashesAt(o, attrs, 0)
    ensures ClashesAt(o.(fields := Put(o.fields, Camel(attrs[0].0), Field(Public, attrs[0].1))), attrs[1..], j) == ClashesAt(o, attrs, j + 1)
  {
    assert attrs[1..][j] == attrs[j + 1];
    SetPropertyKeepsProtection(o, Camel(attrs[0].0), attrs[0].1, Camel(attrs[j + 1].0));
  }

  /**
   * When two keys convert to the same property name ('foo_bar', 'foo-bar'),
   * the later value is the one left in the property.
   */
  lemma PropertyFillLaterWins(o: Obj, k1: string, v1: Value, k2: string, v2: Value)
    requires Camel(k1) == Camel(k2) && !IsProtected(o, Camel(k1))
    ensures PropertyFill(o, [(k1, v1), (k2, v2)]).Ok?
    ensures Get(PropertyFill(o, [(k1, v1), (k2, v2)]).value.fields, Camel(k1)) == Some(Field(Public, v2))
  {
    var attrs := [(k1, v1), (k2, v2)];
    var name := Camel(k1);
    var o1 := o.(fields := Put(o.fields, name, Field(Public, v1)));
    var o2 := o1.(fields := Put(o1.fields, name, Field(Public, v2)));
    assert SetProperty(o, name, v1) == Ok(o1);
    assert !IsProtected(o1, name);
    assert SetProperty(o1, name, v2) == Ok(o2);
    assert attrs[1..] == [(k2, v2)] && attrs[1..][1..] == [];
    assert PropertyFill(o1, [(k2, v2)]) == PropertyFill(o2, []);
  }

  predicate AllSnakeKeys(attrs: Assoc<Value>)
  {
    forall i :: 0 <= i < |attrs| ==> IsSnakeKey(attrs[i].0)
  }

  /** Two distinct snake keys never convert to the same property name. */
  lemma CamelInjective(k1: string, k2: string)
    requires IsSnakeKey(k1) && IsSnakeKey(k2) && k1 != k2
    ensures Camel(k1) != Camel(k2)
  {
    RoundTrip(k1);
    RoundTrip(k2);
  }

  /**
   * Fill-then-map on an object without public fields returns exactly the
   * attributes, order included, when every key is a snake key and none names
   * a protected field.
   */
  lemma PropertyRoundTrip(o: Obj, attrs: Assoc<Value>)
    requires Unique(o.fields) && PublicVars(o.fields) == []
    requires Unique(attrs) && AllSnakeKeys(attrs)
    requires forall i :: 0 <= i < |attrs| ==> !ClashesAt(o, attrs, i)
    ensures PropertyFill(o, attrs).Ok?
    ensures PropertyMap(PropertyFill(o, attrs).value) == attrs
  {
    PropertyFillAssigns(o, attrs);
    var props := AsProperties(attrs);
    NewPropertiesAppend(o, attrs);
    PutAllAppend(o.fields, props);
    PublicVarsAppend(o.fields, props);
    PublicVarsAllPublic(props);
    var pv := PublicVars(props);
    assert PublicVars(o.fields + props) == pv;
    assert SnakeKeys(pv) == attrs by {
      forall i | 0 <= i < |attrs| ensures SnakeKeys(pv)[i] == attrs[i] {
        RoundTrip(attrs[i].0);
      }
    }
    PutAllIntoEmpty(attrs);
  }

  /** On an object without public fields, the properties `fill` creates are all new. */
  lemma NewPropertiesAppend(o: Obj, attrs: Assoc<Value>)
    requires Unique(o.fields) && PublicVars(o.fields) == []
    requires Unique(attrs) && AllSnakeKeys(attrs)
    requires forall i :: 0 <= i < |attrs| ==> !ClashesAt(o, attrs, i)
    ensures Unique(o.fields + AsProperties(attrs))
  {
    var props := AsProperties(attrs);
    forall a, b | 0 <= a < b < |props| ensures props[a].0 != props[b].0 {
      NewPropertiesDistinct(attrs, a, b);
    }
    forall i, j | 0 <= i < |o.fields| && 0 <= j < |props| ensures o.fields[i].0 != props[j].0 {
      FieldIsNotNewProperty(o, attrs, i, j);
    }
    UniqueConcat(o.fields, props);
  }

  lemma NewPropertiesDistinct(attrs: Assoc<Value>, a: nat, b: nat)
    requires Unique(attrs) && AllSnakeKeys(attrs) && a < b < |attrs|
    ensures AsProperties(attrs)[a].0 != AsProperties(attrs)[b].0
  {
    CamelInjective(attrs[a].0, attrs[b].0);
  }

  lemma FieldIsNotNewProperty(o: Obj, attrs: Assoc<Value>, i: nat, j: nat)
    requires PublicVars(o.fields) == []
    requires i < |o.fields| && j < |attrs| && !ClashesAt(o, attrs, j)
    ensures o.fields[i].0 != Camel(attrs[j].0)
  {
    var n := o.fields[i].0;
    assert Keys(o.fields)[i] == n;
    PublicVarsNone(o.fields, n);
  }

  /** With no public fields, every field a name finds is protected. */
  lemma {:induction false} PublicVarsNone(fs: Assoc<Field>, n: string)
    requires PublicVars(fs) == [] && Get(fs, n).Some?
    ensures Get(fs, n).value.visibility == Protected
    decreases |fs|
  {
    if fs[0].0 != n {
      PublicVarsNone(fs[1..], n);
    }
  }

  lemma {:induction false} PublicVarsAllPublic(fs: Assoc<Field>)
    requires forall i :: 0 <= i < |fs| ==> fs[i].1.visibility == Public
    ensures PublicVars(fs) == seq(|fs|, i requires 0 <= i < |fs| => (fs[i].0, fs[i].1.value))
    decreases |fs|
  {
    if |fs| > 0 {
      PublicVarsAllPublic(fs[1..]);
    }
  }

  // ---------------------------------------------------------------------------
  // GetterSetterMapper
  // ---------------------------------------------------------------------------

  /** `strpos($m, 'get') === 0`. */
  predicate StartsWithGet(m: string)
  {
    |m| >= 3 && m[..3] == "get"
  }

  /** The array key `map` derives from a getter name: 'getFooAttribute' gives 'foo_attribute'. */
  function GetterKey(m: string): (r: string)
    requires StartsWithGet(m)
    ensures NoUpper(r)
  {
    Snake(Lcfirst(m[3..]))
  }

  /** The setter `fill` calls for a key: 'foo_attribute' gives 'setFooAttribute'. */
  function SetterName(key: string): string
  {
    "set" + Studly(key)
  }

  /** PHP method lookup: the first declared method whose name matches ignoring ASCII case. */
  function FindMethod(ms: Assoc<Method>, name: string): (r: Option<Method>)
    ensures r.None? <==> forall i :: 0 <= i < |ms| ==> Lower(ms[i].0) != Lower(name)
  {
    if |ms| == 0 then None
    else if Lower(ms[0].0) == Lower(name) then Some(ms[0].1)
    else
      var r := FindMethod(ms[1..], name);
      assert forall i :: 1 <= i < |ms| ==> ms[1..][i - 1] == ms[i];
      r
  }

  /** `$o->$m()` with no arguments. */
  function CallGetter(o: Obj, name: string, m: Method): (r: Result<Value>)
    ensures r.Err? <==> m.Writes?
  {
    match m
    case Reads(f) => Ok(ReadField(o, f))
    case Writes(_) => Err(TooFewArguments(name))
    case Returns(v) => Ok(v)
  }

  /** The `foreach` of GetterSetterMapper::map over the methods `ms`, accumulating into `acc`. */
  function GetterSetterMapFrom(o: Obj, ms: Assoc<Method>, acc: Assoc<Value>): Result<Assoc<Value>>
    decreases |ms|
  {
    if |ms| == 0 then Ok(acc)
    else if !StartsWithGet(ms[0].0) then GetterSetterMapFrom(o, ms[1..], acc)
    else
      match CallGetter(o, ms[0].0, ms[0].1)
      case Err(f) => Err(f)
      case Ok(v) => GetterSetterMapFrom(o, ms[1..], Put(acc, GetterKey(ms[0].0), v))
  }

  /**
   * GetterSetterMapper::map: fails exactly when a method whose name starts
   * with 'get' needs an argument; otherwise each key appears once.
   */
  function GetterSetterMap(o: Obj): (r: Result<Assoc<Value>>)
    ensures r.Err? <==> exists i :: 0 <= i < |o.methods| && StartsWithGet(o.methods[i].0) && o.methods[i].1.Writes?
    ensures r.Ok? ==> Unique(r.value)
  {
    GetterSetterMapReadsGetters(o, o.methods, []);
    var r := GetterSetterMapFrom(o, o.methods, []);
    assert r.Ok? ==> Unique(r.value) by {
      if r.Ok? {
        PutAllKeepsUnique([], GetterEntries(o, o.methods));
      }
    }
    r
  }

  /** The getters among `ms`, each as its key and the value it returns. */
  function GetterEntries(o: Obj, ms: Assoc<Method>): Assoc<Value>
    requires forall i :: 0 <= i < |ms| && StartsWithGet(ms[i].0) ==> !ms[i].1.Writes?
    decreases |ms|
  {
    if |ms| == 0 then []
    else if !StartsWithGet(ms[0].0) then GetterEntries(o, ms[1..])
    else [(GetterKey(ms[0].0), CallGetter(o, ms[0].0, ms[0].1).value)] + GetterEntries(o, ms[1..])
  }

  /**
   * `map` fails exactly when some method starting with 'get' needs an
   * argument; otherwise it assigns the getters' results in method order,
   * skipping every method whose name does not start with 'get'.
   */
  lemma {:induction false} GetterSetterMapReadsGetters(o: Obj, ms: Assoc<Method>, acc: Assoc<Value>)
    ensures (exists i :: 0 <= i < |ms| && StartsWithGet(ms[i].0) && ms[i].1.Writes?) <==>
      GetterSetterMapFrom(o, ms, acc).Err?
    ensures (forall i :: 0 <= i < |ms| && StartsWithGet(ms[i].0) ==> !ms[i].1.Writes?) ==>
      GetterSetterMapFrom(o, ms, acc) == Ok(PutAll(acc, GetterEntries(o, ms)))
    decreases |ms|
  {
    if |ms| > 0 {
      GetterSetterMapReadsGetters(o, ms[1..], if StartsWithGet(ms[0].0) && !ms[0].1.Writes? then Put(acc, GetterKey(ms[0].0), CallGetter(o, ms[0].0, ms[0].1).value) else acc);
      assert forall i :: 1 <= i < |ms| ==> ms[1..][i - 1] == ms[i];
      if (exists i :: 0 <= i < |ms| && StartsWithGet(ms[i].0) && ms[i].1.Writes?) && !(StartsWithGet(ms[0].0) && ms[0].1.Writes?) {
        var i :| 0 <= i < |ms| && StartsWithGet(ms[i].0) && ms[i].1.Writes?;
        assert ms[1..][i - 1] == ms[i];
      }
    }
  }

  /** Every key `map` returns is free of uppercase letters. */
  lemma GetterSetterMapKeysLower(o: Obj)
    requires GetterSetterMap(o).Ok?
    ensures forall k :: k in Keys(GetterSetterMap(o).value) ==> NoUpper(k)
  {
    GetterSetterMapReadsGetters(o, o.methods, []);
    var entries := GetterEntries(o, o.methods);
    forall k | k in Keys(GetterSetterMap(o).value) ensures NoUpper(k) {
      PutAllGet([], entries, k);
      GetterEntriesKeysLower(o, o.methods);
    }
  }

  lemma {:induction false} GetterEntriesKeysLower(o: Obj, ms: Assoc<Method>)
    requires forall i :: 0 <= i < |ms| && StartsWithGet(ms[i].0) ==> !ms[i].1.Writes?
    ensures forall k :: k in Keys(GetterEntries(o, ms)) ==> NoUpper(k)
    decreases |ms|
  {
    if |ms| > 0 {
      assert forall i :: 1 <= i < |ms| ==> ms[1..][i - 1] == ms[i];
      GetterEntriesKeysLower(o, ms[1..]);
      var rest := GetterEntries(o, ms[1..]);
      if StartsWithGet(ms[0].0) {
        var e := [(GetterKey(ms[0].0), CallGetter(o, ms[0].0, ms[0].1).value)];
        assert Keys(e + rest) == [GetterKey(ms[0].0)] + Keys(rest);
      }
    }
  }

  /** `$o->$name($v)`: a setter stores the value; a missing method is a fatal error. */
  function CallSetter(o: Obj, name: string, v: Value): (r: Result<Obj>)
    ensures FindMethod(o.methods, name).None? <==> r.Err?
    ensures r.Err? ==> r.fault == UndefinedMethod(name)
    ensures r.Ok? ==> r.value.methods == o.methods && r.value.className == o.className
  {
    match FindMethod(o.methods, name)
    case None => Err(UndefinedMethod(name))
    case Some(Writes(f)) => Ok(o.(fields := Assign(o.fields, f, v)))
    case Some(_) => Ok(o)
  }

  /**
   * The field writes the setters make for `attrs`, in order: one entry per
   * attribute whose setter stores its argument into a field.
   */
  function SetterWrites(ms: Assoc<Method>, attrs: Assoc<Value>): Assoc<Value>
    decreases |attrs|
  {
    if |attrs| == 0 then []
    else
      var m := FindMethod(ms, SetterName(attrs[0].0));
      (if m.Some? && m.value.Writes? then [(m.value.field, attrs[0].1)] else []) + SetterWrites(ms, attrs[1..])
  }

  /**
   * GetterSetterMapper::fill: one setter call per attribute, in order. It
   * fails exactly when some attribute has no setter; otherwise every field
   * holds the value of the last setter call that wrote it, and every field
   * no setter wrote is as it was.
   */
  function GetterSetterFill(o: Obj, attrs: Assoc<Value>): (r: Result<Obj>)
    ensures r.Ok? ==> r.value.methods == o.methods && r.value.className == o.className && r.value.items == o.items
    ensures (exists i :: 0 <= i < |attrs| && FindMethod(o.methods, SetterName(attrs[i].0)).None?) <==> r.Err?
    ensures r.Ok? ==> FieldsAfter(r.value, SetterWrites(o.methods, attrs), o)
    decreases |attrs|
  {
    if |attrs| == 0 then Ok(o)
    else
      assert forall i :: 1 <= i < |attrs| ==> attrs[1..][i - 1] == attrs[i];
      match CallSetter(o, SetterName(attrs[0].0), attrs[0].1)
      case Err(f) => Err(f)
      case Ok(o') =>
        var r := GetterSetterFill(o', attrs[1..]);
        assert r.Ok? ==> FieldsAfter(r.value, SetterWrites(o.methods, attrs), o) by {
          if r.Ok? {
            var m := FindMethod(o.methods, SetterName(attrs[0].0));
            SetterShape(o, SetterName(attrs[0].0), attrs[0].1);
            SetterWritesHead(o.methods, attrs);
            var f := if m.Some? && m.value.Writes? then Some(m.value.field) else None;
            SetterStep(o, o', f, attrs[0].1, SetterWrites(o.methods, attrs), SetterWrites(o.methods, attrs[1..]), r.value);
          }
        }
        r
  }

  /** Every field of `r` holds its last write in `w`, or else what it held in `o`. */
  ghost predicate FieldsAfter(r: Obj, w: Assoc<Value>, o: Obj)
  {
    forall n :: ReadField(r, n) == (if n in Keys(w) then LastValue(w, n) else ReadField(o, n))
  }

  /**
   * One setter call followed by the rest of `fill` leaves each field as the
   * writes say; `f` is the field the setter writes, if any.
   */
  lemma SetterStep(o: Obj, o': Obj, f: Option<string>, v: Value, w: Assoc<Value>, w1: Assoc<Value>, r: Obj)
    requires f.Some? ==> o' == o.(fields := Assign(o.fields, f.value, v)) && w == [(f.value, v)] + w1
    requires f.None? ==> o' == o && w == w1
    requires FieldsAfter(r, w1, o')
    ensures FieldsAfter(r, w, o)
  {
    if f.Some? {
      forall n ensures ReadField(r, n) == (if n in Keys(w) then LastValue(w, n) else ReadField(o, n)) {
        WritesHead(w, w1, f.value, v, n);
        AssignRead(o, f.value, v, n);
      }
    }
  }

  lemma SetterWritesHead(ms: Assoc<Method>, attrs: Assoc<Value>)
    requires |attrs| > 0
    ensures var m := FindMethod(ms, SetterName(attrs[0].0));
      SetterWrites(ms, attrs) ==
        (if m.Some? && m.value.Writes? then [(m.value.field, attrs[0].1)] else []) + SetterWrites(ms, attrs[1..])
  {
  }

  /** What one setter call does, by the method the name finds. */
  lemma SetterShape(o: Obj, name: string, v: Value)
    ensures var m := FindMethod(o.methods, name);
      m.Some? && m.value.Writes? ==> CallSetter(o, name, v) == Ok(o.(fields := Assign(o.fields, m.value.field, v)))
    ensures var m := FindMethod(o.methods, name);
      m.Some? && !m.value.Writes? ==> CallSetter(o, name, v) == Ok(o)
  {
  }

  lemma WritesHead(w: Assoc<Value>, w1: Assoc<Value>, f: string, v: Value, n: string)
    requires w == [(f, v)] + w1
    ensures n in Keys(w) <==> n == f || n in Keys(w1)
    ensures n in Keys(w) ==> LastValue(w, n) == (if n in Keys(w1) then LastValue(w1, n) else v)
  {
    assert w[1..] == w1;
    assert Keys(w) == [f] + Keys(w1);
  }

  /** A field written inside the class reads back as the value written; other fields are unchanged. */
  lemma AssignRead(o: Obj, f: string, v: Value, n: string)
    ensures ReadField(o.(fields := Assign(o.fields, f, v)), n) == (if n == f then v else ReadField(o, n))
  {
  }

  /** The last method among `ms` that `map` reads as the getter for key `k`: the one whose value it keeps. */
  function LastGetter(ms: Assoc<Method>, k: string): Option<Method>
    decreases |ms|
  {
    if |ms| == 0 then None
    else if LastGetter(ms[1..], k).Some? then LastGetter(ms[1..], k)
    else if StartsWithGet(ms[0].0) && GetterKey(ms[0].0) == k then Some(ms[0].1)
    else None
  }

  /** What calling method `m` as a getter returns; None when it needs an argument. */
  function GetterResult(o: Obj, m: Method): Option<Value>
  {
    match m
    case Reads(f) => Some(ReadField(o, f))
    case Returns(v) => Some(v)
    case Writes(_) => None
  }

  lemma {:induction false} GetterEntriesLast(o: Obj, ms: Assoc<Method>, k: string)
    requires forall i :: 0 <= i < |ms| && StartsWithGet(ms[i].0) ==> !ms[i].1.Writes?
    ensures k in Keys(GetterEntries(o, ms)) <==> LastGetter(ms, k).Some?
    ensures k in Keys(GetterEntries(o, ms)) ==> Some(LastValue(GetterEntries(o, ms), k)) == GetterResult(o, LastGetter(ms, k).value)
    decreases |ms|
  {
    if |ms| > 0 {
      assert forall i :: 1 <= i < |ms| ==> ms[1..][i - 1] == ms[i];
      GetterEntriesLast(o, ms[1..], k);
      var rest := GetterEntries(o, ms[1..]);
      if StartsWithGet(ms[0].0) {
        var all := [(GetterKey(ms[0].0), CallGetter(o, ms[0].0, ms[0].1).value)] + rest;
        assert GetterEntries(o, ms) == all;
        assert all[1..] == rest;
        assert Keys(all) == [GetterKey(ms[0].0)] + Keys(rest);
      }
    }
  }

  /** The value `map` returns under each key is what the last getter for that key returns. */
  lemma GetterSetterMapFinds(o: Obj, k: string)
    requires GetterSetterMap(o).Ok?
    ensures Get(GetterSetterMap(o).value, k) ==
      (if LastGetter(o.methods, k).Some? then GetterResult(o, LastGetter(o.methods, k).value) else None)
  {
    GetterSetterMapReadsGetters(o, o.methods, []);
    GetterEntriesLast(o, o.methods, k);
    PutAllGet([], GetterEntries(o, o.methods), k);
  }

  /**
   * Map after fill: fill never makes map fail, a key whose getter reads a
   * field returns what the setters left in that field, and every other key
   * returns what it returned before.
   */
  lemma GetterSetterMapAfterFill(o: Obj, attrs: Assoc<Value>, k: string)
    requires GetterSetterFill(o, attrs).Ok? && GetterSetterMap(o).Ok?
    ensures GetterSetterMap(GetterSetterFill(o, attrs).value).Ok?
    ensures var w := SetterWrites(o.methods, attrs);
      Get(GetterSetterMap(GetterSetterFill(o, attrs).value).value, k) ==
        match LastGetter(o.methods, k)
        case Some(Reads(f)) => Some(if f in Keys(w) then LastValue(w, f) else ReadField(o, f))
        case _ => Get(GetterSetterMap(o).value, k)
  {
    var o' := GetterSetterFill(o, attrs).value;
    GetterSetterMapFinds(o, k);
    GetterSetterMapFinds(o', k);
  }

  /** The getter that reads what a key's setter wrote maps back to that key. */
  lemma GetterKeyOfSetter(k: string)
    requires IsSnakeKey(k)
    ensures StartsWithGet("get" + Studly(k))
    ensures GetterKey("get" + Studly(k)) == k
  {
    var m := "get" + Studly(k);
    assert m[..3] == "get" && m[3..] == Studly(k);
    RoundTrip(k);
  }

  /**
   * The stub-entity scenario for GetterSetterMapper: an entity with a
   * protected field behind a getter and a setter for key `k` takes the value
   * through the setter and maps back to exactly `[k => x]`.
   */
  lemma GetterSetterStubRoundTrip(k: string, x: Value, field: string)
    requires IsSnakeKey(k)
    ensures var o := StubEntity(k, field);
      && GetterSetterFill(o, [(k, x)]).Ok?
      && ReadField(GetterSetterFill(o, [(k, x)]).value, field) == x
      && GetterSetterMap(GetterSetterFill(o, [(k, x)]).value) == Ok([(k, x)])
  {
    var o := StubEntity(k, field);
    var setter := SetterName(k);
    var getter := "get" + Studly(k);
    assert Lower(o.methods[0].0)[0] == 'g' && Lower(setter)[0] == 's';
    assert FindMethod(o.methods, setter) == Some(Writes(field)) by {
      assert o.methods[1..][0].0 == setter;
    }
    var o' := o.(fields := Assign(o.fields, field, x));
    assert CallSetter(o, setter, x) == Ok(o');
    assert GetterSetterFill(o, [(k, x)]) == GetterSetterFill(o', []) by {
      assert [(k, x)][1..] == [];
    }
    GetterKeyOfSetter(k);
    assert !StartsWithGet(setter) by {
      assert setter[..3] == "set";
    }
    var ms := o'.methods;
    assert ms[1..][1..] == [];
    assert GetterSetterMapFrom(o', ms, []) == GetterSetterMapFrom(o', ms[1..], Put([], k, x));
    assert GetterSetterMapFrom(o', ms[1..], Put([], k, x)) == GetterSetterMapFrom(o', ms[1..][1..], Put([], k, x));
  }

  /** An entity with one protected field and a public property, getter and setter for `k`. */
  function StubEntity(k: string, field: string): Obj
  {
    Obj("MapperStubEntity",
        [(field, Field(Protected, Null)), (Camel(k), Field(Public, Null))],
        [("get" + Studly(k), Reads(field)), (SetterName(k), Writes(field))],
        None)
  }

  /**
   * The same entity under PropertyMapper: the public property takes the
   * value in place and is the only field mapped back.
   */
  lemma PropertyStubRoundTrip(k: string, x: Value, field: string)
    requires IsSnakeKey(k) && Camel(k) != field
    ensures var o := StubEntity(k, field);
      && PropertyFill(o, [(k, x)]).Ok?
      && Get(PropertyFill(o, [(k, x)]).value.fields, Camel(k)) == Some(Field(Public, x))
      && PropertyMap(PropertyFill(o, [(k, x)]).value) == [(k, x)]
  {
    var o := StubEntity(k, field);
    var name := Camel(k);
    assert Get(o.fields, name) == Some(Field(Public, Null)) by {
      assert o.fields[1..][0].0 == name;
    }
    var fs := [(field, Field(Protected, Null)), (name, Field(Public, x))];
    assert Put(o.fields, name, Field(Public, x)) == fs by {
      assert o.fields[1..] == [(name, Field(Public, Null))];
    }
    var o' := o.(fields := fs);
    assert SetProperty(o, name, x) == Ok(o');
    assert PropertyFill(o, [(k, x)]) == PropertyFill(o', []) by {
      assert [(k, x)][1..] == [];
    }
    assert PublicVars(fs) == [(name, x)] by {
      assert fs[1..] == [(name, Field(Public, x))];
      assert fs[1..][1..] == [];
    }
    RoundTrip(k);
    assert SnakeKeys([(name, x)]) == [(k, x)];
    PutAllIntoEmpty([(k, x)]);
  }

  // ---------------------------------------------------------------------------
  // ArrayAccessMapper
  // ---------------------------------------------------------------------------

  /**
   * ArrayAccessMapper::map: `iterator_to_array($o)`, the entries the
   * object's iterator yields; an object that is not Traversable is a
   * TypeError.
   */
  function ArrayAccessMap(o: Obj): (r: Result<Assoc<Value>>)
    ensures r.Err? <==> o.items.None?
    ensures r.Err? ==> r.fault == TypeError("iterator_to_array")
    ensures r.Ok? ==> r.value == o.items.value
  {
    match o.items
    case Some(entries) => Ok(entries)
    case None => Err(TypeError("iterator_to_array"))
  }

  /**
   * ArrayAccessMapper::fill: `$o[$k] = $v` for every attribute, in order.
   * On an object without ArrayAccess the first assignment is an Error; with
   * no attributes the loop body never runs.
   */
  function ArrayAccessFill(o: Obj, attrs: Assoc<Value>): (r: Result<Obj>)
    ensures r.Err? <==> o.items.None? && |attrs| > 0
    ensures r.Err? ==> r.fault == NotArrayAccess(o.className)
    ensures r.Ok? ==> r.value.fields == o.fields && r.value.methods == o.methods && r.value.className == o.className
    ensures r.Ok? && o.items.None? ==> r.value == o
    ensures r.Ok? && o.items.Some? ==> r.value.items.Some?
    ensures r.Ok? && o.items.Some? ==> forall k :: Get(r.value.items.value, k) == (if k in Keys(attrs) then Some(LastValue(attrs, k)) else Get(o.items.value, k))
  {
    match o.items
    case None => if |attrs| == 0 then Ok(o) else Err(NotArrayAccess(o.className))
    case Some(entries) =>
      var items := PutAll(entries, attrs);
      assert forall k :: Get(items, k) == (if k in Keys(attrs) then Some(LastValue(attrs, k)) else Get(entries, k)) by {
        forall k ensures Get(items, k) ==
          (if k in Keys(attrs) then Some(LastValue(attrs, k)) else Get(entries, k)) {
          PutAllGet(entries, attrs, k);
        }
      }
      Ok(o.(items := Some(items)))
  }

  /** Fill on an empty array-access entity followed by map returns exactly the attributes, order included. */
  lemma ArrayAccessRoundTrip(o: Obj, attrs: Assoc<Value>)
    requires o.items == Some([]) && Unique(attrs)
    ensures ArrayAccessFill(o, attrs).Ok?
    ensures ArrayAccessMap(ArrayAccessFill(o, attrs).value) == Ok(attrs)
  {
    PutAllIntoEmpty(attrs);
  }

  // ---------------------------------------------------------------------------
  // The three mappers behind one interface
  // ---------------------------------------------------------------------------

  datatype Mapper = PropertyMapper | GetterSetterMapper | ArrayAccessMapper

  /**
   * DataMapperInterface::map. The property and getter/setter mappers return
   * each key once, free of uppercase letters; the property mapper never
   * fails, and the array-access mapper fails exactly on an object that is
   * not Traversable.
   */
  function Map(m: Mapper, o: Obj): (r: Result<Assoc<Value>>)
    ensures m == PropertyMapper ==> r.Ok?
    ensures m == ArrayAccessMapper ==> (r.Err? <==> o.items.None?)
    ensures m != ArrayAccessMapper && r.Ok? ==> Unique(r.value) && forall k :: k in Keys(r.value) ==> NoUpper(k)
  {
    match m
    case PropertyMapper => PropertyMapKeys(o); Ok(PropertyMap(o))
    case GetterSetterMapper =>
      assert GetterSetterMap(o).Ok? ==> forall k :: k in Keys(GetterSetterMap(o).value) ==> NoUpper(k) by {
        if GetterSetterMap(o).Ok? {
          GetterSetterMapKeysLower(o);
        }
      }
      GetterSetterMap(o)
    case ArrayAccessMapper => ArrayAccessMap(o)
  }

  /** DataMapperInterface::fill, returning the filled object: the same object, its data changed. */
  function Fill(m: Mapper, o: Obj, attrs: Assoc<Value>): (r: Result<Obj>)
    ensures r.Ok? ==> r.value.className == o.className && r.value.methods == o.methods
  {
    match m
    case PropertyMapper => PropertyFill(o, attrs)
    case GetterSetterMapper => GetterSetterFill(o, attrs)
    case ArrayAccessMapper => ArrayAccessFill(o, attrs)
  }
}
