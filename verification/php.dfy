/**
 * The slice of PHP's value model that the repository layer relies on:
 * scalar values, string-keyed ordered arrays, loose truthiness, the strict
 * `=== false` test, the `(int)` and `(string)` casts, ASCII case helpers and
 * the exceptions the layer throws.
 */
module Php {

  /** Failure-compatible optional value. */
  datatype Option<+T> = None | Some(value: T)

  /** The exceptions and fatal errors the modelled code can raise. */
  datatype Fault =
    | BadMethodCall(name: string)       // \BadMethodCallException
    | NotFound                            // NotFoundException
    | Runtime(message: string)            // \RuntimeException
    | InvalidArgument(message: string)    // \InvalidArgumentException
    | UndefinedMethod(name: string)     // Error: call to undefined method
    | TooFewArguments(name: string)     // ArgumentCountError
    | ProtectedProperty(name: string)     // Error: cannot access protected property
    | ClassNotFound(name: string)         // Error: class not found
    | CallOnNull(name: string)          // Error: call to a member function on null
    | TypeError(message: string)          // TypeError on a typed parameter
    | NotStringable                       // Error: object cannot be converted to string
    | NotArrayAccess(className: string)   // Error: cannot use object as array

  /** A computation that either returns a value or throws. */
  datatype Result<+T> = Ok(value: T) | Err(fault: Fault)

  /** Scalar and array values; closures and other objects are opaque handles. */
  datatype Value =
    | Null
    | Bool(b: bool)
    | Int(i: int)
    | Str(s: string)
    | Arr(entries: seq<(string, Value)>)
    | Closure(id: nat)
    | Opaque(id: nat)

  /** PHP's loose truthiness (`if ($v)`). */
  predicate Truthy(v: Value)
  {
    match v
    case Null => false
    case Bool(b) => b
    case Int(i) => i != 0
    case Str(s) => s != "" && s != "0"
    case Arr(e) => |e| > 0
    case Closure(_) => true
    case Opaque(_) => true
  }

  /** The strict test `$v === false`, which the dispatcher uses as its only veto. */
  predicate IsFalse(v: Value)
  {
    v == Bool(false)
  }

  lemma FalseIsFalsy(v: Value)
    ensures IsFalse(v) ==> !Truthy(v)
    ensures v == Null ==> !Truthy(v) && !IsFalse(v)
  {
  }

  // ---------------------------------------------------------------------------
  // Ordered string-keyed arrays
  // ---------------------------------------------------------------------------

  /** A PHP array with string keys: entries in insertion order. */
  type Assoc<V> = seq<(string, V)>

  function Keys<V>(a: Assoc<V>): seq<string>
  {
    seq(|a|, i requires 0 <= i < |a| => a[i].0)
  }

  /** No key occurs twice, as in every PHP array. */
  predicate Unique<V>(a: Assoc<V>)
  {
    forall i, j :: 0 <= i < j < |a| ==> a[i].0 != a[j].0
  }

  /** `$a[$k] ?? absent`: the value stored under `k`, if any. */
  function Get<V>(a: Assoc<V>, k: string): (r: Option<V>)
    ensures r.None? <==> k !in Keys(a)
  {
    if |a| == 0 then None
    else
      assert Keys(a) == [a[0].0] + Keys(a[1..]);
      if a[0].0 == k then Some(a[0].1) else Get(a[1..], k)
  }

  /** `$a[$k] ?? $default`. */
  function GetOr<V>(a: Assoc<V>, k: string, default: V): V
  {
    match Get(a, k)
    case Some(v) => v
    case None => default
  }

  /**
   * `$a[$k] = $v`: an existing key keeps its position and takes the new value;
   * a new key is appended at the end.
   */
  function Put<V>(a: Assoc<V>, k: string, v: V): (r: Assoc<V>)
    ensures Get(r, k) == Some(v)
    ensures forall j :: j != k ==> Get(r, j) == Get(a, j)
    ensures k in Keys(a) ==> Keys(r) == Keys(a)
    ensures k !in Keys(a) ==> Keys(r) == Keys(a) + [k]
  {
    if |a| == 0 then [(k, v)]
    else if a[0].0 == k then
      var r := [(k, v)] + a[1..];
      assert r[1..] == a[1..];
      assert Keys(r) == Keys(a);
      r
    else
      var tail := Put(a[1..], k, v);
      PutBehindHead(a, k, v, tail);
      [a[0]] + tail
  }

  /** The recursive case of Put: the head stays in front of an updated tail. */
  lemma PutBehindHead<V>(a: Assoc<V>, k: string, v: V, tail: Assoc<V>)
    requires |a| > 0 && a[0].0 != k
    requires Get(tail, k) == Some(v)
    requires forall j :: j != k ==> Get(tail, j) == Get(a[1..], j)
    requires k in Keys(a[1..]) ==> Keys(tail) == Keys(a[1..])
    requires k !in Keys(a[1..]) ==> Keys(tail) == Keys(a[1..]) + [k]
    ensures var r := [a[0]] + tail;
      && Get(r, k) == Some(v)
      && (forall j :: j != k ==> Get(r, j) == Get(a, j))
      && (k in Keys(a) ==> Keys(r) == Keys(a))
      && (k !in Keys(a) ==> Keys(r) == Keys(a) + [k])
  {
    var r := [a[0]] + tail;
    assert r[0] == a[0] && r[1..] == tail;
    assert Keys(a) == [a[0].0] + Keys(a[1..]);
    assert Keys(r) == [a[0].0] + Keys(tail);
  }

  lemma {:induction false} PutKeepsUnique<V>(a: Assoc<V>, k: string, v: V)
    requires Unique(a)
    ensures Unique(Put(a, k, v))
  {
    var r := Put(a, k, v);
    forall i, j | 0 <= i < j < |r| ensures r[i].0 != r[j].0 {
      assert Keys(r)[i] == r[i].0 && Keys(r)[j] == r[j].0;
      if k in Keys(a) {
        assert Keys(a)[i] == a[i].0 && Keys(a)[j] == a[j].0;
      } else if j == |a| {
        assert Keys(a)[i] == a[i].0;
      } else {
        assert Keys(a)[i] == a[i].0 && Keys(a)[j] == a[j].0;
      }
    }
  }

  /** `foreach ($b as $k => $v) $a[$k] = $v;` */
  function PutAll<V>(a: Assoc<V>, b: Assoc<V>): Assoc<V>
    decreases |b|
  {
    if |b| == 0 then a else PutAll(Put(a, b[0].0, b[0].1), b[1..])
  }

  /**
   * The value of the last entry of `b` whose key is `k`: the entry that no
   * later entry with the same key follows.
   */
  function LastValue<V>(b: Assoc<V>, k: string): V
    requires k in Keys(b)
    decreases |b|
  {
    assert Keys(b) == [b[0].0] + Keys(b[1..]);
    if k in Keys(b[1..]) then LastValue(b[1..], k) else b[0].1
  }

  /**
   * Assigning entries one by one leaves every key with the value of its last
   * assignment, and every other key as it was.
   */
  lemma {:induction false} PutAllGet<V>(a: Assoc<V>, b: Assoc<V>, k: string)
    ensures Get(PutAll(a, b), k) == (if k in Keys(b) then Some(LastValue(b, k)) else Get(a, k))
    decreases |b|
  {
    if |b| > 0 {
      var a' := Put(a, b[0].0, b[0].1);
      PutAllGet(a', b[1..], k);
      assert PutAll(a, b) == PutAll(a', b[1..]);
      assert Keys(b) == [b[0].0] + Keys(b[1..]);
      if k in Keys(b[1..]) {
        assert LastValue(b, k) == LastValue(b[1..], k);
      } else if k == b[0].0 {
        assert LastValue(b, k) == b[0].1;
      } else {
        assert Get(a', k) == Get(a, k);
      }
    }
  }

  /** Two duplicate-free arrays with no key in common concatenate to a duplicate-free array. */
  lemma UniqueConcat<V>(a: Assoc<V>, b: Assoc<V>)
    requires Unique(a) && Unique(b)
    requires forall i, j :: 0 <= i < |a| && 0 <= j < |b| ==> a[i].0 != b[j].0
    ensures Unique(a + b)
  {
    var all := a + b;
    forall i, j | 0 <= i < j < |all| ensures all[i].0 != all[j].0 {
      if j < |a| {
        assert all[i] == a[i] && all[j] == a[j];
      } else if i >= |a| {
        assert all[i] == b[i - |a|] && all[j] == b[j - |a|];
      } else {
        assert all[i] == a[i] && all[j] == b[j - |a|];
      }
    }
  }

  lemma {:induction false} PutAllKeepsUnique<V>(a: Assoc<V>, b: Assoc<V>)
    requires Unique(a)
    ensures Unique(PutAll(a, b))
    decreases |b|
  {
    if |b| > 0 {
      PutKeepsUnique(a, b[0].0, b[0].1);
      PutAllKeepsUnique(Put(a, b[0].0, b[0].1), b[1..]);
    }
  }

  /** Copying a duplicate-free array into an empty one yields that array, order included. */
  lemma {:induction false} PutAllIntoEmpty<V>(b: Assoc<V>)
    requires Unique(b)
    ensures PutAll([], b) == b
  {
    PutAllAppend([], b);
  }

  lemma {:induction false} PutAllAppend<V>(a: Assoc<V>, b: Assoc<V>)
    requires Unique(a + b)
    ensures PutAll(a, b) == a + b
    decreases |b|
  {
    if |b| > 0 {
      var k := b[0].0;
      forall i | 0 <= i < |a| ensures Keys(a)[i] != k {
        assert (a + b)[i] == a[i] && (a + b)[|a|] == b[0];
      }
      PutAppendsNew(a, k, b[0].1);
      assert a + b == (a + [b[0]]) + b[1..];
      PutAllAppend(a + [b[0]], b[1..]);
    }
  }

  lemma {:induction false} PutAppendsNew<V>(a: Assoc<V>, k: string, v: V)
    requires k !in Keys(a)
    ensures Put(a, k, v) == a + [(k, v)]
    decreases |a|
  {
    if |a| > 0 {
      assert Keys(a) == [a[0].0] + Keys(a[1..]);
      PutAppendsNew(a[1..], k, v);
      assert [a[0]] + (a[1..] + [(k, v)]) == a + [(k, v)];
    }
  }

  // ---------------------------------------------------------------------------
  // ASCII case helpers (strtoupper / strtolower / ucfirst / lcfirst)
  // ---------------------------------------------------------------------------

  predicate IsUpper(c: char) { 'A' <= c <= 'Z' }
  predicate IsLower(c: char) { 'a' <= c <= 'z' }

  function UpperChar(c: char): (r: char)
    ensures IsLower(c) ==> IsUpper(r) && LowerChar(r) == c
    ensures !IsLower(c) ==> r == c
  {
    if IsLower(c) then (c as int - 32) as char else c
  }

  function LowerChar(c: char): (r: char)
    ensures IsUpper(c) ==> IsLower(r)
    ensures !IsUpper(c) ==> r == c
    ensures !IsUpper(r)
  {
    if IsUpper(c) then (c as int + 32) as char else c
  }

  /** `strtolower`, restricted to ASCII. */
  function Lower(s: string): (r: string)
    ensures |r| == |s|
    ensures forall i :: 0 <= i < |s| ==> r[i] == LowerChar(s[i])
  {
    if |s| == 0 then "" else [LowerChar(s[0])] + Lower(s[1..])
  }

  /** `ucfirst`. */
  function Ucfirst(s: string): (r: string)
    ensures |r| == |s|
    ensures |s| > 0 ==> r[0] == UpperChar(s[0]) && r[1..] == s[1..]
  {
    if |s| == 0 then s else [UpperChar(s[0])] + s[1..]
  }

  /** `lcfirst`. */
  function Lcfirst(s: string): (r: string)
    ensures |r| == |s|
    ensures |s| > 0 ==> r[0] == LowerChar(s[0]) && r[1..] == s[1..]
  {
    if |s| == 0 then s else [LowerChar(s[0])] + s[1..]
  }

  // ---------------------------------------------------------------------------
  // Casts
  // ---------------------------------------------------------------------------

  function DigitValue(c: char): int
  {
    if '0' <= c <= '9' then c as int - '0' as int else 0
  }

  /** Value of the longest run of decimal digits at the start of `s`, with `len` its length. */
  function LeadingDigits(s: string, acc: nat): (r: nat)
    decreases |s|
  {
    if |s| > 0 && '0' <= s[0] <= '9' then LeadingDigits(s[1..], acc * 10 + DigitValue(s[0]))
    else acc
  }

  /** The whitespace a numeric string may start with: space, tab, newline, carriage return, vertical tab, form feed. */
  predicate IsSpace(c: char)
  {
    c == ' ' || c == '\t' || c == '\n' || c == '\r' || c == '\U{0B}' || c == '\U{0C}'
  }

  /** `s` without its leading whitespace. */
  function SkipSpace(s: string): (r: string)
    ensures |r| <= |s| && r == s[|s| - |r|..]
    ensures forall i :: 0 <= i < |s| - |r| ==> IsSpace(s[i])
    ensures |r| > 0 ==> !IsSpace(r[0])
    decreases |s|
  {
    if |s| > 0 && IsSpace(s[0]) then
      var r := SkipSpace(s[1..]);
      assert forall i :: 1 <= i < |s| - |r| ==> s[i] == s[1..][i - 1];
      r
    else s
  }

  /** A numeric string read as an integer: leading whitespace, an optional sign, then leading digits. */
  function StrToInt(s: string): int
  {
    var t := SkipSpace(s);
    if |t| > 0 && t[0] == '-' then -(LeadingDigits(t[1..], 0) as int)
    else if |t| > 0 && t[0] == '+' then LeadingDigits(t[1..], 0)
    else LeadingDigits(t, 0)
  }

  lemma {:induction false} SkipSpacePrefix(w: string, s: string)
    requires forall i :: 0 <= i < |w| ==> IsSpace(w[i])
    ensures SkipSpace(w + s) == SkipSpace(s)
    decreases |w|
  {
    if |w| > 0 {
      var ws := w + s;
      assert ws[0] == w[0] && IsSpace(ws[0]);
      assert SkipSpace(ws) == SkipSpace(ws[1..]);
      assert ws[1..] == w[1..] + s;
      SkipSpacePrefix(w[1..], s);
    } else {
      assert w + s == s;
    }
  }

  /** Whitespace in front of a numeric string does not change the number it is read as. */
  lemma LeadingSpaceIgnored(w: string, s: string)
    requires forall i :: 0 <= i < |w| ==> IsSpace(w[i])
    ensures StrToInt(w + s) == StrToInt(s)
  {
    SkipSpacePrefix(w, s);
  }

  /** `(int) $v` for the values modelled; strings are read by StrToInt. */
  function ToInt(v: Value): int
  {
    match v
    case Null => 0
    case Bool(b) => if b then 1 else 0
    case Int(i) => i
    case Str(s) => StrToInt(s)
    case Arr(e) => if |e| > 0 then 1 else 0
    case Closure(_) => 1
    case Opaque(_) => 1
  }

  function NatToString(n: nat): (r: string)
    ensures |r| > 0
    ensures forall i :: 0 <= i < |r| ==> '0' <= r[i] <= '9'
  {
    var d := ['0' + (n % 10) as char];
    if n < 10 then d else NatToString(n / 10) + d
  }

  /** `(string) $v`; arrays stringify as "Array" and objects without `__toString` fail. */
  function ToStr(v: Value): Result<string>
  {
    match v
    case Null => Ok("")
    case Bool(b) => Ok(if b then "1" else "")
    case Int(i) => Ok(if i < 0 then "-" + NatToString(-i) else NatToString(i))
    case Str(s) => Ok(s)
    case Arr(_) => Ok("Array")
    case Closure(_) => Err(NotStringable)
    case Opaque(_) => Err(NotStringable)
  }
}
