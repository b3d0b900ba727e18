/**
 * The key-name conversions shared by PropertyMapper and GetterSetterMapper
 * (src/Mappers/PropertyMapper.php, src/Mappers/GetterSetterMapper.php):
 *
 *  - `Studly`: dashes and underscores become blanks, every word is
 *    capitalised, and the blanks are removed;
 *  - `Camel`: the same with the first character lower-cased;
 *  - `Snake`: a name that is all lowercase letters is kept; any other name
 *    gets an underscore before each capital that follows a character other
 *    than a newline (matches never overlap),
 *    and is then lower-cased.
 *
 * Strings are ASCII; locale and multibyte behaviour are not modelled.
 */
module KeyCase {
  import opened Php

  // ---------------------------------------------------------------------------
  // snake_case -> StudlyCase / camelCase
  // ---------------------------------------------------------------------------

  /** `str_replace(['-', '_'], ' ', $s)`. */
  function DashesToSpaces(s: string): (r: string)
    ensures |r| == |s|
    ensures forall i :: 0 <= i < |s| ==> r[i] == (if s[i] == '-' || s[i] == '_' then ' ' else s[i])
  {
    if |s| == 0 then "" else [if s[0] == '-' || s[0] == '_' then ' ' else s[0]] + DashesToSpaces(s[1..])
  }

  /** The characters `ucwords` treats as word delimiters by default: " \t\r\n\f\v". */
  predicate IsWordDelimiter(c: char)
  {
    c == ' ' || c == '\t' || c == '\r' || c == '\n' || c as int == 11 || c as int == 12
  }

  /** `ucwords` on a suffix; `start` says whether the previous character ended a word. */
  function UcWordsFrom(s: string, start: bool): (r: string)
    ensures |r| == |s|
    ensures forall i :: 0 <= i < |s| ==>
      r[i] == (if (if i == 0 then start else IsWordDelimiter(s[i - 1])) then UpperChar(s[i]) else s[i])
  {
    if |s| == 0 then ""
    else
      var tail := UcWordsFrom(s[1..], IsWordDelimiter(s[0]));
      var r := [if start then UpperChar(s[0]) else s[0]] + tail;
      assert forall i :: 1 <= i < |s| ==> r[i] == tail[i - 1] && s[1..][i - 1] == s[i];
      r
  }

  /** `ucwords($s)`: upper-cases the first character and every character after a delimiter. */
  function UcWords(s: string): (r: string)
    ensures |r| == |s|
    ensures forall i :: 0 <= i < |s| ==>
      r[i] == (if i == 0 || IsWordDelimiter(s[i - 1]) then UpperChar(s[i]) else s[i])
  {
    UcWordsFrom(s, true)
  }

  /** `str_replace($c, '', $s)` for a single character `c`. */
  function Without(s: string, c: char): (r: string)
    ensures |r| <= |s|
    ensures forall i :: 0 <= i < |r| ==> r[i] != c
  {
    if |s| == 0 then "" else (if s[0] == c then "" else [s[0]]) + Without(s[1..], c)
  }

  /**
   * Only the occurrences of `c` go: every other character stays, as often
   * as it occurred. With WithoutConcat this pins the result down: the other
   * characters, in their order.
   */
  lemma WithoutKeepsOthers(s: string, c: char)
    ensures |Without(s, c)| == |s| - multiset(s)[c]
    ensures forall d :: d != c ==> multiset(Without(s, c))[d] == multiset(s)[d]
  {
    WithoutLength(s, c);
    WithoutMultiset(s, c);
  }

  lemma {:induction false} WithoutLength(s: string, c: char)
    ensures |Without(s, c)| == |s| - multiset(s)[c]
    decreases |s|
  {
    if |s| > 0 {
      var t := s[1..];
      WithoutLength(t, c);
      assert s == [s[0]] + t;
      assert multiset(s)[c] == multiset(t)[c] + (if s[0] == c then 1 else 0);
    }
  }

  lemma {:induction false} WithoutMultiset(s: string, c: char)
    ensures multiset(Without(s, c)) == multiset(s)[c := 0]
    decreases |s|
  {
    if |s| > 0 {
      var t := s[1..];
      var h := if s[0] == c then "" else [s[0]];
      WithoutMultiset(t, c);
      assert s == [s[0]] + t;
      assert multiset(s) == multiset([s[0]]) + multiset(t);
      assert Without(s, c) == h + Without(t, c);
      assert multiset(Without(s, c)) == multiset(h) + multiset(t)[c := 0];
    } else {
      assert multiset(s) == multiset{};
    }
  }

  lemma {:induction false} WithoutConcat(a: string, b: string, c: char)
    ensures Without(a + b, c) == Without(a, c) + Without(b, c)
    decreases |a|
  {
    if |a| == 0 {
      assert a + b == b;
    } else {
      assert (a + b)[0] == a[0] && (a + b)[1..] == a[1..] + b;
      WithoutConcat(a[1..], b, c);
      var x := if a[0] == c then "" else [a[0]];
      assert Without(a, c) == x + Without(a[1..], c);
      assert Without(a + b, c) == x + Without(a[1..] + b, c);
      assert x + (Without(a[1..], c) + Without(b, c)) == (x + Without(a[1..], c)) + Without(b, c);
    }
  }

  /** StudlyCase of an attribute key: 'foo_attribute' becomes 'FooAttribute'. */
  function Studly(key: string): (r: string)
    ensures |r| <= |key|
    ensures forall i :: 0 <= i < |r| ==> r[i] != ' '
    ensures NoDashOrBlank(key) ==> r == Humps(key, true)
  {
    var r := Without(UcWords(DashesToSpaces(key)), ' ');
    assert NoDashOrBlank(key) ==> r == Humps(key, true) by {
      if NoDashOrBlank(key) {
        StudlyIsHumps(key, true);
      }
    }
    r
  }

  /** camelCase of an attribute key: 'foo_property' becomes 'fooProperty'. */
  function Camel(key: string): (r: string)
    ensures |r| == |Studly(key)|
    ensures |r| > 0 ==> !IsUpper(r[0]) && r[1..] == Studly(key)[1..]
  {
    Lcfirst(Studly(key))
  }

  // ---------------------------------------------------------------------------
  // camelCase -> snake_case
  // ---------------------------------------------------------------------------

  /** `ctype_lower($s)`: non-empty and made only of lowercase letters. */
  predicate CtypeLower(s: string)
  {
    |s| > 0 && forall i :: 0 <= i < |s| ==> IsLower(s[i])
  }

  predicate NoUpper(s: string)
  {
    forall i :: 0 <= i < |s| ==> !IsUpper(s[i])
  }

  /**
   * `preg_replace('/(.)([A-Z])/', '$1_$2', $s)`: scanning left to right, a
   * character other than a newline followed by an uppercase letter is
   * matched, an underscore is put between the two, and scanning resumes
   * AFTER the uppercase letter, so matches never overlap.
   */
  function SplitHumps(s: string): (r: string)
    ensures |r| >= |s|
    ensures |s| > 0 ==> |r| > 0 && r[0] == s[0]
    decreases |s|
  {
    if |s| < 2 then s
    else if s[0] != '\n' && IsUpper(s[1]) then [s[0], '_', s[1]] + SplitHumps(s[2..])
    else [s[0]] + SplitHumps(s[1..])
  }

  lemma SplitHumpsAtMatch(x: string)
    requires |x| >= 2 && x[0] != '\n' && IsUpper(x[1])
    ensures SplitHumps(x) == [x[0], '_', x[1]] + SplitHumps(x[2..])
  {
  }

  lemma SplitHumpsAtNoMatch(x: string)
    requires |x| >= 2 && !IsUpper(x[1])
    ensures SplitHumps(x) == [x[0]] + SplitHumps(x[1..])
  {
  }

  lemma WithoutDropsUnderscore(x: char, y: char)
    ensures Without([x, '_', y], '_') == Without([x, y], '_')
  {
    assert [x, '_', y][1..] == ['_', y];
    assert ['_', y][1..] == [y] == [x, y][1..];
  }

  /** The rewrite only ever inserts underscores: deleting all underscores on both sides agrees. */
  lemma {:induction false} SplitHumpsOnlyInsertsUnderscores(s: string)
    ensures Without(SplitHumps(s), '_') == Without(s, '_')
    decreases |s|
  {
    if |s| >= 2 {
      if s[0] != '\n' && IsUpper(s[1]) {
        SplitHumpsOnlyInsertsUnderscores(s[2..]);
        SplitHumpsAtMatch(s);
        WithoutConcat([s[0], '_', s[1]], SplitHumps(s[2..]), '_');
        WithoutDropsUnderscore(s[0], s[1]);
        WithoutConcat([s[0], s[1]], s[2..], '_');
        assert s == [s[0], s[1]] + s[2..];
      } else {
        SplitHumpsOnlyInsertsUnderscores(s[1..]);
        WithoutConcat([s[0]], SplitHumps(s[1..]), '_');
        WithoutConcat([s[0]], s[1..], '_');
        assert s == [s[0]] + s[1..];
      }
    }
  }

  /** The snake_case column name for a property or accessor name. */
  function Snake(name: string): (r: string)
    ensures NoUpper(r)
    ensures NoUpper(name) ==> r == name
  {
    if CtypeLower(name) then name
    else
      if NoUpper(name) then
        SplitHumpsNoUpper(name);
        Lower(SplitHumps(name))
      else Lower(SplitHumps(name))
  }

  lemma {:induction false} SplitHumpsNoUpper(s: string)
    requires NoUpper(s)
    ensures SplitHumps(s) == s
    decreases |s|
  {
    if |s| >= 2 {
      SplitHumpsNoUpper(s[1..]);
      assert s == [s[0]] + s[1..];
    }
  }

  /**
   * The `ctype_lower` shortcut in `map` is only an optimisation: the full
   * rewrite gives the same answer on every name.
   */
  lemma SnakeIsRewriteThenLower(name: string)
    ensures Snake(name) == Lower(SplitHumps(name))
  {
    if CtypeLower(name) {
      SplitHumpsNoUpper(name);
    }
  }

  // ---------------------------------------------------------------------------
  // The round trip snake -> camel -> snake
  // ---------------------------------------------------------------------------

  predicate SnakeAlphabet(k: string)
  {
    forall i :: 0 <= i < |k| ==> IsLower(k[i]) || k[i] == '_'
  }

  /**
   * Underscores only separate non-empty words: none at either end, never two
   * in a row, and no one-letter word between two underscores.
   */
  predicate WellSeparated(k: string)
  {
    && (|k| > 0 ==> k[0] != '_' && k[|k| - 1] != '_')
    && (forall i :: 0 <= i < |k| - 1 && k[i] == '_' ==> k[i + 1] != '_')
    && (forall i :: 0 <= i < |k| - 2 && k[i] == '_' ==> k[i + 2] != '_')
  }

  /**
   * The keys that survive fill-then-map: lowercase words joined by single
   * underscores in which every word strictly inside the key has at least two
   * letters ('foo_property', 'a_bc', 'ab_c'; not 'a_b_c').
   */
  predicate IsSnakeKey(k: string)
  {
    SnakeAlphabet(k) && WellSeparated(k)
  }

  /** Studly/camel conversion of a snake-alphabet key, read off directly. */
  function Humps(s: string, cap: bool): string
  {
    if |s| == 0 then ""
    else if s[0] == '_' then Humps(s[1..], true)
    else [if cap then UpperChar(s[0]) else s[0]] + Humps(s[1..], false)
  }

  /** No dash and no blank: the characters on which Studly is read off by Humps. */
  predicate NoDashOrBlank(s: string)
  {
    forall i :: 0 <= i < |s| ==> s[i] != '-' && !IsWordDelimiter(s[i])
  }

  lemma {:induction false} StudlyIsHumps(s: string, cap: bool)
    requires NoDashOrBlank(s)
    ensures Without(UcWordsFrom(DashesToSpaces(s), cap), ' ') == Humps(s, cap)
    decreases |s|
  {
    if |s| > 0 {
      var d := DashesToSpaces(s);
      assert d[1..] == DashesToSpaces(s[1..]);
      var u := UcWordsFrom(d, cap);
      assert u[1..] == UcWordsFrom(d[1..], IsWordDelimiter(d[0]));
      assert u == [u[0]] + u[1..];
      StudlyIsHumps(s[1..], IsWordDelimiter(d[0]));
    }
  }

  /** On a key that starts with a letter, camelCase is Humps without capitalising the first letter. */
  lemma CamelIsHumps(k: string)
    requires NoDashOrBlank(k) && (|k| > 0 ==> k[0] != '_' && !IsUpper(k[0]))
    ensures Camel(k) == Humps(k, false)
  {
    StudlyIsHumps(k, true);
    if |k| > 0 {
      assert Humps(k, true) == [UpperChar(k[0])] + Humps(k[1..], false);
    }
  }

  lemma {:induction false} SnakeOfHumps(k: string)
    requires IsSnakeKey(k)
    ensures Lower(SplitHumps(Humps(k, false))) == k
    decreases |k|
  {
    if |k| == 1 {
      assert Humps(k, false) == k;
    } else if |k| > 1 && k[1] != '_' {
      assert IsSnakeKey(k[1..]);
      SnakeOfHumps(k[1..]);
      SnakeOfHumpsLetter(k);
    } else if |k| > 1 {
      assert |k| >= 3 && k[2] != '_';
      assert |k[3..]| > 0 ==> k[3..][0] == k[3] && k[3] != '_';
      assert IsSnakeKey(k[3..]);
      SnakeOfHumps(k[3..]);
      SnakeOfHumpsUnderscore(k);
    }
  }

  lemma LowerConcat(a: string, b: string)
    ensures Lower(a + b) == Lower(a) + Lower(b)
  {
    forall i | 0 <= i < |a + b| ensures Lower(a + b)[i] == (Lower(a) + Lower(b))[i] {
      if i < |a| {
        assert (a + b)[i] == a[i];
      } else {
        assert (a + b)[i] == b[i - |a|];
      }
    }
  }

  /** Induction step of SnakeOfHumps when the key continues with a letter. */
  lemma SnakeOfHumpsLetter(k: string)
    requires |k| >= 2 && IsLower(k[0]) && IsLower(k[1])
    requires Lower(SplitHumps(Humps(k[1..], false))) == k[1..]
    ensures Lower(SplitHumps(Humps(k, false))) == k
  {
    var h := Humps(k[1..], false);
    assert Humps(k, false) == [k[0]] + h;
    assert h == [k[1]] + Humps(k[2..], false) by {
      assert k[1..][1..] == k[2..];
    }
    var x := [k[0]] + h;
    assert x[1..] == h;
    SplitHumpsAtNoMatch(x);
    LowerConcat([k[0]], SplitHumps(h));
    assert Lower([k[0]]) == [k[0]];
    assert k == [k[0]] + k[1..];
  }

  lemma HumpsAcrossUnderscore(k: string)
    requires |k| >= 3 && IsLower(k[0]) && k[1] == '_' && IsLower(k[2])
    ensures Humps(k, false) == [k[0], UpperChar(k[2])] + Humps(k[3..], false)
  {
    assert k[1..][1..] == k[2..] && k[2..][1..] == k[3..];
    assert Humps(k[1..], false) == Humps(k[2..], true);
  }

  /** Induction step of SnakeOfHumps across an underscore. */
  lemma SnakeOfHumpsUnderscore(k: string)
    requires |k| >= 3 && IsLower(k[0]) && k[1] == '_' && IsLower(k[2])
    requires Lower(SplitHumps(Humps(k[3..], false))) == k[3..]
    ensures Lower(SplitHumps(Humps(k, false))) == k
  {
    var u := UpperChar(k[2]);
    var h := Humps(k[3..], false);
    HumpsAcrossUnderscore(k);
    var x := [k[0], u] + h;
    assert x[0] == k[0] && x[1] == u && x[2..] == h;
    SplitHumpsAtMatch(x);
    LowerConcat([k[0], '_', u], SplitHumps(h));
    assert Lower([k[0], '_', u]) == [k[0], '_', k[2]];
    assert k == [k[0], '_', k[2]] + k[3..];
  }


  /**
   * Round trip: a snake key converted to a property name by `fill` and back
   * by `map` is the key itself.
   */
  lemma RoundTrip(k: string)
    requires IsSnakeKey(k)
    ensures Snake(Camel(k)) == k
  {
    CamelIsHumps(k);
    SnakeIsRewriteThenLower(Camel(k));
    SnakeOfHumps(k);
  }

  predicate IsLetter(c: char) { IsLower(c) || IsUpper(c) }

  predicate Letters(s: string)
  {
    forall i :: 0 <= i < |s| ==> IsLetter(s[i])
  }

  lemma {:induction false} HumpsLetters(s: string, cap: bool)
    requires SnakeAlphabet(s)
    ensures Letters(Humps(s, cap))
    decreases |s|
  {
    if |s| > 0 {
      HumpsLetters(s[1..], s[0] == '_');
    }
  }

  /** Whatever letters-only name `map` rewrites, the result is a well separated snake key. */
  lemma {:induction false} SplitHumpsShape(x: string)
    requires Letters(x)
    ensures WellSeparated(SplitHumps(x))
    ensures forall i :: 0 <= i < |SplitHumps(x)| ==> IsLetter(SplitHumps(x)[i]) || SplitHumps(x)[i] == '_'
    decreases |x|
  {
    if |x| >= 2 {
      if IsUpper(x[1]) {
        var t := SplitHumps(x[2..]);
        SplitHumpsShape(x[2..]);
        var r := [x[0], '_', x[1]] + t;
        assert |t| > 0 ==> t[0] == x[2];
        forall i | 0 <= i < |r| - 1 && r[i] == '_' ensures r[i + 1] != '_' {
          if i >= 3 { assert r[i] == t[i - 3] && r[i + 1] == t[i - 2]; }
        }
        forall i | 0 <= i < |r| - 2 && r[i] == '_' ensures r[i + 2] != '_' {
          if i >= 3 { assert r[i] == t[i - 3] && r[i + 2] == t[i - 1]; }
        }
        assert |t| > 0 ==> r[|r| - 1] == t[|t| - 1];
        forall i | 0 <= i < |r| ensures IsLetter(r[i]) || r[i] == '_' {
          if i >= 3 { assert r[i] == t[i - 3]; }
        }
      } else {
        var t := SplitHumps(x[1..]);
        SplitHumpsShape(x[1..]);
        var r := [x[0]] + t;
        assert t[0] == x[1];
        forall i | 0 <= i < |r| - 1 && r[i] == '_' ensures r[i + 1] != '_' {
          assert r[i] == t[i - 1] && r[i + 1] == t[i];
        }
        forall i | 0 <= i < |r| - 2 && r[i] == '_' ensures r[i + 2] != '_' {
          assert r[i] == t[i - 1] && r[i + 2] == t[i + 1];
        }
        assert r[|r| - 1] == t[|t| - 1];
        forall i | 0 <= i < |r| ensures IsLetter(r[i]) || r[i] == '_' {
          if i >= 1 { assert r[i] == t[i - 1]; }
        }
      }
    }
  }

  /** `map` turns every letters-only name into a snake key. */
  lemma SnakeOfLettersIsSnakeKey(x: string)
    requires Letters(x)
    ensures IsSnakeKey(Snake(x))
  {
    SnakeIsRewriteThenLower(x);
    SplitHumpsShape(x);
    var r := SplitHumps(x);
    var l := Lower(r);
    assert forall i :: 0 <= i < |r| ==> (l[i] == '_' <==> r[i] == '_');
  }

  /**
   * The precondition of RoundTrip is exact: over lowercase letters and
   * underscores, a key survives fill-then-map if and only if it is a snake key.
   */
  lemma RoundTripExactly(k: string)
    requires SnakeAlphabet(k)
    ensures Snake(Camel(k)) == k <==> IsSnakeKey(k)
  {
    if IsSnakeKey(k) {
      RoundTrip(k);
    } else {
      StudlyIsHumps(k, true);
      HumpsLetters(k, true);
      var h := Humps(k, true);
      assert Letters(Lcfirst(h)) by {
        if |h| > 0 {
          assert Lcfirst(h)[0] == LowerChar(h[0]);
        }
      }
      SnakeOfLettersIsSnakeKey(Camel(k));
    }
  }

  // ---------------------------------------------------------------------------
  // Worked examples
  // ---------------------------------------------------------------------------

  /** A run without underscores is copied, only its first character possibly capitalised. */
  lemma {:induction false} HumpsWord(w: string, cap: bool)
    requires |w| > 0 && forall i :: 0 <= i < |w| ==> w[i] != '_'
    ensures Humps(w, cap) == [if cap then UpperChar(w[0]) else w[0]] + w[1..]
    decreases |w|
  {
    if |w| > 1 {
      HumpsWord(w[1..], false);
      assert w[1..] == [w[1]] + w[2..];
    }
  }

  /** An underscore after a word makes the next word start with a capital. */
  lemma {:induction false} HumpsJoin(w: string, rest: string, cap: bool)
    requires |w| > 0 && forall i :: 0 <= i < |w| ==> w[i] != '_'
    ensures Humps(w + "_" + rest, cap) == Humps(w, cap) + Humps(rest, true)
    decreases |w|
  {
    var s := w + "_" + rest;
    assert s[0] == w[0];
    if |w| == 1 {
      assert s[1..] == "_" + rest;
      assert ("_" + rest)[1..] == rest;
    } else {
      assert s[1..] == w[1..] + "_" + rest;
      HumpsJoin(w[1..], rest, false);
    }
  }

  /** A word predicate for the two-word examples: lowercase letters only. */
  predicate LowerWord(w: string)
  {
    |w| > 0 && forall i :: 0 <= i < |w| ==> IsLower(w[i])
  }

  /** Two lowercase words joined by an underscore camel-case to one hump. */
  lemma CamelTwoWords(w: string, v: string)
    requires LowerWord(w) && LowerWord(v)
    ensures Camel(w + "_" + v) == w + [UpperChar(v[0])] + v[1..]
    ensures Studly(w + "_" + v) == [UpperChar(w[0])] + w[1..] + [UpperChar(v[0])] + v[1..]
  {
    var k := w + "_" + v;
    forall i | 0 <= i < |k| ensures k[i] != '-' && !IsWordDelimiter(k[i]) {
      if i < |w| { assert k[i] == w[i]; }
      else if i > |w| { assert k[i] == v[i - |w| - 1]; }
    }
    assert NoDashOrBlank(k);
    StudlyIsHumps(k, true);
    CamelIsHumps(k);
    HumpsJoin(w, v, false);
    HumpsJoin(w, v, true);
    HumpsWord(w, false);
    HumpsWord(w, true);
    HumpsWord(v, true);
  }

  /** An underscore goes before each capital that follows a lower-case letter. */
  lemma SnakeFooBar()
    ensures Snake("fooBar") == "foo_bar"
  {
    SnakeIsRewriteThenLower("fooBar");
    SplitHumpsAtNoMatch("fooBar");
    assert "fooBar"[1..] == "ooBar";
    SplitHumpsAtNoMatch("ooBar");
    assert "ooBar"[1..] == "oBar";
    SplitHumpsAtMatch("oBar");
    assert "oBar"[2..] == "ar";
    SplitHumpsAtNoMatch("ar");
    assert SplitHumps("fooBar") == "foo_Bar";
  }

  /** Only the first capital of a run follows a lower-case letter, so a run of capitals stays one word. */
  lemma SnakeABC()
    ensures Snake("aBC") == "a_bc"
  {
    SnakeIsRewriteThenLower("aBC");
    SplitHumpsAtMatch("aBC");
    assert "aBC"[2..] == "C";
    assert SplitHumps("aBC") == "a_BC";
  }

  /**
   * Keys outside the snake-key shape that do not survive the round trip: a
   * one-letter word between underscores merges with the next word ...
   */
  lemma {:induction false} OneLetterWordMerges(x: char, y: char, z: char)
    requires IsLower(x) && IsLower(y) && IsLower(z)
    ensures Camel([x] + "_" + [y] + "_" + [z]) == [x, UpperChar(y), UpperChar(z)]
    ensures Snake(Camel([x] + "_" + [y] + "_" + [z])) == [x, '_', y, z]
  {
    OneLetterWordsCamel(x, y, z);
    var c := [x, UpperChar(y), UpperChar(z)];
    SnakeIsRewriteThenLower(c);
    SplitHumpsAtMatch(c);
    assert c[2..] == [UpperChar(z)];
    assert SplitHumps(c) == [x, '_', UpperChar(y), UpperChar(z)];
  }

  lemma {:induction false} OneLetterWordsCamel(x: char, y: char, z: char)
    requires IsLower(x) && IsLower(y) && IsLower(z)
    ensures Camel([x] + "_" + [y] + "_" + [z]) == [x, UpperChar(y), UpperChar(z)]
  {
    var k := [x] + "_" + [y] + "_" + [z];
    assert k == [x, '_', y, '_', z];
    assert NoDashOrBlank(k);
    CamelIsHumps(k);
    HumpsOfOneLetterWords(x, y, z);
  }

  lemma HumpsOfOneLetterWords(x: char, y: char, z: char)
    requires IsLower(x) && IsLower(y) && IsLower(z)
    ensures Humps([x] + "_" + [y] + "_" + [z], false) == [x, UpperChar(y), UpperChar(z)]
  {
    assert [x] + "_" + [y] + "_" + [z] == [x] + "_" + ([y] + "_" + [z]);
    HumpsJoin([x], [y] + "_" + [z], false);
    HumpsJoin([y], [z], true);
    HumpsWord([x], false);
    HumpsWord([y], true);
    HumpsWord([z], true);
  }

  /** ... and a word that starts with a digit loses its underscore. */
  lemma {:induction false} DigitWordMerges(w: string, v: string)
    requires LowerWord(w)
    requires |v| > 0 && '0' <= v[0] <= '9'
    requires forall i :: 0 <= i < |v| ==> IsLower(v[i]) || '0' <= v[i] <= '9'
    ensures Camel(w + "_" + v) == w + v
    ensures Snake(Camel(w + "_" + v)) == w + v
  {
    CamelOfDigitWord(w, v);
    var r := w + v;
    forall i | 0 <= i < |r| ensures !IsUpper(r[i]) {
      if i < |w| { assert r[i] == w[i]; } else { assert r[i] == v[i - |w|]; }
    }
    assert NoUpper(r);
  }

  lemma {:induction false} CamelOfDigitWord(w: string, v: string)
    requires LowerWord(w)
    requires |v| > 0 && '0' <= v[0] <= '9'
    requires forall i :: 0 <= i < |v| ==> IsLower(v[i]) || '0' <= v[i] <= '9'
    ensures Camel(w + "_" + v) == w + v
  {
    var k := w + "_" + v;
    forall i | 0 <= i < |k| ensures k[i] != '-' && !IsWordDelimiter(k[i]) {
      if i < |w| { assert k[i] == w[i]; }
      else if i > |w| { assert k[i] == v[i - |w| - 1]; }
    }
    CamelIsHumps(k);
    HumpsJoin(w, v, false);
    HumpsWord(w, false);
    HumpsWord(v, true);
    assert [w[0]] + w[1..] == w;
    assert [UpperChar(v[0])] + v[1..] == v;
  }
}
