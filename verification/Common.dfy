/** Values shared by the models: options, Python's string order and white space. */
module Common {

  datatype Option<+T> = None | Some(value: T)

  /** Python compares strings code point by code point, a proper prefix first. */
  predicate StringLe(a: string, b: string)
  {
    a == [] || (b != [] && (a[0] < b[0] || (a[0] == b[0] && StringLe(a[1..], b[1..]))))
  }

  lemma {:induction false} StringLeTotal(a: string, b: string)
    ensures StringLe(a, b) || StringLe(b, a)
    ensures StringLe(a, b) && StringLe(b, a) ==> a == b
  {
    if a != [] && b != [] && a[0] == b[0] {
      StringLeTotal(a[1..], b[1..]);
      assert a == [a[0]] + a[1..] && b == [b[0]] + b[1..];
    }
  }

  lemma {:induction false} StringLeTransitive(a: string, b: string, c: string)
    requires StringLe(a, b) && StringLe(b, c)
    ensures StringLe(a, c)
  {
    if a != [] && a[0] == b[0] == c[0] {
      StringLeTransitive(a[1..], b[1..], c[1..]);
    }
  }

  /** The first difference decides, and without one the shorter string comes first. */
  lemma {:induction false} FirstDifferenceDecides(front: string, c: char, d: char, a: string, b: string)
    requires c < d
    ensures StringLe(front + [c] + a, front + [d] + b) && !StringLe(front + [d] + b, front + [c] + a)
    ensures StringLe(front, front + [c]) && !StringLe(front + [c], front)
  {
    if front != "" {
      FirstDifferenceDecides(front[1..], c, d, a, b);
      assert (front + [c] + a)[1..] == front[1..] + [c] + a && (front + [d] + b)[1..] == front[1..] + [d] + b;
      assert (front + [c])[1..] == front[1..] + [c];
    } else {
      assert "" + [c] + a == [c] + a && "" + [d] + b == [d] + b;
    }
  }

  /** Ascending, without repetition: what Python's sorted() makes of a set. */
  predicate StrictlySorted(s: seq<string>)
  {
    forall i, j :: 0 <= i < j < |s| ==> StringLe(s[i], s[j]) && s[i] != s[j]
  }

  /** x is before every name of the list. */
  predicate Before(x: string, s: seq<string>)
  {
    forall y :: y in s ==> StringLe(x, y) && x != y
  }

  lemma BeforeRest(s: seq<string>)
    requires s != [] && StrictlySorted(s)
    ensures Before(s[0], s[1..]) && StrictlySorted(s[1..])
  {
    assert forall j :: 0 <= j < |s[1..]| ==> s[1..][j] == s[j + 1];
  }

  lemma BeforeAll(x: string, s: seq<string>)
    requires s != [] && StrictlySorted(s) && StringLe(x, s[0]) && x != s[0]
    ensures Before(x, s)
  {
    BeforeRest(s);
    forall y | y in s ensures StringLe(x, y) && x != y {
      if y != s[0] {
        assert y in s[1..];
        StringLeTransitive(x, s[0], y);
        StringLeTotal(x, s[0]);
      }
    }
  }

  lemma SortedCons(x: string, s: seq<string>)
    requires Before(x, s) && StrictlySorted(s)
    ensures StrictlySorted([x] + s)
  {
    assert forall j :: 0 <= j < |s| ==> s[j] in s;
  }

  /** sorted({x} | set(s)) for an ascending s. */
  function InsertName(x: string, s: seq<string>): (r: seq<string>)
    requires StrictlySorted(s)
    ensures StrictlySorted(r)
    ensures forall y :: y in r <==> y == x || y in s
  {
    if s == [] then [x]
    else if s[0] == x then s
    else if StringLe(x, s[0]) then
      BeforeAll(x, s);
      SortedCons(x, s);
      [x] + s
    else
      BeforeRest(s);
      StringLeTotal(x, s[0]);
      SortedCons(s[0], InsertName(x, s[1..]));
      assert forall y :: y in s <==> y == s[0] || y in s[1..];
      [s[0]] + InsertName(x, s[1..])
  }

  /** sorted(set(names)) */
  function SortedNames(names: seq<string>): (r: seq<string>)
    ensures StrictlySorted(r)
    ensures forall y :: y in r <==> y in names
  {
    if names == [] then [] else InsertName(names[0], SortedNames(names[1..]))
  }

  /** An ascending list without repetition is determined by its members. */
  lemma {:induction false} StrictlySortedUnique(a: seq<string>, b: seq<string>)
    requires StrictlySorted(a) && StrictlySorted(b)
    requires forall y :: y in a <==> y in b
    ensures a == b
  {
    assert a != [] ==> a[0] in b;
    assert b != [] ==> b[0] in a;
    if a != [] {
      StringLeTotal(a[0], b[0]);
      assert a[0] == b[0];
      forall y ensures y in a[1..] <==> y in b[1..] {
        assert y in a[1..] ==> y in a && y != a[0];
        assert y in b[1..] ==> y in b && y != b[0];
      }
      StrictlySortedUnique(a[1..], b[1..]);
      assert a == [a[0]] + a[1..] && b == [b[0]] + b[1..];
    }
  }

  /** str.strip() and String.trim() for a given notion of white space. */
  function Trim(s: string, space: char -> bool): (r: string)
    ensures Trimmed(r, space)
    ensures r == [] <==> forall k :: 0 <= k < |s| ==> space(s[k])
    ensures forall c :: c in r ==> c in s
    ensures Trimmed(s, space) ==> r == s
    decreases |s|
  {
    if s == [] then []
    else if space(s[0]) then
      var r := Trim(s[1..], space);
      assert forall k :: 1 <= k < |s| ==> s[k] == s[1..][k - 1];
      r
    else if space(s[|s| - 1]) then
      var r := Trim(s[..|s| - 1], space);
      assert s[0] == s[..|s| - 1][0];
      r
    else
      s
  }

  /** What is cut off at either end is white space. */
  lemma {:induction false} TrimCutsSpace(s: string, space: char -> bool) returns (front: string, back: string)
    ensures s == front + Trim(s, space) + back
    ensures forall c :: c in front + back ==> space(c)
    decreases |s|
  {
    if s != "" && space(s[0]) {
      front, back := TrimCutsSpace(s[1..], space);
      front := [s[0]] + front;
    } else if s != "" && space(s[|s| - 1]) {
      front, back := TrimCutsSpace(s[..|s| - 1], space);
      back := back + [s[|s| - 1]];
    } else {
      front, back := "", "";
    }
  }

  predicate Trimmed(s: string, space: char -> bool)
  {
    s == [] || (!space(s[0]) && !space(s[|s| - 1]))
  }

  /** The characters Python's str.strip() removes. */
  predicate PythonSpace(c: char)
  {
    '\U{09}' <= c <= '\U{0D}' || '\U{1C}' <= c <= '\U{20}' || c == '\U{85}' || c == '\U{A0}' ||
    c == '\U{1680}' || '\U{2000}' <= c <= '\U{200A}' || c == '\U{2028}' || c == '\U{2029}' ||
    c == '\U{202F}' || c == '\U{205F}' || c == '\U{3000}'
  }

  /** White space and line terminators of ECMAScript, which String.trim() removes. */
  predicate ScriptSpace(c: char)
  {
    '\U{09}' <= c <= '\U{0D}' || c == ' ' || c == '\U{A0}' || c == '\U{FEFF}' || c == '\U{1680}' ||
    '\U{2000}' <= c <= '\U{200A}' || c == '\U{2028}' || c == '\U{2029}' || c == '\U{202F}' ||
    c == '\U{205F}' || c == '\U{3000}'
  }

  function AsciiLower(c: char): char
  {
    if 'A' <= c <= 'Z' then (c as int + 32) as char else c
  }

  function MapChars(f: char -> char, s: string): (r: string)
    ensures |r| == |s|
    ensures forall i :: 0 <= i < |s| ==> r[i] == f(s[i])
  {
    seq(|s|, i requires 0 <= i < |s| => f(s[i]))
  }
}
