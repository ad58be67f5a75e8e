/** The fragments of JavaScript semantics the table relies on: optional values,
    numbers that may be NaN, record values, plain objects with their key
    order, and the string methods `trim`, `toLowerCase` and `includes`. */
module Js {
  import opened Seqs

  datatype Option<+T> = None | Some(value: T)

  /** A JavaScript number as far as the table uses it: a whole number of
      milliseconds, or NaN (an invalid `Date`, or arithmetic on `undefined`). */
  datatype JsNumber = Finite(n: int) | NaN

  /** The `<` operator on numbers: every comparison involving NaN is false. */
  predicate Less(a: JsNumber, b: JsNumber) {
    a.Finite? && b.Finite? && a.n < b.n
  }

  /** A field value of a row: a string, or a number (epoch seconds for dates). */
  datatype Value = Str(s: string) | Num(n: int)

  /** A row: field key to value; a key that is not present reads as `undefined`. */
  type Record = map<string, Value>

  /** `row[key]`, with `None` standing for `undefined`. */
  function Field(row: Record, key: string): Option<Value> {
    if key in row then Some(row[key]) else None
  }

  /** A plain object: its string keys in insertion order (the order of
      `Object.keys` and `Object.values`) and the value under each key. */
  datatype ObjectMap<V> = ObjectMap(keys: seq<string>, entries: map<string, V>) {
    predicate WellFormed() {
      NoDups(keys) && (forall k | k in entries :: k in keys) && (forall k | k in keys :: k in entries)
    }
  }

  /** A well-formed object: keys are distinct and are exactly the entries' keys. */
  type JsObject<V> = o: ObjectMap<V> | o.WellFormed() witness ObjectMap([], map[])

  /** `obj[key]`, with `None` standing for `undefined`. */
  function Get<V>(o: JsObject<V>, key: string): Option<V> {
    if key in o.entries then Some(o.entries[key]) else None
  }

  /** `Object.values(obj)`: the values in key order. */
  function Values<V>(o: JsObject<V>): (r: seq<V>)
    ensures |r| == |o.keys|
    ensures forall i :: 0 <= i < |r| ==> o.keys[i] in o.entries && r[i] == o.entries[o.keys[i]]
  {
    seq(|o.keys|, i requires 0 <= i < |o.keys| => o.entries[o.keys[i]])
  }

  // ----- String.prototype.trim -----

  /** The characters ECMAScript's `trim` removes: WhiteSpace (tab, vertical tab,
      form feed, space, no-break space, byte order mark and the Unicode space
      separators) and LineTerminator (line feed, carriage return, line and
      paragraph separator). */
  const WhiteSpace: set<char> := {
    '\t', '\U{000B}', '\U{000C}', ' ', '\U{00A0}', '\U{FEFF}', '\U{1680}',
    '\U{2000}', '\U{2001}', '\U{2002}', '\U{2003}', '\U{2004}', '\U{2005}',
    '\U{2006}', '\U{2007}', '\U{2008}', '\U{2009}', '\U{200A}',
    '\U{202F}', '\U{205F}', '\U{3000}',
    '\n', '\r', '\U{2028}', '\U{2029}'
  }

  predicate IsWhiteSpace(c: char) {
    c in WhiteSpace
  }

  /** Drops the leading white space: the result is the longest suffix that
      does not start with white space. */
  function TrimStart(s: string): (r: string)
    ensures |r| <= |s| && r == s[|s| - |r|..]
    ensures r == [] || !IsWhiteSpace(r[0])
    ensures forall i :: 0 <= i < |s| - |r| ==> IsWhiteSpace(s[i])
  {
    if |s| > 0 && IsWhiteSpace(s[0]) then
      var r := TrimStart(s[1..]);
      assert s[1..][|s| - 1 - |r|..] == s[|s| - |r|..];
      assert forall i :: 1 <= i < |s| - |r| ==> s[i] == s[1..][i - 1];
      r
    else s
  }

  /** Drops the trailing white space: the result is the longest prefix that
      does not end with white space. */
  function TrimEnd(s: string): (r: string)
    ensures |r| <= |s| && r == s[..|r|]
    ensures r == [] || !IsWhiteSpace(r[|r| - 1])
    ensures forall i :: |r| <= i < |s| ==> IsWhiteSpace(s[i])
  {
    if |s| > 0 && IsWhiteSpace(s[|s| - 1]) then
      var r := TrimEnd(s[..|s| - 1]);
      assert s[..|s| - 1][..|r|] == s[..|r|];
      r
    else s
  }

  /** `r` is the piece of `s` starting at `start`, and everything of `s`
      before and after that piece is white space. */
  ghost predicate TrimmedPiece(s: string, r: string, start: int) {
    0 <= start && start + |r| <= |s| && s[start..start + |r|] == r &&
    (forall i :: 0 <= i < start ==> IsWhiteSpace(s[i])) &&
    (forall i :: start + |r| <= i < |s| ==> IsWhiteSpace(s[i]))
  }

  /** A suffix `t` of `s` after white space, cut down to a prefix `r` before
      white space, is a piece of `s` with only white space around it. */
  lemma SuffixPrefixIsPiece(s: string, t: string, r: string)
    requires |t| <= |s| && t == s[|s| - |t|..]
    requires forall i :: 0 <= i < |s| - |t| ==> IsWhiteSpace(s[i])
    requires |r| <= |t| && r == t[..|r|]
    requires forall i :: |r| <= i < |t| ==> IsWhiteSpace(t[i])
    ensures TrimmedPiece(s, r, |s| - |t|)
  {
    var start := |s| - |t|;
    assert s[start..start + |r|] == r;
    forall i | start + |r| <= i < |s| ensures IsWhiteSpace(s[i]) {
      assert s[i] == t[i - start];
    }
  }

  /** `s.trim()`: a contiguous piece of `s` with only white space around it
      and none at its ends. */
  function Trim(s: string): (r: string)
    ensures r == [] || (!IsWhiteSpace(r[0]) && !IsWhiteSpace(r[|r| - 1]))
    ensures exists start :: TrimmedPiece(s, r, start)
  {
    var t := TrimStart(s);
    var r := TrimEnd(t);
    SuffixPrefixIsPiece(s, t, r);
    assert TrimmedPiece(s, r, |s| - |t|);
    r
  }

  // ----- String.prototype.toLowerCase -----

  /** Lower-cases one character (ASCII letters only). */
  function LowerChar(c: char): char {
    if 'A' <= c <= 'Z' then (c as int + 32) as char else c
  }

  /** `s.toLowerCase()` on the ASCII letters: same length, no upper-case
      letter left, and every character either kept or replaced by its
      lower-case letter. */
  function ToLower(s: string): (r: string)
    ensures |r| == |s|
    ensures forall i :: 0 <= i < |r| ==> !('A' <= r[i] <= 'Z')
    ensures forall i :: 0 <= i < |r| ==>
      r[i] == s[i] || ('A' <= s[i] <= 'Z' && r[i] as int == s[i] as int + 32)
  {
    seq(|s|, i requires 0 <= i < |s| => LowerChar(s[i]))
  }

  // ----- String.prototype.includes -----

  /** `needle` occurs in `hay` at some position. */
  ghost predicate IsInfix(hay: string, needle: string) {
    exists i :: OccursAt(hay, needle, i)
  }

  /** `needle` occurs in `hay` starting at position `i`. */
  ghost predicate OccursAt(hay: string, needle: string, i: int) {
    0 <= i && i + |needle| <= |hay| && hay[i..i + |needle|] == needle
  }

  /** `hay.includes(needle)`: tries each position from the left. */
  function Includes(hay: string, needle: string): bool
    decreases |hay|
  {
    if needle <= hay then true
    else if |hay| == 0 then false
    else Includes(hay[1..], needle)
  }

  /** An occurrence at position 0 is exactly a prefix. */
  lemma OccursAtStart(hay: string, needle: string)
    ensures OccursAt(hay, needle, 0) <==> needle <= hay
  {
  }

  /** An occurrence after position 0 is an occurrence in the tail, one
      position earlier. */
  lemma OccursAtShift(hay: string, needle: string, i: int)
    requires |hay| > 0 && i > 0
    ensures OccursAt(hay, needle, i) <==> OccursAt(hay[1..], needle, i - 1)
  {
    if 0 <= i - 1 && i + |needle| <= |hay| {
      assert hay[1..][i - 1..i - 1 + |needle|] == hay[i..i + |needle|];
    }
  }

  /** `includes` decides exactly whether the needle occurs somewhere. */
  lemma {:induction false} IncludesIsInfix(hay: string, needle: string)
    ensures Includes(hay, needle) <==> IsInfix(hay, needle)
    decreases |hay|
  {
    OccursAtStart(hay, needle);
    if needle <= hay {
      assert OccursAt(hay, needle, 0);
    } else if |hay| == 0 {
      forall i ensures !OccursAt(hay, needle, i) {
        if i == 0 {
        } else {
          assert !(0 <= i && i + |needle| <= 0);
        }
      }
    } else {
      IncludesIsInfix(hay[1..], needle);
      if IsInfix(hay, needle) {
        var i :| OccursAt(hay, needle, i);
        OccursAtShift(hay, needle, i);
        assert OccursAt(hay[1..], needle, i - 1);
      }
      if IsInfix(hay[1..], needle) {
        var i :| OccursAt(hay[1..], needle, i);
        OccursAtShift(hay, needle, i + 1);
        assert OccursAt(hay, needle, i + 1);
      }
    }
  }

  /** Every string includes the empty string. */
  lemma IncludesEmpty(hay: string)
    ensures Includes(hay, "")
  {
  }

  // ----- Case and white space together -----

  /** Lower-casing does not create or remove white space. */
  lemma LowerCharKeepsWhiteSpace(c: char)
    ensures IsWhiteSpace(LowerChar(c)) == IsWhiteSpace(c)
  {
  }

  /** Lower-casing twice is lower-casing once. */
  lemma ToLowerIdempotent(s: string)
    ensures ToLower(ToLower(s)) == ToLower(s)
  {
  }

  /** Lower-casing commutes with dropping leading white space. */
  lemma {:induction false} TrimStartToLower(s: string)
    ensures TrimStart(ToLower(s)) == ToLower(TrimStart(s))
  {
    if |s| > 0 {
      LowerCharKeepsWhiteSpace(s[0]);
      assert ToLower(s)[0] == LowerChar(s[0]);
      if IsWhiteSpace(s[0]) {
        assert ToLower(s)[1..] == ToLower(s[1..]);
        TrimStartToLower(s[1..]);
      }
    }
  }

  /** Lower-casing commutes with dropping trailing white space. */
  lemma {:induction false} TrimEndToLower(s: string)
    ensures TrimEnd(ToLower(s)) == ToLower(TrimEnd(s))
  {
    if |s| > 0 {
      LowerCharKeepsWhiteSpace(s[|s| - 1]);
      assert ToLower(s)[|s| - 1] == LowerChar(s[|s| - 1]);
      if IsWhiteSpace(s[|s| - 1]) {
        assert ToLower(s)[..|s| - 1] == ToLower(s[..|s| - 1]);
        TrimEndToLower(s[..|s| - 1]);
      }
    }
  }

  /** `s.trim().toLowerCase()` is unchanged when `s` is lower-cased first:
      the normalisation the text search applies ignores ASCII case. */
  lemma TrimLowerIgnoresCase(s: string)
    ensures ToLower(Trim(ToLower(s))) == ToLower(Trim(s))
  {
    TrimStartToLower(s);
    TrimEndToLower(TrimStart(s));
    ToLowerIdempotent(Trim(s));
  }
}
