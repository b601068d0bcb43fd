/**
 * The JavaScript string operations the screens and the service rely on:
 * `String.prototype.trim`, the `\s` class of regular expressions,
 * `String.prototype.split` with a one-character separator, and the
 * truthiness of a possibly missing string (`if (token)`, `a || b`).
 */
module JsText {
  import opened Wrappers

  /**
   * WhiteSpace or LineTerminator as ECMAScript defines them (sections 12.2
   * and 12.3 of ECMA-262): exactly the characters `trim` removes and `\s`
   * matches.
   */
  predicate IsWhiteSpace(c: char) {
    var n := c as int;
    n == 0x09 || n == 0x0A || n == 0x0B || n == 0x0C || n == 0x0D || n == 0x20
    || n == 0xA0 || n == 0x1680 || (0x2000 <= n <= 0x200A) || n == 0x2028
    || n == 0x2029 || n == 0x202F || n == 0x205F || n == 0x3000 || n == 0xFEFF
  }

  predicate AllWhiteSpace(s: string) {
    forall i :: 0 <= i < |s| ==> IsWhiteSpace(s[i])
  }

  predicate NoWhiteSpace(s: string) {
    forall i :: 0 <= i < |s| ==> !IsWhiteSpace(s[i])
  }

  /** `s.trimStart()`: the suffix of `s` left after its leading white space. */
  function TrimStart(s: string): (r: string)
    ensures |r| <= |s| && r == s[|s| - |r|..]
    ensures AllWhiteSpace(s[..|s| - |r|])
    ensures r == [] || !IsWhiteSpace(r[0])
  {
    if s != [] && IsWhiteSpace(s[0]) then TrimStart(s[1..]) else s
  }

  /** `s.trimEnd()`: the prefix of `s` left before its trailing white space. */
  function TrimEnd(s: string): (r: string)
    ensures |r| <= |s| && r == s[..|r|]
    ensures AllWhiteSpace(s[|r|..])
    ensures r == [] || !IsWhiteSpace(r[|r| - 1])
  {
    if s != [] && IsWhiteSpace(s[|s| - 1]) then TrimEnd(s[..|s| - 1]) else s
  }

  /** `s.trim()`. */
  function Trim(s: string): (r: string)
    ensures r == [] || (!IsWhiteSpace(r[0]) && !IsWhiteSpace(r[|r| - 1]))
    ensures r == [] <==> AllWhiteSpace(s)
    ensures NoWhiteSpace(s) ==> r == s
  {
    TrimBlank(s);
    TrimKeeps(s);
    TrimEnd(TrimStart(s))
  }

  /** `r` is the slice of `s` starting at `k`, with only white space before and after it. */
  ghost predicate SurroundedBy(s: string, r: string, k: int) {
    0 <= k && k + |r| <= |s| && r == s[k..k + |r|]
    && AllWhiteSpace(s[..k]) && AllWhiteSpace(s[k + |r|..])
  }

  /** `s.trim()` is `s` with its leading and trailing white space removed. */
  lemma TrimCutsSurroundingWhiteSpace(s: string)
    ensures exists k :: SurroundedBy(s, Trim(s), k)
  {
    var t := TrimStart(s);
    var r := TrimEnd(t);
    assert Trim(s) == r;
    MiddleSlice(s, t, r);
  }

  /** A prefix of a suffix of `s`, each cut off at white space only, is such a slice of `s`. */
  lemma MiddleSlice(s: string, t: string, r: string)
    requires |t| <= |s| && t == s[|s| - |t|..] && AllWhiteSpace(s[..|s| - |t|])
    requires |r| <= |t| && r == t[..|r|] && AllWhiteSpace(t[|r|..])
    ensures SurroundedBy(s, r, |s| - |t|)
  {
    assert t[|r|..] == s[|s| - |t| + |r|..];
  }

  /** Trimming leaves nothing exactly when there is nothing but white space. */
  lemma TrimBlank(s: string)
    ensures TrimEnd(TrimStart(s)) == [] <==> AllWhiteSpace(s)
  {
    var t := TrimStart(s);
    var k := |s| - |t|;
    assert t != [] ==> t[0] == s[k];
    assert t == [] ==> TrimEnd(t) == [];
    if TrimEnd(t) == [] {
      assert t[0..] == t;
      assert t == [];
      assert s[..k] == s;
    }
  }

  /** Trimming changes nothing in a string without white space. */
  lemma TrimKeeps(s: string)
    ensures NoWhiteSpace(s) ==> TrimEnd(TrimStart(s)) == s
  {
    if NoWhiteSpace(s) && s != [] {
      assert !IsWhiteSpace(s[0]);
      assert !IsWhiteSpace(s[|s| - 1]);
    }
  }

  /**
   * `s.length`: the number of UTF-16 code units, two for a character
   * outside the Basic Multilingual Plane.
   */
  function Length(s: string): (n: nat)
    ensures |s| <= n <= 2 * |s|
    ensures InBasicPlane(s) ==> n == |s|
  {
    if s == [] then 0
    else
      assert InBasicPlane(s) ==> InBasicPlane(s[1..]) by {
        if InBasicPlane(s) {
          forall i | 0 <= i < |s[1..]| ensures s[1..][i] as int < 0x10000 {
            assert s[1..][i] == s[i + 1];
          }
        }
      }
      (if s[0] as int >= 0x10000 then 2 else 1) + Length(s[1..])
  }

  /** Every character of `s` is one UTF-16 code unit. */
  predicate InBasicPlane(s: string) {
    forall i :: 0 <= i < |s| ==> s[i] as int < 0x10000
  }

  /** The length of a concatenation is the sum of the lengths. */
  lemma {:induction false} LengthAppend(a: string, b: string)
    ensures Length(a + b) == Length(a) + Length(b)
  {
    if a == [] {
      assert a + b == b;
    } else {
      LengthAppend(a[1..], b);
      assert (a + b)[0] == a[0];
      assert (a + b)[1..] == a[1..] + b;
    }
  }

  /** A character outside the Basic Multilingual Plane counts as two code units. */
  lemma AstralCharacter(c: char)
    ensures Length([c]) == if c as int >= 0x10000 then 2 else 1
  {
    assert [c][1..] == [];
  }

  /** Whether `v` is truthy: present and not the empty string. */
  predicate Truthy(v: Option<string>) {
    v.Some? && v.value != ""
  }

  /** `v || fallback` for a possibly missing string. */
  function Or(v: Option<string>, fallback: string): (r: string)
    ensures Truthy(v) ==> r == v.value
    ensures !Truthy(v) ==> r == fallback
    ensures r == "" ==> fallback == ""
  {
    if Truthy(v) then v.value else fallback
  }

  /** The inverse of `Split`: the pieces glued back with `sep` between them. */
  function Join(parts: seq<string>, sep: char): string
    requires |parts| >= 1
  {
    if |parts| == 1 then parts[0] else parts[0] + [sep] + Join(parts[1..], sep)
  }

  /**
   * `s.split(sep)` for a one-character separator: the pieces of `s`
   * between occurrences of `sep`; the empty string gives one empty piece.
   */
  function Split(s: string, sep: char): (parts: seq<string>)
    ensures |parts| >= 1
    ensures forall i :: 0 <= i < |parts| ==> sep !in parts[i]
  {
    if s == [] then [""]
    else
      var rest := Split(s[1..], sep);
      if s[0] == sep then [""] + rest else [[s[0]] + rest[0]] + rest[1..]
  }

  /** Joining the pieces with the separator gives back the string. */
  lemma {:induction false} SplitJoin(s: string, sep: char)
    ensures Join(Split(s, sep), sep) == s
  {
    if s != [] {
      SplitJoin(s[1..], sep);
      var rest := Split(s[1..], sep);
      if s[0] == sep {
        assert s == [sep] + s[1..];
      } else {
        var parts := [[s[0]] + rest[0]] + rest[1..];
        assert parts[1..] == rest[1..];
        if |rest| == 1 {
          assert s == [s[0]] + s[1..];
        } else {
          assert s[1..] == rest[0] + [sep] + Join(rest[1..], sep);
          assert s == [s[0]] + s[1..];
        }
      }
    }
  }

  /**
   * Splitting a string with exactly one separator gives the two sides.
   */
  lemma {:induction false} SplitAround(a: string, sep: char, b: string)
    requires sep !in a && sep !in b
    ensures Split(a + [sep] + b, sep) == [a, b]
  {
    var s := a + [sep] + b;
    if a == [] {
      assert s[1..] == b;
      SplitNone(b, sep);
    } else {
      assert s[1..] == a[1..] + [sep] + b;
      SplitAround(a[1..], sep, b);
      assert [s[0]] + a[1..] == a;
    }
  }

  /** A string without the separator is a single piece. */
  lemma {:induction false} SplitNone(s: string, sep: char)
    requires sep !in s
    ensures Split(s, sep) == [s]
  {
    if s != [] {
      SplitNone(s[1..], sep);
      assert [s[0]] + s[1..] == s;
    }
  }

  /** Two pieces are the text before and after the one separator. */
  lemma SplitInTwo(s: string, sep: char)
    requires |Split(s, sep)| == 2
    ensures s == Split(s, sep)[0] + [sep] + Split(s, sep)[1]
  {
    var parts := Split(s, sep);
    SplitJoin(s, sep);
    assert Join(parts[1..], sep) == parts[1];
  }
}
