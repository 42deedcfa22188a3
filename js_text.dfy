/** The JavaScript string operations the table's search relies on:
    `String.prototype.trim`, `String.prototype.toLowerCase` and
    `String.prototype.includes`, concretised on ASCII (whitespace is the
    ASCII whitespace set, lower-casing maps 'A'..'Z' only). */
module JsText {

  /** The ASCII characters that `trim` removes. */
  predicate IsSpace(c: char) {
    c == ' ' || c == '\t' || c == '\n' || c == '\r' || c == '\U{0B}' || c == '\U{0C}'
  }

  function LowerChar(c: char): char {
    if 'A' <= c <= 'Z' then (c as int + 32) as char else c
  }

  /** `s.toLowerCase()` */
  function Lower(s: string): (r: string)
    ensures |r| == |s|
  {
    if s == [] then [] else [LowerChar(s[0])] + Lower(s[1..])
  }

  /** Lower-casing works character by character. */
  lemma {:induction false} LowerAt(s: string)
    ensures forall i :: 0 <= i < |s| ==> Lower(s)[i] == LowerChar(s[i])
  {
    if s != [] {
      LowerAt(s[1..]);
      assert forall i :: 0 < i < |s| ==> s[1..][i - 1] == s[i];
    }
  }

  /** Lower-casing keeps a prefix a prefix. */
  lemma LowerPrefix(a: string, b: string)
    requires a <= b
    ensures Lower(a) <= Lower(b)
  {
    LowerAt(a);
    LowerAt(b);
  }

  /** `s.trimStart()` */
  function TrimStart(s: string): (r: string)
    ensures |r| <= |s|
  {
    if s != [] && IsSpace(s[0]) then TrimStart(s[1..]) else s
  }

  /** The leading whitespace is removed: the result is a suffix of `s`,
      everything cut off is whitespace, and the result does not start with
      whitespace. */
  lemma {:induction false} TrimStartSpec(s: string)
    ensures TrimStart(s) == s[|s| - |TrimStart(s)|..]
    ensures forall i :: 0 <= i < |s| - |TrimStart(s)| ==> IsSpace(s[i])
    ensures TrimStart(s) == [] || !IsSpace(TrimStart(s)[0])
  {
    if s != [] && IsSpace(s[0]) {
      TrimStartSpec(s[1..]);
      assert s[1..][|s| - 1 - |TrimStart(s)|..] == s[|s| - |TrimStart(s)|..];
      assert forall i :: 0 < i < |s| ==> s[1..][i - 1] == s[i];
    }
  }

  /** `s.trimEnd()` */
  function TrimEnd(s: string): (r: string)
    ensures |r| <= |s|
  {
    if s != [] && IsSpace(s[|s| - 1]) then TrimEnd(s[..|s| - 1]) else s
  }

  /** The trailing whitespace is removed: the result is a prefix of `s`,
      everything cut off is whitespace, and the result does not end with
      whitespace. */
  lemma {:induction false} TrimEndSpec(s: string)
    ensures TrimEnd(s) == s[..|TrimEnd(s)|]
    ensures forall i :: |TrimEnd(s)| <= i < |s| ==> IsSpace(s[i])
    ensures TrimEnd(s) == [] || !IsSpace(TrimEnd(s)[|TrimEnd(s)| - 1])
  {
    if s != [] && IsSpace(s[|s| - 1]) {
      TrimEndSpec(s[..|s| - 1]);
      assert s[..|s| - 1][..|TrimEnd(s)|] == s[..|TrimEnd(s)|];
    }
  }

  /** `s.trim()`: never longer, and neither starting nor ending with
      whitespace. */
  function Trim(s: string): (r: string)
    ensures |r| <= |s|
    ensures |r| == 0 || (!IsSpace(r[0]) && !IsSpace(r[|r| - 1]))
  {
    TrimStartSpec(s);
    TrimEndSpec(TrimStart(s));
    TrimEnd(TrimStart(s))
  }

  /** `s.includes(q)`: `q` occurs somewhere in `s` as a contiguous run. The
      empty string occurs in every string, and nothing longer than `s`
      occurs in it. */
  function Contains(s: string, q: string): (r: bool)
    ensures |q| == 0 ==> r
    ensures r ==> |q| <= |s|
  {
    q <= s || (s != [] && Contains(s[1..], q))
  }

  ghost predicate OccursAt(s: string, q: string, i: int) {
    0 <= i && i + |q| <= |s| && s[i..i + |q|] == q
  }

  /** `Contains` agrees with the positional definition of a substring. */
  lemma {:induction false} ContainsIffOccurs(s: string, q: string)
    ensures Contains(s, q) <==> exists i :: OccursAt(s, q, i)
  {
    if q <= s {
      assert OccursAt(s, q, 0);
    }
    if s != [] {
      ContainsIffOccurs(s[1..], q);
      forall i | OccursAt(s[1..], q, i)
        ensures OccursAt(s, q, i + 1)
      {
        assert s[i + 1..i + 1 + |q|] == s[1..][i..i + |q|];
      }
      forall i | OccursAt(s, q, i) && i > 0
        ensures OccursAt(s[1..], q, i - 1)
      {
        assert s[1..][i - 1..i - 1 + |q|] == s[i..i + |q|];
      }
    }
  }

  /** Substring containment is transitive. */
  lemma ContainsTransitive(a: string, b: string, c: string)
    requires Contains(a, b) && Contains(b, c)
    ensures Contains(a, c)
  {
    ContainsIffOccurs(a, b);
    ContainsIffOccurs(b, c);
    var i :| OccursAt(a, b, i);
    var j :| OccursAt(b, c, j);
    var inA, inB := a[i + j..i + j + |c|], b[j..j + |c|];
    forall k | 0 <= k < |c|
      ensures inA[k] == inB[k]
    {
      assert b[j + k] == a[i..i + |b|][j + k];
    }
    assert inA == inB;
    assert OccursAt(a, c, i + j);
    ContainsIffOccurs(a, c);
  }

  /** The empty string contains only the empty string. */
  lemma {:induction false} EmptyContainsOnlyEmpty(q: string)
    ensures Contains("", q) <==> q == ""
  {
  }

  /** A trimmed string is empty exactly when the original is all whitespace. */
  lemma TrimBlankIffAllSpace(s: string)
    ensures Trim(s) == "" <==> forall i :: 0 <= i < |s| ==> IsSpace(s[i])
  {
    var u := TrimStart(s);
    TrimStartSpec(s);
    TrimEndSpec(u);
    if u != [] {
      assert !IsSpace(s[|s| - |u|]) by { assert u[0] == s[|s| - |u|]; }
      assert TrimEnd(u) != [];
    }
  }

  lemma {:induction false} TrimStartAppend(a: string, b: string)
    requires exists i :: 0 <= i < |a| && !IsSpace(a[i])
    ensures TrimStart(a + b) == TrimStart(a) + b
  {
    assert a != [];
    if IsSpace(a[0]) {
      assert (a + b)[1..] == a[1..] + b;
      var i :| 0 <= i < |a| && !IsSpace(a[i]);
      assert i > 0 && !IsSpace(a[1..][i - 1]);
      TrimStartAppend(a[1..], b);
    }
  }

  lemma {:induction false} TrimEndPrefix(u: string, b: string)
    ensures TrimEnd(u) <= TrimEnd(u + b)
    decreases |b|
  {
    if b != [] && IsSpace(b[|b| - 1]) {
      var b' := b[..|b| - 1];
      assert (u + b)[..|u + b| - 1] == u + b';
      TrimEndPrefix(u, b');
    } else if b != [] {
      assert TrimEnd(u + b) == u + b;
      TrimEndSpec(u);
      assert TrimEnd(u) <= u + b;
    } else {
      assert u + b == u;
    }
  }

  /** Appending to a string only extends its trimmed form. */
  lemma TrimPrefixOfAppend(a: string, b: string)
    ensures Trim(a) <= Trim(a + b)
  {
    if forall i :: 0 <= i < |a| ==> IsSpace(a[i]) {
      TrimBlankIffAllSpace(a);
    } else {
      TrimStartAppend(a, b);
      TrimEndPrefix(TrimStart(a), b);
    }
  }
}
