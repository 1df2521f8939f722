/** The three string operations of Rust's `str` that the line search relies on:
    `lines`, `trim` and `contains`. Strings are sequences of Unicode scalar values. */
module Text {

  type String = seq<char>

  /** Rust's `char::is_whitespace`: the Unicode `White_Space` property. */
  predicate IsWhitespace(c: char) {
    var n := c as int;
    || 0x09 <= n <= 0x0D
    || n == 0x20 || n == 0x85 || n == 0xA0 || n == 0x1680
    || 0x2000 <= n <= 0x200A
    || n == 0x2028 || n == 0x2029 || n == 0x202F || n == 0x205F || n == 0x3000
  }

  // ---------------------------------------------------------------------------
  // trim

  /** Rust's `trim_start`: the longest suffix of `s` that does not start with whitespace. */
  function TrimStart(s: String): (r: String)
    ensures |r| <= |s| && r == s[|s| - |r|..]
    ensures forall k :: 0 <= k < |s| - |r| ==> IsWhitespace(s[k])
    ensures r != [] ==> !IsWhitespace(r[0])
  {
    if s != [] && IsWhitespace(s[0]) then TrimStart(s[1..]) else s
  }

  /** Rust's `trim_end`: the longest prefix of `s` that does not end with whitespace. */
  function TrimEnd(s: String): (r: String)
    ensures |r| <= |s| && r == s[..|r|]
    ensures forall k :: |r| <= k < |s| ==> IsWhitespace(s[k])
    ensures r != [] ==> !IsWhitespace(r[|r| - 1])
  {
    if s != [] && IsWhitespace(s[|s| - 1]) then TrimEnd(s[..|s| - 1]) else s
  }

  /** `r` is the slice `s[i..i + |r|]`, everything of `s` around it is whitespace,
      and `r` neither starts nor ends with whitespace. */
  ghost predicate TrimmedAt(s: String, r: String, i: nat) {
    && i + |r| <= |s|
    && r == s[i..i + |r|]
    && (forall k :: 0 <= k < i ==> IsWhitespace(s[k]))
    && (forall k :: i + |r| <= k < |s| ==> IsWhitespace(s[k]))
    && (r != [] ==> !IsWhitespace(r[0]) && !IsWhitespace(r[|r| - 1]))
  }

  /** `r` is what remains of `s` once leading and trailing whitespace are removed. */
  ghost predicate IsTrimOf(r: String, s: String) {
    exists i: nat :: TrimmedAt(s, r, i)
  }

  /** Rust's `trim`: removes leading and trailing whitespace. */
  function Trim(s: String): (r: String)
    ensures IsTrimOf(r, s)
  {
    var t := TrimStart(s);
    var r := TrimEnd(t);
    assert TrimmedAt(s, r, |s| - |t|);
    r
  }

  /** The description `IsTrimOf` admits only one result, so it defines `Trim` on its own. */
  lemma TrimUnique(s: String, r1: String, r2: String)
    requires IsTrimOf(r1, s) && IsTrimOf(r2, s)
    ensures r1 == r2
  {
    var i1: nat :| TrimmedAt(s, r1, i1);
    var i2: nat :| TrimmedAt(s, r2, i2);
    if r1 != [] {
      assert s[i1] == r1[0] && s[i1 + |r1| - 1] == r1[|r1| - 1];
    }
    if r2 != [] {
      assert s[i2] == r2[0] && s[i2 + |r2| - 1] == r2[|r2| - 1];
    }
    if r1 != [] && r2 != [] {
      // the first and the last non-whitespace characters of s bound both slices
      assert i1 == i2;
      assert i1 + |r1| == i2 + |r2|;
    }
  }

  /** `Trim` agrees with its description, in both directions. */
  lemma TrimCharacterized(s: String, r: String)
    ensures r == Trim(s) <==> IsTrimOf(r, s)
  {
    if IsTrimOf(r, s) {
      TrimUnique(s, r, Trim(s));
    }
  }

  /** Leading whitespace is dropped whatever follows it. */
  lemma {:induction false} TrimStartWhitespace(w: String, s: String)
    requires forall k :: 0 <= k < |w| ==> IsWhitespace(w[k])
    ensures TrimStart(w + s) == TrimStart(s)
  {
    if w != [] {
      assert (w + s)[0] == w[0];
      assert (w + s)[1..] == w[1..] + s;
      TrimStartWhitespace(w[1..], s);
    } else {
      assert w + s == s;
    }
  }

  /** A string with whitespace only in front trims to what follows the whitespace. */
  lemma TrimIndented(w: String, s: String)
    requires forall k :: 0 <= k < |w| ==> IsWhitespace(w[k])
    requires s != [] && !IsWhitespace(s[0]) && !IsWhitespace(s[|s| - 1])
    ensures Trim(w + s) == s
  {
    TrimStartWhitespace(w, s);
  }

  // ---------------------------------------------------------------------------
  // contains

  /** `q` occurs in `s` starting at position `i`. */
  ghost predicate OccursAt(s: String, q: String, i: nat) {
    i + |q| <= |s| && s[i..i + |q|] == q
  }

  /** Rust's `str::contains` with a string pattern: `q` is a contiguous piece of `s`.
      Comparison is exact, so matching is case-sensitive. */
  function Contains(s: String, q: String): (b: bool)
    ensures b <==> exists i: nat :: OccursAt(s, q, i)
  {
    if q <= s then
      assert OccursAt(s, q, 0);
      true
    else if s == [] then
      false
    else
      var b := Contains(s[1..], q);
      assert forall i: nat :: OccursAt(s[1..], q, i) <==> OccursAt(s, q, i + 1);
      assert !OccursAt(s, q, 0);
      assert forall i: nat :: OccursAt(s, q, i) && i > 0 ==> OccursAt(s[1..], q, i - 1);
      b
  }

  /** The empty pattern occurs in every string. */
  lemma ContainsEmpty(s: String)
    ensures Contains(s, [])
  {
    assert OccursAt(s, [], 0);
  }

  /** A pattern occurs in any string built around it. */
  lemma ContainsInfix(a: String, q: String, b: String)
    ensures Contains(a + q + b, q)
  {
    assert (a + q + b)[|a|..|a| + |q|] == q;
    assert OccursAt(a + q + b, q, |a|);
  }

  /** A pattern whose first character does not occur in `s` does not occur in `s`. */
  lemma NotContainsMissingChar(s: String, q: String)
    requires q != [] && q[0] !in s
    ensures !Contains(s, q)
  {
    forall i: nat ensures !OccursAt(s, q, i) {
      if i + |q| <= |s| {
        assert s[i..i + |q|][0] == s[i];
      }
    }
  }

  // ---------------------------------------------------------------------------
  // lines

  /** Position of the first `'\n'` in `s`, or `|s|` when there is none. */
  function NewlineIndex(s: String): (i: nat)
    ensures i <= |s|
    ensures i < |s| ==> s[i] == '\n'
    ensures forall k :: 0 <= k < i ==> s[k] != '\n'
  {
    if s == [] || s[0] == '\n' then 0 else 1 + NewlineIndex(s[1..])
  }

  /** Removes one trailing carriage return. */
  function StripCr(l: String): String {
    if l != [] && l[|l| - 1] == '\r' then l[..|l| - 1] else l
  }

  /** Rust's `str::lines`: splits at each `'\n'`, drops a `'\r'` just before it, and
      yields no empty final line after a terminating `'\n'` (so `""` has no lines). */
  function Lines(s: String): (ls: seq<String>)
    ensures forall k :: 0 <= k < |ls| ==> '\n' !in ls[k]
    decreases |s|
  {
    if s == [] then []
    else
      var i := NewlineIndex(s);
      if i == |s| then [s] else [StripCr(s[..i])] + Lines(s[i + 1..])
  }

  /** Number of `'\n'` characters in `s`. */
  function NewlineCount(s: String): nat {
    if s == [] then 0 else (if s[0] == '\n' then 1 else 0) + NewlineCount(s[1..])
  }

  lemma {:induction false} NewlineCountAppend(a: String, b: String)
    ensures NewlineCount(a + b) == NewlineCount(a) + NewlineCount(b)
  {
    if a != [] {
      assert (a + b)[0] == a[0];
      assert (a + b)[1..] == a[1..] + b;
      NewlineCountAppend(a[1..], b);
    } else {
      assert a + b == b;
    }
  }

  lemma {:induction false} NewlineCountZero(s: String)
    requires '\n' !in s
    ensures NewlineCount(s) == 0
  {
    if s != [] {
      NewlineCountZero(s[1..]);
    }
  }

  /** One line per `'\n'`, plus one for an unterminated final line. */
  lemma {:induction false} LinesCount(s: String)
    ensures |Lines(s)| == NewlineCount(s) + (if s != [] && s[|s| - 1] != '\n' then 1 else 0)
    decreases |s|
  {
    if s != [] {
      var i := NewlineIndex(s);
      if i == |s| {
        NewlineCountZero(s);
      } else {
        assert s == s[..i] + [s[i]] + s[i + 1..];
        NewlineCountZero(s[..i]);
        NewlineCountAppend(s[..i] + [s[i]], s[i + 1..]);
        NewlineCountAppend(s[..i], [s[i]]);
        LinesCount(s[i + 1..]);
      }
    }
  }

  /** A text line as `lines` can yield it: no `'\n'` inside and no trailing `'\r'`. */
  ghost predicate IsPlainLine(l: String) {
    '\n' !in l && (l == [] || l[|l| - 1] != '\r')
  }

  /** A non-empty text without `'\n'` is a single line, kept as it is. */
  lemma LinesSingle(s: String)
    requires s != [] && '\n' !in s
    ensures Lines(s) == [s]
  {
  }

  /** Each line followed by `'\n'`. */
  function JoinLines(ls: seq<String>): String {
    if ls == [] then [] else ls[0] + "\n" + JoinLines(ls[1..])
  }

  /** Splitting at a `'\n'` that ends the first piece: the first line is that piece. */
  lemma LinesCons(a: String, b: String)
    requires '\n' !in a
    ensures Lines(a + "\n" + b) == [StripCr(a)] + Lines(b)
  {
    var s := a + "\n" + b;
    assert forall k :: 0 <= k < |a| ==> s[k] == a[k];
    assert s[|a|] == '\n';
    assert NewlineIndex(s) == |a|;
    assert s[..|a|] == a;
    assert s[|a| + 1..] == b;
  }

  /** `lines` undoes `JoinLines`. */
  lemma {:induction false} LinesJoinLines(ls: seq<String>)
    requires forall k :: 0 <= k < |ls| ==> IsPlainLine(ls[k])
    ensures Lines(JoinLines(ls)) == ls
  {
    if ls != [] {
      LinesCons(ls[0], JoinLines(ls[1..]));
      LinesJoinLines(ls[1..]);
    }
  }

  /** The final line ending is optional: adding one to an unterminated text
      (whose last character is not a carriage return) yields the same lines. */
  lemma {:induction false} LinesFinalNewlineOptional(s: String)
    requires s != [] && s[|s| - 1] != '\n' && s[|s| - 1] != '\r'
    ensures Lines(s + "\n") == Lines(s)
    decreases |s|
  {
    var t := s + "\n";
    var i := NewlineIndex(s);
    assert forall k :: 0 <= k < |s| ==> t[k] == s[k];
    if i == |s| {
      LinesCons(s, []);
    } else {
      assert NewlineIndex(t) == i;
      assert t[..i] == s[..i];
      assert t[i + 1..] == s[i + 1..] + "\n";
      LinesFinalNewlineOptional(s[i + 1..]);
    }
  }
}
