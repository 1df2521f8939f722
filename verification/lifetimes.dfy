/** The lifetimes exercise: `longest_with_an_announcement` picks the longer of two
    strings by byte length. The announcement is only printed. */
module Lifetimes {
  import opened Text

  /** Rust's `char::len_utf8`: bytes the UTF-8 encoding of `c` takes, by the ranges of
      the encoding's one-, two-, three- and four-byte forms. */
  function Utf8Width(c: char): (w: nat)
    ensures 1 <= w <= 4
    ensures w == 1 <==> c as int < 0x80
    ensures w == 2 <==> 0x80 <= c as int < 0x800
    ensures w == 3 <==> 0x800 <= c as int < 0x1_0000
    ensures w == 4 <==> 0x1_0000 <= c as int
  {
    var n := c as int;
    if n < 0x80 then 1 else if n < 0x800 then 2 else if n < 0x1_0000 then 3 else 4
  }

  /** Rust's `str::len`: the length of the UTF-8 encoding, in bytes. */
  function ByteLen(s: String): (n: nat)
    ensures |s| <= n <= 4 * |s|
  {
    if s == [] then 0 else Utf8Width(s[0]) + ByteLen(s[1..])
  }

  /** The byte length of a concatenation is the sum of the byte lengths. */
  lemma {:induction false} ByteLenAppend(s: String, t: String)
    ensures ByteLen(s + t) == ByteLen(s) + ByteLen(t)
  {
    if s == [] {
      assert s + t == t;
    } else {
      assert (s + t)[0] == s[0];
      assert (s + t)[1..] == s[1..] + t;
      ByteLenAppend(s[1..], t);
    }
  }

  /** Rust's `longest_with_an_announcement`: `x` when it is strictly longer in bytes,
      otherwise `y` (so a tie goes to `y`). `ann` has no effect on the result. */
  function Longest<T>(x: String, y: String, ann: T): (r: String)
    ensures ByteLen(x) > ByteLen(y) ==> r == x
    ensures ByteLen(x) <= ByteLen(y) ==> r == y
  {
    if ByteLen(x) > ByteLen(y) then x else y
  }

  /** The result is one of the inputs, no shorter than either, and does not depend on
      the announcement. */
  lemma LongestIsMax<T>(x: String, y: String, ann: T, other: T)
    ensures var r := Longest(x, y, ann);
      && (r == x || r == y)
      && ByteLen(r) == (if ByteLen(x) > ByteLen(y) then ByteLen(x) else ByteLen(y))
      && Longest(x, y, other) == r
  {
  }

  /** When the byte lengths differ, the order of the arguments does not matter. */
  lemma LongestSymmetric<T>(x: String, y: String, ann: T)
    requires ByteLen(x) != ByteLen(y)
    ensures Longest(x, y, ann) == Longest(y, x, ann)
  {
  }

  /** The demonstration in `main`: `"abcd"` is longer than `"xyz"`. */
  lemma LongestExample()
    ensures Longest("abcd", "xyz", "Hello World") == "abcd"
  {
    assert ByteLen("xyz") == 3;
    assert ByteLen("abcd") == 4;
  }
}
