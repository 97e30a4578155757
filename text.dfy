/**
 * The string operations the diary form applies to raw input:
 * `String.prototype.replace` with a negated character class and
 * `String.prototype.split` on one separator character.
 */
module Text {

  /** The characters of `s` that satisfy `keep`, in order: what `s.replace(/[^…]/g, '')` leaves.
      Every accepted character is kept as often as it occurs and every other one is dropped. */
  function KeepIf(s: string, keep: char -> bool): (r: string)
    ensures |r| <= |s|
    ensures forall i :: 0 <= i < |r| ==> keep(r[i])
    ensures forall c :: Count(r, c) == if keep(c) then Count(s, c) else 0
    ensures (forall i :: 0 <= i < |s| ==> keep(s[i])) ==> r == s
    decreases |s|
  {
    if s == [] then []
    else if keep(s[0]) then
      var rest := KeepIf(s[1..], keep);
      assert ([s[0]] + rest)[1..] == rest;
      [s[0]] + rest
    else KeepIf(s[1..], keep)
  }

  /** Filtering distributes over concatenation: together with the one-character cases
      this pins `KeepIf` down completely. */
  lemma {:induction false} KeepIfAppend(a: string, b: string, keep: char -> bool)
    ensures KeepIf(a + b, keep) == KeepIf(a, keep) + KeepIf(b, keep)
    decreases |a|
  {
    if a != [] {
      assert (a + b)[0] == a[0];
      assert (a + b)[1..] == a[1..] + b;
      KeepIfAppend(a[1..], b, keep);
    } else {
      assert a + b == b;
    }
  }

  /** Number of occurrences of `c` in `s`. */
  function Count(s: string, c: char): nat
    decreases |s|
  {
    if s == [] then 0 else (if s[0] == c then 1 else 0) + Count(s[1..], c)
  }

  /** `parts.join(sep)`. */
  function Join(parts: seq<string>, sep: char): string
    requires |parts| >= 1
    decreases |parts|
  {
    if |parts| == 1 then parts[0] else parts[0] + [sep] + Join(parts[1..], sep)
  }

  /** `s.split(sep)`: one more part than there are separators, no part holds a separator,
      and joining the parts back gives `s`. */
  function Split(s: string, sep: char): (parts: seq<string>)
    ensures |parts| == Count(s, sep) + 1
    ensures forall i :: 0 <= i < |parts| ==> sep !in parts[i]
    ensures Join(parts, sep) == s
    decreases |s|
  {
    if s == [] then [[]]
    else
      var rest := Split(s[1..], sep);
      if s[0] == sep then
        assert [s[0]] + s[1..] == s;
        [[]] + rest
      else
        var first := [s[0]] + rest[0];
        assert |rest| > 1 ==> Join(rest, sep) == rest[0] + [sep] + Join(rest[1..], sep);
        assert ([first] + rest[1..])[1..] == rest[1..];
        assert [s[0]] + s[1..] == s;
        [first] + rest[1..]
  }

  /** A separator-free prefix becomes part of the first part. */
  lemma {:induction false} SplitPrefix(a: string, s: string, sep: char)
    requires sep !in a
    ensures Split(a + s, sep) == [a + Split(s, sep)[0]] + Split(s, sep)[1..]
    decreases |a|
  {
    if a == [] {
      var parts := Split(s, sep);
      assert a + s == s;
      assert a + parts[0] == parts[0];
      assert parts == [parts[0]] + parts[1..];
    } else {
      SplitPrefix(a[1..], s, sep);
      assert (a + s)[0] == a[0];
      assert (a + s)[1..] == a[1..] + s;
      assert [a[0]] + (a[1..] + Split(s, sep)[0]) == a + Split(s, sep)[0];
    }
  }

  /** `s.split(sep)` of a string joined from separator-free parts gives those parts back. */
  lemma {:induction false} SplitJoin(parts: seq<string>, sep: char)
    requires |parts| >= 1
    requires forall i :: 0 <= i < |parts| ==> sep !in parts[i]
    ensures Split(Join(parts, sep), sep) == parts
    decreases |parts|
  {
    if |parts| == 1 {
      SplitPrefix(parts[0], [], sep);
      assert parts[0] + [] == parts[0];
      assert parts == [parts[0]];
    } else {
      var tail := Join(parts[1..], sep);
      SplitJoin(parts[1..], sep);
      SplitPrefix(parts[0], [sep] + tail, sep);
      assert parts[0] + [sep] + tail == parts[0] + ([sep] + tail);
      SplitAfterSeparator(tail, sep);
      assert parts[0] + [] == parts[0];
      assert parts == [parts[0]] + parts[1..];
    }
  }

  /** A leading separator splits off an empty first part. */
  lemma {:induction false} SplitAfterSeparator(s: string, sep: char)
    ensures Split([sep] + s, sep) == [[]] + Split(s, sep)
  {
    assert ([sep] + s)[0] == sep;
    assert ([sep] + s)[1..] == s;
  }
}
