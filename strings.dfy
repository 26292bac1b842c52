/** The JavaScript string and array built-ins the generator relies on
    (`String.prototype.charAt`, `slice`, `toUpperCase`, `Array.prototype.join`),
    restricted to what the generator uses, and `Split`, the inverse of `Join`
    that the lemmas use to read a rendered file back as a list of lines. */
module Strings {

  /** Upper-case one character, ASCII only: `a`..`z` become `A`..`Z`,
      every other character is left as it is. */
  function UpperAscii(c: char): (u: char)
  {
    if IsLowerAscii(c) then (c as int - 32) as char else c
  }

  predicate IsLowerAscii(c: char)
  {
    'a' <= c <= 'z'
  }

  predicate IsUpperAscii(c: char)
  {
    'A' <= c <= 'Z'
  }

  /** `s.charAt(i)`: the one-character string at `i`, or "" past the end. */
  function CharAt(s: string, i: nat): (t: string)
  {
    if i < |s| then [s[i]] else ""
  }

  /** `s.slice(start)` for a non-negative start: the suffix from `start`,
      or "" past the end. */
  function Slice(s: string, start: nat): (t: string)
  {
    if start <= |s| then s[start..] else ""
  }

  /** `t.toUpperCase()` under the ASCII model: character by character,
      so the length never changes. */
  function ToUpperCase(t: string): (u: string)
  {
    seq(|t|, i requires 0 <= i < |t| => UpperAscii(t[i]))
  }

  /** `xs.join(sep)`: the items in order, `sep` between neighbours and
      nowhere else; "" for no items. */
  function Join(xs: seq<string>, sep: string): (joined: string)
    ensures xs == [] ==> joined == ""
    ensures xs != [] ==> xs[0] <= joined
  {
    if |xs| == 0 then ""
    else if |xs| == 1 then xs[0]
    else xs[0] + sep + Join(xs[1..], sep)
  }

  /** Cut `s` at every occurrence of `c`. Always at least one piece, and no
      piece contains `c`. */
  function Split(s: string, c: char): (parts: seq<string>)
    ensures |parts| >= 1
    ensures forall i :: 0 <= i < |parts| ==> c !in parts[i]
    decreases |s|
  {
    if s == [] then [[]]
    else
      var rest := Split(s[1..], c);
      if s[0] == c then [[]] + rest
      else [[s[0]] + rest[0]] + rest[1..]
  }

  /** The lines of a text: the pieces between newline characters. */
  function Lines(s: string): (lines: seq<string>)
    ensures |lines| >= 1
  {
    Split(s, '\n')
  }

  /** A string without the separator splits into itself. */
  lemma {:induction false} SplitNoSeparator(x: string, c: char)
    requires c !in x
    ensures Split(x, c) == [x]
    decreases |x|
  {
    if x != [] {
      assert c !in x[1..] by {
        forall k | 0 <= k < |x[1..]| ensures x[1..][k] != c {
          assert x[1..][k] == x[k + 1];
        }
      }
      SplitNoSeparator(x[1..], c);
      assert [x[0]] + x[1..] == x;
    }
  }

  /** Splitting at a separator that sits between two texts splits each
      text on its own and puts the pieces side by side. */
  lemma {:induction false} SplitAround(x: string, c: char, y: string)
    ensures Split(x + [c] + y, c) == Split(x, c) + Split(y, c)
    decreases |x|
  {
    var s := x + [c] + y;
    if x == [] {
      assert s[0] == c && s[1..] == y;
    } else {
      assert s[0] == x[0];
      assert s[1..] == x[1..] + [c] + y;
      SplitAround(x[1..], c, y);
    }
  }

  /** Splitting what `Join` produced gives the items back, as long as no item
      contains the separator and there is at least one item (`Join([])` and
      `Join([""])` are both ""). */
  lemma {:induction false} SplitJoin(xs: seq<string>, c: char)
    requires |xs| >= 1
    requires forall i :: 0 <= i < |xs| ==> c !in xs[i]
    ensures Split(Join(xs, [c]), c) == xs
    decreases |xs|
  {
    SplitNoSeparator(xs[0], c);
    if |xs| > 1 {
      SplitJoin(xs[1..], c);
      SplitAround(xs[0], c, Join(xs[1..], [c]));
      assert [xs[0]] + xs[1..] == xs;
    }
  }

  /** Joining the pieces of a split with the separator restores the text. */
  lemma {:induction false} JoinSplit(s: string, c: char)
    ensures Join(Split(s, c), [c]) == s
    decreases |s|
  {
    if s != [] {
      var rest := Split(s[1..], c);
      JoinSplit(s[1..], c);
      if s[0] == c {
        assert Join(Split(s, c), [c]) == [] + [c] + Join(rest, [c]);
        assert [s[0]] + s[1..] == s;
      } else if |rest| == 1 {
        assert [s[0]] + s[1..] == s;
      } else {
        assert rest == [rest[0]] + rest[1..];
        assert Join(rest, [c]) == rest[0] + [c] + Join(rest[1..], [c]);
        assert [s[0]] + s[1..] == s;
      }
    }
  }
}
