/** JavaScript's `String.prototype.split` on a single-character separator, and its inverse `join`. */
module Strings {

  /** The parts glued back together with `sep` between neighbours (JavaScript's `join`). */
  function Join(parts: seq<string>, sep: char): string
    requires |parts| >= 1
  {
    if |parts| == 1 then parts[0] else parts[0] + [sep] + Join(parts[1..], sep)
  }

  /** No part contains the separator. */
  ghost predicate SeparatorFree(parts: seq<string>, sep: char)
  {
    forall i :: 0 <= i < |parts| ==> sep !in parts[i]
  }

  /** Prepending to the first part prepends to the joined string. */
  lemma JoinExtendHead(x: string, parts: seq<string>, sep: char)
    requires |parts| >= 1
    ensures Join([x + parts[0]] + parts[1..], sep) == x + Join(parts, sep)
  {
    var ps := [x + parts[0]] + parts[1..];
    assert ps[1..] == parts[1..];
  }

  /** `s.split(sep)`: every occurrence of `sep` separates two parts, and empty parts are kept,
      so the result always has at least one part and joins back to `s`. */
  function Split(s: string, sep: char): (parts: seq<string>)
    ensures |parts| >= 1
    ensures SeparatorFree(parts, sep)
    ensures Join(parts, sep) == s
    decreases |s|
  {
    if |s| == 0 then [""]
    else
      var rest := Split(s[1..], sep);
      if s[0] == sep then
        assert ([""] + rest)[1..] == rest;
        [""] + rest
      else
        JoinExtendHead([s[0]], rest, sep);
        assert s == [s[0]] + s[1..];
        [[s[0]] + rest[0]] + rest[1..]
  }

  /** Splitting a join of separator-free parts recovers exactly those parts:
      `Split` is the unique separator-free decomposition of its input. */
  lemma {:induction false} SplitJoin(parts: seq<string>, sep: char)
    requires |parts| >= 1 && SeparatorFree(parts, sep)
    ensures Split(Join(parts, sep), sep) == parts
    decreases |Join(parts, sep)|
  {
    var s := Join(parts, sep);
    if parts[0] == "" {
      if |parts| == 1 {
      } else {
        assert s == [sep] + Join(parts[1..], sep);
        assert s[1..] == Join(parts[1..], sep);
        assert SeparatorFree(parts[1..], sep) by {
          forall i | 0 <= i < |parts[1..]| ensures sep !in parts[1..][i] {
            assert parts[1..][i] == parts[i + 1];
          }
        }
        SplitJoin(parts[1..], sep);
        assert parts == [""] + parts[1..];
      }
    } else {
      var c, q := parts[0][0], parts[0][1..];
      assert parts[0] == [c] + q;
      assert c != sep by { assert c == parts[0][0]; }
      var ps := [q] + parts[1..];
      assert ps[1..] == parts[1..];
      assert SeparatorFree(ps, sep) by {
        forall i | 0 <= i < |ps| ensures sep !in ps[i] {
          if i == 0 {
            assert forall ch :: ch in q ==> ch in parts[0];
          } else {
            assert ps[i] == parts[i];
          }
        }
      }
      JoinExtendHead([c], ps, sep);
      assert [[c] + ps[0]] + ps[1..] == parts;
      assert s == [c] + Join(ps, sep);
      assert s[1..] == Join(ps, sep);
      SplitJoin(ps, sep);
    }
  }

  /** A string without the separator splits into itself alone. */
  lemma SplitWithoutSeparator(s: string, sep: char)
    requires sep !in s
    ensures Split(s, sep) == [s]
  {
    SplitJoin([s], sep);
  }
}
