/** Joining strings with a separator (`Array.prototype.join`) and splitting them apart again. */
module Text {

  /** `parts.join(sep)`. */
  function Join(parts: seq<string>, sep: string): string {
    if |parts| == 0 then ""
    else if |parts| == 1 then parts[0]
    else parts[0] + sep + Join(parts[1..], sep)
  }

  /** Splits `s` at every occurrence of `sep`, scanning left to right (`s.split(sep)`). */
  function Split(s: string, sep: string): (r: seq<string>)
    requires sep != []
    ensures r != []
    decreases |s|
  {
    if |s| < |sep| then [s]
    else if s[..|sep|] == sep then [""] + Split(s[|sep|..], sep)
    else
      var rest := Split(s[1..], sep);
      [[s[0]] + rest[0]] + rest[1..]
  }

  /** No part contains the separator's first character, so no separator can start inside a part. */
  predicate SeparableBy(parts: seq<string>, sep: string)
    requires sep != []
  {
    forall i :: 0 <= i < |parts| ==> sep[0] !in parts[i]
  }

  lemma {:induction false} SplitWithoutSeparator(p: string, sep: string)
    requires sep != [] && sep[0] !in p
    ensures Split(p, sep) == [p]
    decreases |p|
  {
    if |p| >= |sep| {
      assert p[0] != sep[0];
      assert p[..|sep|] != sep;
      assert sep[0] !in p[1..];
      SplitWithoutSeparator(p[1..], sep);
      assert [p[0]] + p[1..] == p;
    }
  }

  lemma {:induction false} SplitAtFirstSeparator(p: string, sep: string, rest: string)
    requires sep != [] && sep[0] !in p
    ensures Split(p + sep + rest, sep) == [p] + Split(rest, sep)
    decreases |p|
  {
    var s := p + sep + rest;
    if p == [] {
      assert s == sep + rest;
      assert s[..|sep|] == sep;
      assert s[|sep|..] == rest;
    } else {
      assert s[0] == p[0] != sep[0];
      assert s[..|sep|] != sep;
      assert s[1..] == p[1..] + sep + rest;
      assert sep[0] !in p[1..];
      SplitAtFirstSeparator(p[1..], sep, rest);
      assert [p[0]] + p[1..] == p;
    }
  }

  /** Splitting undoes joining, provided the parts cannot be confused with the separator. */
  lemma {:induction false} SplitJoin(parts: seq<string>, sep: string)
    requires sep != [] && parts != [] && SeparableBy(parts, sep)
    ensures Split(Join(parts, sep), sep) == parts
  {
    if |parts| == 1 {
      SplitWithoutSeparator(parts[0], sep);
    } else {
      assert SeparableBy(parts[1..], sep);
      SplitJoin(parts[1..], sep);
      SplitAtFirstSeparator(parts[0], sep, Join(parts[1..], sep));
      assert [parts[0]] + parts[1..] == parts;
    }
  }
}
