/** `split` and `join` at one separator character. */
module Separated {
  function SepAt(s: string, sep: char): (i: nat)
    ensures i <= |s| && sep !in s[..i] && (i < |s| ==> s[i] == sep)
  {
    if s == "" || s[0] == sep then 0
    else
      var j := SepAt(s[1..], sep);
      assert s[..j + 1] == [s[0]] + s[1..][..j];
      j + 1
  }

  /** `split(sep)` */
  function Split(s: string, sep: char): (parts: seq<string>)
    ensures parts != [] && forall i :: 0 <= i < |parts| ==> sep !in parts[i]
    decreases |s|
  {
    var i := SepAt(s, sep);
    if i == |s| then [s[..i]] else [s[..i]] + Split(s[i + 1..], sep)
  }

  /** `join(sep)` */
  function Join(parts: seq<string>, sep: char): string {
    if parts == [] then "" else if |parts| == 1 then parts[0] else parts[0] + [sep] + Join(parts[1..], sep)
  }

  lemma JoinCons(a: string, rest: seq<string>, sep: char)
    requires rest != []
    ensures Join([a] + rest, sep) == a + [sep] + Join(rest, sep)
  {
    assert ([a] + rest)[1..] == rest;
  }

  lemma {:induction false} JoinOfSplit(s: string, sep: char)
    ensures Join(Split(s, sep), sep) == s
    decreases |s|
  {
    var i := SepAt(s, sep);
    if i == |s| {
      assert s[..i] == s;
    } else {
      JoinOfSplit(s[i + 1..], sep);
      JoinCons(s[..i], Split(s[i + 1..], sep), sep);
      assert s == s[..i] + [sep] + s[i + 1..];
    }
  }

  lemma {:induction false} SepAtFirst(a: string, b: string, sep: char)
    requires sep !in a
    ensures SepAt(a + [sep] + b, sep) == |a|
  {
    var t := a + [sep] + b;
    if a != "" {
      assert t[1..] == a[1..] + [sep] + b;
      SepAtFirst(a[1..], b, sep);
    }
  }

  lemma SplitFirst(a: string, b: string, sep: char)
    requires sep !in a
    ensures Split(a + [sep] + b, sep) == [a] + Split(b, sep)
  {
    var t := a + [sep] + b;
    SepAtFirst(a, b, sep);
    assert t[..|a|] == a && t[|a| + 1..] == b;
  }

  lemma Regrouped(a: string, x: seq<string>, y: seq<string>)
    ensures [a] + (x + y) == ([a] + x) + y
  {}

  /** Splitting finds the parts again up to the first that holds a separator. */
  lemma {:induction false} SplitOfJoin(parts: seq<string>, k: nat, sep: char)
    requires k < |parts| && forall i :: 0 <= i < k ==> sep !in parts[i]
    ensures Split(Join(parts, sep), sep) == parts[..k] + Split(Join(parts[k..], sep), sep)
    decreases k
  {
    if k == 0 {
      assert parts[0..] == parts && parts[..0] == [];
    } else {
      var a, tail := parts[0], parts[1..];
      assert parts == [a] + tail;
      JoinCons(a, tail, sep);
      SplitFirst(a, Join(tail, sep), sep);
      SplitOfJoin(tail, k - 1, sep);
      assert tail[k - 1..] == parts[k..];
      Regrouped(a, tail[..k - 1], Split(Join(parts[k..], sep), sep));
      assert parts[..k] == [a] + tail[..k - 1];
    }
  }

  lemma SplitWhole(s: string, sep: char)
    requires sep !in s
    ensures Split(s, sep) == [s]
  {
    assert SepAt(s, sep) == |s|;
    assert s[..|s|] == s;
  }
}
