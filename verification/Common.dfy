/** Small shared vocabulary. */
module Common {
  datatype Option<+T> = None | Some(value: T)

  /** No element occurs twice. */
  ghost predicate Distinct<T>(s: seq<T>) {
    forall i, j :: 0 <= i < j < |s| ==> s[i] != s[j]
  }

  /** The code points of a text. */
  function Codes(s: string): (codes: seq<int>)
    ensures |codes| == |s| && forall i :: 0 <= i < |s| ==> codes[i] == s[i] as int
  {
    seq(|s|, i requires 0 <= i < |s| => s[i] as int)
  }

  function Flatten<T>(ss: seq<seq<T>>): seq<T> {
    if ss == [] then [] else ss[0] + Flatten(ss[1..])
  }

  lemma {:induction false} FlattenAppend<T>(ss: seq<seq<T>>, s: seq<T>)
    ensures Flatten(ss + [s]) == Flatten(ss) + s
  {
    if ss == [] {
      assert ss + [s] == [s] && [s][1..] == [];
    } else {
      assert (ss + [s])[1..] == ss[1..] + [s];
      FlattenAppend(ss[1..], s);
    }
  }

  lemma FlattenOneMore<T>(before: seq<T>, ss: seq<seq<T>>, j: nat)
    requires j < |ss|
    ensures before + Flatten(ss[..j + 1]) == (before + Flatten(ss[..j])) + ss[j]
  {
    assert ss[..j + 1] == ss[..j] + [ss[j]];
    FlattenAppend(ss[..j], ss[j]);
    Associative(before, Flatten(ss[..j]), ss[j]);
  }

  lemma {:induction false} FlattenHas<T>(ss: seq<seq<T>>, i: nat, x: T)
    requires i < |ss| && x in ss[i]
    ensures x in Flatten(ss)
  {
    if i > 0 { FlattenHas(ss[1..], i - 1, x); }
  }

  lemma {:induction false} FlattenFrom<T>(ss: seq<seq<T>>, x: T) returns (i: nat)
    requires x in Flatten(ss)
    ensures i < |ss| && x in ss[i]
  {
    if x in ss[0] {
      i := 0;
    } else {
      i := FlattenFrom(ss[1..], x);
      i := i + 1;
    }
  }

  lemma Associative<T>(a: seq<T>, b: seq<T>, c: seq<T>)
    ensures a + (b + c) == (a + b) + c
  {
  }

  /** Equal concatenations of which the second begins with the shorter part. */
  lemma FrontsAgree<T>(a: seq<T>, b: seq<T>, c: seq<T>, d: seq<T>)
    requires a + b == c + d && |c| <= |a|
    ensures a[..|c|] == c && a[|c|..] + b == d
  {
    assert a[..|c|] == (a + b)[..|c|] && a[|c|..] + b == (a + b)[|c|..];
  }

  lemma TakeOneMore<T>(a: seq<T>, b: seq<T>, k: nat)
    requires k < |b|
    ensures a + b[..k + 1] == (a + b[..k]) + [b[k]]
  {
  }

  lemma SomeElement(s: set<int>)
    ensures s != {} ==> exists x :: x in s
  {
    if !exists x :: x in s {
      assert s == {};
    }
  }

  /** strings.ReplaceAll: left to right, without overlaps. */
  function ReplaceAll(s: string, needle: string, with: string): string
    requires needle != ""
  {
    if |s| < |needle| then s
    else if s[..|needle|] == needle then with + ReplaceAll(s[|needle|..], needle, with)
    else [s[0]] + ReplaceAll(s[1..], needle, with)
  }
}
