/** Notions shared by the models of the different components. */
module Common {

  datatype Option<+T> = None | Some(value: T)

  /** Index of the first occurrence of a character, or -1. */
  function Locate(s: string, c: char): (r: int)
    ensures -1 <= r < |s|
    ensures r >= 0 ==> s[r] == c && c !in s[..r]
    ensures r < 0 ==> c !in s
  {
    if s == "" then -1
    else if s[0] == c then 0
    else
      var r := Locate(s[1..], c);
      if r < 0 then -1
      else
        assert s[..r + 1] == [s[0]] + s[1..][..r];
        r + 1
  }

  lemma LocateAt(s: string, c: char, t: string)
    requires c !in s
    ensures Locate(s + [c] + t, c) == |s|
  {
    var all := s + [c] + t;
    assert all[|s|] == c;
    assert forall i :: 0 <= i < |s| ==> all[i] == s[i];
  }

  lemma Associate<T>(a: seq<T>, b: seq<T>, c: seq<T>)
    ensures a + b + c == a + (b + c)
  {
  }

  /** Moving a separator out of nested concatenations. */
  lemma Regroup<T>(a: seq<T>, x: T, b: seq<T>, c: seq<T>)
    ensures a + ([x] + (b + [x] + c)) == a + ([x] + b) + [x] + c
  {
  }

  lemma SamePrefix<T>(a: seq<T>, x: seq<T>, y: seq<T>)
    ensures a + x == a + y <==> x == y
  {
    assert (a + x)[|a|..] == x && (a + y)[|a|..] == y;
  }

  lemma SplitAt<T>(s: seq<T>, k: nat)
    requires k < |s|
    ensures s == s[..k] + [s[k]] + s[k + 1..]
    ensures s[..k + 1] == s[..k] + [s[k]]
    ensures forall x :: x in s[..k] || x in s[k + 1..] ==> x in s
  {
  }
}
