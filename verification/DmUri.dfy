/** Segments of URIs in the device management tree. */
module DmUri {
  import opened Common

  const SEPARATOR: char := '/'
  const ROOT_URI: string := "."

  // ------------------------------------------------------------------------------------------
  // The meaning of a URI: its pieces between the separators
  // ------------------------------------------------------------------------------------------

  /** The pieces of a URI. */
  function Split(uri: string): (pieces: seq<string>)
    ensures |pieces| >= 1
    decreases |uri|
  {
    var i := Locate(uri, SEPARATOR);
    if i < 0 then [uri] else [uri[..i]] + Split(uri[i + 1..])
  }

  function Join(pieces: seq<string>): string {
    if pieces == [] then ""
    else if |pieces| == 1 then pieces[0]
    else pieces[0] + ([SEPARATOR] + Join(pieces[1..]))
  }

  /** A list of pieces that a URI can have. */
  predicate Pieces(pieces: seq<string>) {
    pieces != [] && forall i :: 0 <= i < |pieces| ==> SEPARATOR !in pieces[i]
  }

  lemma {:induction false} SplitConcat(a: string, b: string)
    ensures Split(a + [SEPARATOR] + b) == Split(a) + Split(b)
    decreases |a|
  {
    hide Locate;
    var i := Locate(a, SEPARATOR);
    if i < 0 {
      LocateAt(a, SEPARATOR, b);
      assert (a + [SEPARATOR] + b)[..|a|] == a && (a + [SEPARATOR] + b)[|a| + 1..] == b;
    } else {
      var rest := a[i + 1..];
      assert a == a[..i] + [SEPARATOR] + rest;
      var all := a[..i] + [SEPARATOR] + (rest + [SEPARATOR] + b);
      assert a + [SEPARATOR] + b == all;
      LocateAt(a[..i], SEPARATOR, rest + [SEPARATOR] + b);
      assert all[..i] == a[..i] && all[i + 1..] == rest + [SEPARATOR] + b;
      SplitConcat(rest, b);
      Associate([a[..i]], Split(rest), Split(b));
    }
  }

  lemma {:induction false} SplitPieces(uri: string)
    ensures Pieces(Split(uri))
    decreases |uri|
  {
    hide Locate;
    var i := Locate(uri, SEPARATOR);
    if i >= 0 {
      SplitPieces(uri[i + 1..]);
    }
  }

  lemma SplitSimple(uri: string)
    requires SEPARATOR !in uri
    ensures Split(uri) == [uri]
  {
  }

  lemma JoinOne(piece: string)
    ensures Join([piece]) == piece
  {
  }

  lemma {:induction false} JoinSplit(uri: string)
    ensures Join(Split(uri)) == uri
    decreases |uri|
  {
    hide Locate;
    var i := Locate(uri, SEPARATOR);
    if i >= 0 {
      JoinSplit(uri[i + 1..]);
      assert Split(uri)[1..] == Split(uri[i + 1..]);
      assert uri == uri[..i] + ([SEPARATOR] + uri[i + 1..]);
    }
  }

  lemma {:induction false} SplitJoin(pieces: seq<string>)
    requires Pieces(pieces)
    ensures Split(Join(pieces)) == pieces
  {
    hide Split;
    if |pieces| == 1 {
      SplitSimple(pieces[0]);
    } else {
      SplitJoin(pieces[1..]);
      SplitSimple(pieces[0]);
      SplitConcat(pieces[0], Join(pieces[1..]));
      Associate(pieces[0], [SEPARATOR], Join(pieces[1..]));
    }
  }

  /** A character other than the separator extends the last piece. */
  lemma {:induction false} SplitExtend(a: string, c: char)
    requires c != SEPARATOR
    ensures |Split(a + [c])| == |Split(a)|
    decreases |a|
  {
    hide Split;
    hide Locate;
    var i := Locate(a, SEPARATOR);
    if i < 0 {
      SplitSimple(a);
      SplitSimple(a + [c]);
    } else {
      var rest := a[i + 1..];
      assert a + [c] == a[..i] + [SEPARATOR] + (rest + [c]);
      assert a == a[..i] + [SEPARATOR] + rest;
      SplitConcat(a[..i], rest + [c]);
      SplitConcat(a[..i], rest);
      SplitExtend(rest, c);
    }
  }

  lemma PiecesOfPrefix(uri: string, i: nat)
    requires i < |uri|
    ensures |Split(uri[..i + 1])| == |Split(uri[..i])| + if uri[i] == SEPARATOR then 1 else 0
  {
    hide Split;
    SplitAt(uri, i);
    if uri[i] == SEPARATOR {
      assert uri[..i] + [SEPARATOR] == uri[..i] + [SEPARATOR] + "";
      SplitSimple("");
      SplitConcat(uri[..i], "");
    } else {
      SplitExtend(uri[..i], uri[i]);
    }
  }

  /** Cutting a URI at one of its separators cuts the list of its pieces. */
  lemma CutAt(uri: string, i: nat)
    requires i < |uri| && uri[i] == SEPARATOR
    ensures Split(uri) == Split(uri[..i]) + Split(uri[i + 1..])
  {
    hide Split;
    SplitAt(uri, i);
    SplitConcat(uri[..i], uri[i + 1..]);
  }

  // ------------------------------------------------------------------------------------------
  // Counting and selecting segments
  // ------------------------------------------------------------------------------------------

  method NumOfURISegs(uri: string) returns (numOfURISegs: nat)
    ensures numOfURISegs == |Split(uri)|
  {
    hide Split;
    numOfURISegs := 1;
    assert uri[..0] == "";
    SplitSimple("");
    for i := 0 to |uri|
      invariant numOfURISegs == |Split(uri[..i])|
    {
      PiecesOfPrefix(uri, i);
      if uri[i] == SEPARATOR {
        numOfURISegs := numOfURISegs + 1;
      }
    }
    assert uri[..|uri|] == uri;
  }

  /** `count` pieces from piece `location` on, rejoined; a count below one asks for all the rest. */
  function Segments(uri: string, location: int, count: int): string {
    var n := |Split(uri)|;
    if location < 0 || location >= n then ""
    else Join(Split(uri)[location..if count < 1 || location + count > n then n else location + count])
  }

  /** Position of the separator before piece `location`, or the length when there is no such piece. */
  method FindStart(uri: string, location: int) returns (start: nat)
    requires location > 0
    ensures start < |uri| ==> uri[start] == SEPARATOR && |Split(uri[..start])| == location
    ensures start >= |uri| ==> start == |uri| && |Split(uri)| <= location
  {
    hide Split;
    start := 0;
    var i := 0;
    assert uri[..0] == "";
    SplitSimple("");
    while start < |uri| && i < location
      invariant start <= |uri| && i < location
      invariant |Split(uri[..start])| == i + 1
    {
      PiecesOfPrefix(uri, start);
      if uri[start] == SEPARATOR {
        i := i + 1;
      }
      if i == location {
        break;
      }
      start := start + 1;
    }
    assert uri[..|uri|] == uri;
  }

  /** End of the first `count` pieces of what follows `from`. */
  method FindEnd(uri: string, from: nat, count: int) returns (end: nat)
    requires from <= |uri|
    ensures from <= end <= |uri|
    ensures end < |uri| ==> uri[end] == SEPARATOR && |Split(uri[from..end])| == count
    ensures end == |uri| ==> count < 1 || |Split(uri[from..])| <= count
  {
    hide Split;
    ghost var rest := uri[from..];
    var segCount := count;
    end := from;
    assert rest[..0] == "";
    SplitSimple("");
    while end < |uri|
      invariant from <= end <= |uri|
      invariant segCount == count + 1 - |Split(rest[..end - from])|
      invariant count >= 1 ==> segCount >= 1
    {
      assert uri[end] == rest[end - from];
      PiecesOfPrefix(rest, end - from);
      if uri[end] == SEPARATOR {
        segCount := segCount - 1;
        if segCount == 0 {
          assert rest[..end - from] == uri[from..end];
          return;
        }
      }
      end := end + 1;
    }
    assert rest[..end - from] == rest;
  }

  /** The pieces from `location` on, `count` of them, whatever the two numbers are. */
  method URISeg(uri: string, location: int, count: int) returns (r: string)
    ensures r == Segments(uri, location, count)
  {
    hide Join;
    hide Split;
    if location < 0 {
      return "";
    }
    var start := -1;
    if location > 0 {
      start := FindStart(uri, location);
    }
    if start + 1 >= |uri| {
      EmptySegment(uri, location, count, start);
      return "";
    }
    var i := FindEnd(uri, start + 1, count);
    r := uri[start + 1..i];
    SegmentBetween(uri, location, count, start, i);
  }

  /** `start` is the separator before piece `location`, or past the end. */
  predicate Starts(uri: string, location: nat, start: int) {
    if location == 0 then start == -1
    else if 0 <= start < |uri| then uri[start] == SEPARATOR && |Split(uri[..start])| == location
    else start == |uri| && |Split(uri)| <= location
  }

  lemma EmptySegment(uri: string, location: nat, count: int, start: int)
    requires Starts(uri, location, start) && start + 1 >= |uri|
    ensures Segments(uri, location, count) == ""
  {
    hide Split;
    if location == 0 {
      SplitSimple(uri);
    } else if start < |uri| {
      CutAt(uri, start);
      assert uri[start + 1..] == "";
      SplitSimple("");
      assert Split(uri)[location..] == [""];
    }
  }

  lemma SegmentBetween(uri: string, location: nat, count: int, start: int, end: nat)
    requires Starts(uri, location, start) && start + 1 < |uri|
    requires start + 1 <= end <= |uri|
    requires end < |uri| ==> uri[end] == SEPARATOR && |Split(uri[start + 1..end])| == count
    requires end == |uri| ==> count < 1 || |Split(uri[start + 1..])| <= count
    ensures Segments(uri, location, count) == uri[start + 1..end]
  {
    hide Join;
    hide Split;
    var rest, part := uri[start + 1..], uri[start + 1..end];
    if location > 0 {
      CutAt(uri, start);
    }
    assert Split(uri)[location..] == Split(rest);
    JoinSplit(part);
    if end < |uri| {
      CutAt(rest, end - start - 1);
      assert rest[..end - start - 1] == part;
      assert Split(uri)[location..location + count] == Split(rest)[..count] == Split(part);
    } else {
      assert part == rest;
      assert |Split(uri)| == location + |Split(rest)|;
      assert Split(uri)[location..|Split(uri)|] == Split(part);
    }
  }

  // ------------------------------------------------------------------------------------------
  // The last segment and the parent
  // ------------------------------------------------------------------------------------------

  /** The only separator, if there is one at all, comes first. */
  predicate RootedOnly(pieces: seq<string>) {
    |pieces| == 2 && pieces[0] == ""
  }

  function ParentOf(uri: string): string {
    var p := Split(uri);
    if |p| == 1 then ROOT_URI else Join(p[..|p| - 1])
  }

  /** Everything but the last piece; nothing is left of a URI whose only separator comes first. */
  function WithoutLast(uri: string): string {
    var p := Split(uri);
    if |p| == 1 || RootedOnly(p) then "" else Join(p[..|p| - 1])
  }

  /** The last piece; a URI whose only separator comes first is its own last segment. */
  function LastOf(uri: string): string {
    var p := Split(uri);
    if RootedOnly(p) then uri else p[|p| - 1]
  }

  /** Position of the last separator, or -1. */
  method LastSeparator(uri: string) returns (i: int)
    ensures -1 <= i < |uri|
    ensures i >= 0 ==> uri == uri[..i] + [SEPARATOR] + uri[i + 1..]
    ensures SEPARATOR !in uri[i + 1..] && (i < 0 ==> uri[i + 1..] == uri)
  {
    i := |uri| - 1;
    while i >= 0
      invariant -1 <= i < |uri|
      invariant SEPARATOR !in uri[i + 1..]
    {
      if uri[i] == SEPARATOR {
        break;
      }
      assert uri[i..] == [uri[i]] + uri[i + 1..];
      i := i - 1;
    }
  }

  /** The pieces of a URI cut at its last separator. */
  lemma LastPieces(front: string, last: string)
    requires SEPARATOR !in last
    ensures var p := Split(front + [SEPARATOR] + last);
            && |p| > 1 && p[|p| - 1] == last && Join(p[..|p| - 1]) == front
            && (RootedOnly(p) <==> front == "")
  {
    hide Join;
    hide Split;
    SplitConcat(front, last);
    SplitSimple(last);
    JoinSplit(front);
    var q := Split(front);
    assert (q + [last])[..|q|] == q;
    if front == "" {
      SplitSimple("");
    }
    if |q| == 1 {
      assert q == [q[0]];
      JoinOne(q[0]);
    }
  }

  method ParentURI(uri: string) returns (r: string)
    ensures r == ParentOf(uri)
  {
    hide Join;
    hide Split;
    var i := LastSeparator(uri);
    if i < 0 {
      SplitSimple(uri);
      r := ROOT_URI;
    } else {
      LastPieces(uri[..i], uri[i + 1..]);
      r := uri[..i];
    }
  }

  method LastURISeg(uri: string) returns (r: string)
    ensures r == LastOf(uri)
  {
    hide Join;
    hide Split;
    var i := LastSeparator(uri);
    if i < 0 {
      SplitSimple(uri);
    } else {
      LastPieces(uri[..i], uri[i + 1..]);
    }
    if i == 0 {
      r := uri;
    } else {
      r := uri[i + 1..];
    }
  }

  method RemoveLastSeg(uri: string) returns (r: string)
    ensures r == WithoutLast(uri)
  {
    hide Join;
    hide Split;
    var i := LastSeparator(uri);
    if i < 0 {
      SplitSimple(uri);
    } else {
      LastPieces(uri[..i], uri[i + 1..]);
    }
    if i > 0 {
      r := uri[..i];
    } else {
      r := "";
    }
  }

  lemma {:induction false} JoinLast(pieces: seq<string>)
    requires |pieces| >= 2
    ensures Join(pieces) == Join(pieces[..|pieces| - 1]) + [SEPARATOR] + pieces[|pieces| - 1]
  {
    var init, last := pieces[..|pieces| - 1], pieces[|pieces| - 1];
    if |pieces| == 2 {
      assert pieces[1..] == [last] && init == [pieces[0]];
      Associate(pieces[0], [SEPARATOR], last);
    } else {
      assert pieces[1..][..|pieces| - 2] == init[1..];
      JoinLast(pieces[1..]);
      Regroup(pieces[0], SEPARATOR, Join(init[1..]), last);
    }
  }

  /** Exactly when the two halves rebuild the URI: it has a separator that is not its only one and
      first, that is, its last separator is at an index above zero. */
  lemma RebuildIff(uri: string)
    ensures WithoutLast(uri) + [SEPARATOR] + LastOf(uri) == uri <==>
            |Split(uri)| >= 2 && !RootedOnly(Split(uri))
  {
    hide Join;
    hide Split;
    var p := Split(uri);
    JoinSplit(uri);
    if |p| >= 2 && !RootedOnly(p) {
      JoinLast(p);
    } else {
      assert |p| == 1 ==> p == [p[0]];
      JoinOne(p[0]);
      assert LastOf(uri) == uri;
      assert |WithoutLast(uri) + [SEPARATOR] + LastOf(uri)| == |uri| + 1;
    }
  }

  // ------------------------------------------------------------------------------------------
  // Walking up
  // ------------------------------------------------------------------------------------------

  function Ancestor(uri: string, steps: nat): string {
    if steps == 0 then uri else ParentOf(Ancestor(uri, steps - 1))
  }

  /** Any run of rejoined pieces is found again, and all the rest for a count below one. */
  lemma RunOfPieces(p: seq<string>, location: int, count: int)
    requires Pieces(p)
    ensures Segments(Join(p), location, count) ==
            if location < 0 || location >= |p| then ""
            else if 1 <= count <= |p| - location then Join(p[location..location + count])
            else Join(p[location..])
  {
    SplitJoin(p);
    hide Split;
    hide Join;
    hide Pieces;
    if 0 <= location < |p| {
      assert p[location..|p|] == p[location..];
    }
  }

  /** The parent and the front of rejoined pieces are those without the last, and the last segment is the
      last piece; a single piece has the root URI above it and nothing in front, and neither has what
      follows a leading separator. */
  lemma EndsOfPieces(p: seq<string>)
    requires Pieces(p)
    ensures ParentOf(Join(p)) == if |p| == 1 then ROOT_URI else Join(p[..|p| - 1])
    ensures var rooted := |p| == 2 && p[0] == "";
            && WithoutLast(Join(p)) == (if |p| == 1 || rooted then "" else Join(p[..|p| - 1]))
            && LastOf(Join(p)) == (if rooted then [SEPARATOR] + p[1] else p[|p| - 1])
  {
    SplitJoin(p);
    hide Split;
    if RootedOnly(p) {
      RootedText(p);
    }
    hide Join;
  }

  lemma RootedText(p: seq<string>)
    requires RootedOnly(p)
    ensures Join(p) == [SEPARATOR] + p[1]
  {
    assert Join(p[1..]) == p[1];
    assert "" + ([SEPARATOR] + p[1]) == [SEPARATOR] + p[1];
  }

  /** The ancestor `steps` above has as many pieces less, until the root URI is reached. */
  lemma {:induction false} AncestorPieces(uri: string, steps: nat)
    ensures var p := Split(uri);
            Ancestor(uri, steps) == if steps < |p| then Join(p[..|p| - steps]) else ROOT_URI
  {
    hide Join;
    hide Split;
    var p := Split(uri);
    SplitPieces(uri);
    if steps == 0 {
      JoinSplit(uri);
      assert p[..|p|] == p;
    } else {
      AncestorPieces(uri, steps - 1);
      if steps - 1 < |p| {
        var q := p[..|p| - (steps - 1)];
        SplitJoin(q);
        assert |q| > 1 ==> q[..|q| - 1] == p[..|p| - steps];
      } else {
        SplitSimple(ROOT_URI);
      }
    }
  }

  /** Walking up reaches the root URI after exactly as many steps as there are segments, one less
      when the first segment is the root URI itself, and stays there. */
  lemma RootReached(uri: string, steps: nat)
    ensures var p := Split(uri);
            Ancestor(uri, steps) == ROOT_URI <==> steps >= |p| || (steps == |p| - 1 && p[0] == ROOT_URI)
  {
    hide Split;
    var p := Split(uri);
    SplitPieces(uri);
    AncestorPieces(uri, steps);
    if steps < |p| {
      var q := p[..|p| - steps];
      SplitJoin(q);
      SplitSimple(ROOT_URI);
      if Join(q) == ROOT_URI {
        assert q == [ROOT_URI];
      }
    }
  }
}
