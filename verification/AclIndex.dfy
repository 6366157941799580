/** The list of ACL nodes ordered by URI, and the map from URI to node that it stands for. */
module AclIndex {
  import opened Common
  import opened AclTypes

  // ------------------------------------------------------------------------------------------
  // The order of descriptors
  // ------------------------------------------------------------------------------------------

  /** Descriptor comparison: the first differing byte decides, then the length. */
  predicate Less(a: string, b: string) {
    if b == "" then false
    else if a == "" then true
    else a[0] < b[0] || (a[0] == b[0] && Less(a[1..], b[1..]))
  }

  lemma {:induction false} LessIrreflexive(a: string)
    ensures !Less(a, a)
  {
    if a != "" {
      LessIrreflexive(a[1..]);
    }
  }

  lemma {:induction false} LessTransitive(a: string, b: string, c: string)
    requires Less(a, b) && Less(b, c)
    ensures Less(a, c)
  {
    if a != "" && a[0] == b[0] == c[0] {
      LessTransitive(a[1..], b[1..], c[1..]);
    }
  }

  lemma {:induction false} LessTotal(a: string, b: string)
    ensures Less(a, b) || a == b || Less(b, a)
  {
    if a != "" && b != "" && a[0] == b[0] {
      LessTotal(a[1..], b[1..]);
      assert a == [a[0]] + a[1..] && b == [b[0]] + b[1..];
    }
  }

  /** URIs in strictly increasing order. */
  predicate Increasing(uris: seq<string>) {
    forall i, j :: 0 <= i < j < |uris| ==> Less(uris[i], uris[j])
  }

  lemma IncreasingDistinct(uris: seq<string>, i: nat, j: nat)
    requires Increasing(uris) && i < |uris| && j < |uris| && uris[i] == uris[j]
    ensures i == j
  {
    LessIrreflexive(uris[i]);
  }

  // ------------------------------------------------------------------------------------------
  // Nodes by URI
  // ------------------------------------------------------------------------------------------

  function Uris(nodes: seq<NodeValue>): (r: seq<string>)
    ensures |r| == |nodes|
    ensures forall i :: 0 <= i < |nodes| ==> r[i] == nodes[i].uri
  {
    seq(|nodes|, i requires 0 <= i < |nodes| => nodes[i].uri)
  }

  predicate Sorted(nodes: seq<NodeValue>) {
    Increasing(Uris(nodes))
  }

  /** The map that a list of nodes stands for. */
  function ToMap(nodes: seq<NodeValue>): (m: map<string, NodeValue>) {
    if nodes == [] then map[] else ToMap(nodes[..|nodes| - 1])[nodes[|nodes| - 1].uri := nodes[|nodes| - 1]]
  }

  /** The map holds exactly the nodes of the list, each under its own URI. */
  ghost predicate Maps(m: map<string, NodeValue>, nodes: seq<NodeValue>) {
    && (forall n :: n in nodes ==> n.uri in m && m[n.uri] == n)
    && (forall u :: u in m ==> m[u] in nodes && m[u].uri == u)
  }

  lemma {:induction false} ToMapElements(nodes: seq<NodeValue>)
    requires Sorted(nodes)
    ensures Maps(ToMap(nodes), nodes)
  {
    if nodes != [] {
      var last := |nodes| - 1;
      var init, n := nodes[..last], nodes[last];
      assert forall i :: 0 <= i < last ==> Uris(init)[i] == Uris(nodes)[i];
      ToMapElements(init);
      forall x | x in init
        ensures x.uri != n.uri
      {
        var i :| 0 <= i < last && init[i] == x;
        assert Less(Uris(nodes)[i], Uris(nodes)[last]);
        LessIrreflexive(x.uri);
      }
      assert nodes == init + [n];
      MapsAppended(ToMap(init), init, n);
    }
  }

  lemma MapsAppended(m: map<string, NodeValue>, nodes: seq<NodeValue>, n: NodeValue)
    requires Maps(m, nodes) && forall x :: x in nodes ==> x.uri != n.uri
    ensures Maps(m[n.uri := n], nodes + [n])
  {
  }

  /** A list stands for one map only. */
  lemma ToMapIs(nodes: seq<NodeValue>, m: map<string, NodeValue>)
    requires Sorted(nodes) && Maps(m, nodes)
    ensures ToMap(nodes) == m
  {
    ToMapElements(nodes);
    var t := ToMap(nodes);
    assert forall u :: u in t ==> t[u] in nodes;
    assert forall u :: u in m ==> m[u] in nodes;
  }

  /** `pos` separates the smaller URIs from the larger ones. */
  predicate Splits(uris: seq<string>, uri: string, pos: nat) {
    && pos <= |uris|
    && (forall i :: 0 <= i < pos ==> Less(uris[i], uri))
    && (forall i :: pos <= i < |uris| ==> Less(uri, uris[i]))
  }

  // ------------------------------------------------------------------------------------------
  // Insertion, replacement and removal
  // ------------------------------------------------------------------------------------------

  lemma InsertIncreasing(uris: seq<string>, uri: string, pos: nat)
    requires Increasing(uris) && Splits(uris, uri, pos)
    ensures Increasing(uris[..pos] + [uri] + uris[pos..])
  {
    var r := uris[..pos] + [uri] + uris[pos..];
    forall i, j | 0 <= i < j < |r|
      ensures Less(r[i], r[j])
    {
      assert i < pos ==> r[i] == uris[i];
      assert j < pos ==> r[j] == uris[j];
      assert i > pos ==> r[i] == uris[i - 1];
      assert j > pos ==> r[j] == uris[j - 1];
    }
  }

  lemma RemoveIncreasing(uris: seq<string>, pos: nat)
    requires Increasing(uris) && pos < |uris|
    ensures Increasing(uris[..pos] + uris[pos + 1..])
  {
    var r := uris[..pos] + uris[pos + 1..];
    forall i, j | 0 <= i < j < |r|
      ensures Less(r[i], r[j])
    {
      assert r[i] == uris[if i < pos then i else i + 1];
      assert r[j] == uris[if j < pos then j else j + 1];
    }
  }

  lemma InsertSorted(nodes: seq<NodeValue>, pos: nat, n: NodeValue)
    requires Sorted(nodes) && Splits(Uris(nodes), n.uri, pos)
    ensures Sorted(nodes[..pos] + [n] + nodes[pos..])
  {
    var uris := Uris(nodes);
    InsertIncreasing(uris, n.uri, pos);
    assert Uris(nodes[..pos] + [n] + nodes[pos..]) == uris[..pos] + [n.uri] + uris[pos..];
  }

  lemma {:induction false} InsertKeeps(nodes: seq<NodeValue>, pos: nat, n: NodeValue)
    requires Sorted(nodes) && Splits(Uris(nodes), n.uri, pos)
    ensures Sorted(nodes[..pos] + [n] + nodes[pos..])
    ensures ToMap(nodes[..pos] + [n] + nodes[pos..]) == ToMap(nodes)[n.uri := n]
    ensures n.uri !in ToMap(nodes)
  {
    InsertSorted(nodes, pos, n);
    LessIrreflexive(n.uri);
    forall x | x in nodes
      ensures x.uri != n.uri
    {
      var k :| 0 <= k < |nodes| && nodes[k] == x;
      assert Uris(nodes)[k] == x.uri;
    }
    InsertMembers(nodes, pos, n);
    InsertMap(nodes, n, nodes[..pos] + [n] + nodes[pos..]);
  }

  lemma InsertMembers<T>(s: seq<T>, pos: nat, n: T)
    requires pos <= |s|
    ensures forall x :: x in s[..pos] + [n] + s[pos..] <==> x in s || x == n
  {
    assert s == s[..pos] + s[pos..];
  }

  lemma InsertMap(nodes: seq<NodeValue>, n: NodeValue, r: seq<NodeValue>)
    requires Sorted(nodes) && Sorted(r)
    requires forall x :: x in r <==> x in nodes || x == n
    requires forall x :: x in nodes ==> x.uri != n.uri
    ensures ToMap(r) == ToMap(nodes)[n.uri := n]
    ensures n.uri !in ToMap(nodes)
  {
    ToMapElements(nodes);
    ToMapIs(r, ToMap(nodes)[n.uri := n]);
  }

  lemma ReplaceKeeps(nodes: seq<NodeValue>, pos: nat, n: NodeValue)
    requires Sorted(nodes) && pos < |nodes| && nodes[pos].uri == n.uri
    ensures Sorted(nodes[pos := n])
    ensures ToMap(nodes[pos := n]) == ToMap(nodes)[n.uri := n]
    ensures n.uri in ToMap(nodes) && ToMap(nodes)[n.uri] == nodes[pos]
  {
    var r := nodes[pos := n];
    assert Uris(r) == Uris(nodes);
    ToMapElements(nodes);
    OtherUris(nodes, pos);
    assert nodes[pos] in nodes;
    ReplaceMaps(ToMap(nodes), nodes, pos, n);
    ToMapIs(r, ToMap(nodes)[n.uri := n]);
  }

  lemma ReplaceMaps(m: map<string, NodeValue>, nodes: seq<NodeValue>, pos: nat, n: NodeValue)
    requires Maps(m, nodes) && pos < |nodes| && nodes[pos].uri == n.uri
    requires forall k :: 0 <= k < |nodes| && k != pos ==> nodes[k].uri != n.uri
    ensures Maps(m[n.uri := n], nodes[pos := n])
  {
    var r := nodes[pos := n];
    forall x | x in nodes && x.uri != n.uri
      ensures x in r
    {
      var k :| 0 <= k < |nodes| && nodes[k] == x;
      assert r[k] == x;
    }
    assert r[pos] == n;
  }

  lemma RemoveSorted(nodes: seq<NodeValue>, pos: nat)
    requires Sorted(nodes) && pos < |nodes|
    ensures Sorted(nodes[..pos] + nodes[pos + 1..])
  {
    var uris := Uris(nodes);
    RemoveIncreasing(uris, pos);
    assert Uris(nodes[..pos] + nodes[pos + 1..]) == uris[..pos] + uris[pos + 1..];
  }

  lemma OtherUris(nodes: seq<NodeValue>, pos: nat)
    requires Sorted(nodes) && pos < |nodes|
    ensures forall k :: 0 <= k < |nodes| && k != pos ==> nodes[k].uri != nodes[pos].uri
  {
    forall k | 0 <= k < |nodes| && k != pos
      ensures nodes[k].uri != nodes[pos].uri
    {
      if nodes[k].uri == nodes[pos].uri {
        IncreasingDistinct(Uris(nodes), k, pos);
      }
    }
  }

  lemma {:induction false} RemoveKeeps(nodes: seq<NodeValue>, pos: nat)
    requires Sorted(nodes) && pos < |nodes|
    ensures Sorted(nodes[..pos] + nodes[pos + 1..])
    ensures ToMap(nodes[..pos] + nodes[pos + 1..]) == ToMap(nodes) - {nodes[pos].uri}
    ensures nodes[pos].uri in ToMap(nodes)
  {
    RemoveSorted(nodes, pos);
    OtherUris(nodes, pos);
    RemoveMembers(nodes, pos);
    RemoveMap(nodes, nodes[pos], nodes[..pos] + nodes[pos + 1..]);
  }

  lemma RemoveMembers<T>(s: seq<T>, pos: nat)
    requires pos < |s|
    ensures forall x :: x in s <==> x in s[..pos] + s[pos + 1..] || x == s[pos]
  {
    assert s == s[..pos] + [s[pos]] + s[pos + 1..];
  }

  lemma RemoveMap(nodes: seq<NodeValue>, n: NodeValue, r: seq<NodeValue>)
    requires Sorted(nodes) && Sorted(r)
    requires forall x :: x in nodes <==> x in r || x == n
    requires forall x :: x in r ==> x.uri != n.uri
    ensures ToMap(r) == ToMap(nodes) - {n.uri}
    ensures n.uri in ToMap(nodes)
  {
    ToMapElements(nodes);
    assert n in nodes;
    ToMapIs(r, ToMap(nodes) - {n.uri});
  }

  lemma AbsentWhenSplit(nodes: seq<NodeValue>, uri: string, pos: nat)
    requires Sorted(nodes) && Splits(Uris(nodes), uri, pos)
    ensures uri !in ToMap(nodes)
  {
    InsertKeeps(nodes, pos, NodeValue(uri, ForNode, false, []));
  }

  // ------------------------------------------------------------------------------------------
  // The client operations on the map
  // ------------------------------------------------------------------------------------------

  /** Adds a command unless the node has one with the same certificate and type (any type for the
      wildcard); only an addition changes the destination. */
  function SetCertificate(n: NodeValue, destination: Destination, command: AclCommand, cert: CertInfo): NodeValue {
    if exists i :: 0 <= i < |n.commands| && (n.commands[i].command == command || command == All)
                   && n.commands[i].cert == cert
    then n
    else n.(commands := n.commands + [CommandValue(cert, command)], destination := destination)
  }

  /** A node as `FindNodeL` creates it. */
  function NewNode(uri: string): NodeValue {
    NodeValue(uri, ForNode, false, [])
  }

  /** What adding (or, with `clear`, setting) a command does to the node of a URI. */
  function PutCommand(m: map<string, NodeValue>, uri: string, destination: Destination, command: AclCommand,
                      cert: CertInfo, clear: bool): map<string, NodeValue>
  {
    var n := if uri in m then m[uri] else NewNode(uri);
    m[uri := SetCertificate(n, destination, command, cert).(clearFlag := clear)]
  }

  /** The node grants a command type, or for the wildcard some type, to a certificate. */
  predicate Grants(n: NodeValue, command: AclCommand, cert: CertInfo) {
    exists c :: c in n.commands && c.cert == cert && (command == All || c.command == command)
  }

  /** What a client's command leaves, whatever was stored: the node of its URI grants the type to the
      certificate, and has the flag of this last command; its earlier commands stay in front; at most
      one has been added, and exactly then, when the grant was missing, the destination is that of the
      command; and every other node is as before. */
  lemma PutGrants(m: map<string, NodeValue>, uri: string, destination: Destination, command: AclCommand,
                  cert: CertInfo, clear: bool)
    ensures var r := PutCommand(m, uri, destination, command, cert, clear);
            var had := uri in m && Grants(m[uri], command, cert);
            && uri in r && Grants(r[uri], command, cert) && r[uri].clearFlag == clear
            && r - {uri} == m - {uri}
            && (uri in m ==> m[uri].commands <= r[uri].commands && r[uri].uri == m[uri].uri)
            && (uri !in m ==> r[uri].uri == uri)
            && |r[uri].commands| == (if uri in m then |m[uri].commands| else 0) + (if had then 0 else 1)
            && r[uri].destination == (if had then m[uri].destination else destination)
  {
    var n := if uri in m then m[uri] else NewNode(uri);
    var r := PutCommand(m, uri, destination, command, cert, clear)[uri];
    if !Grants(n, command, cert) {
      assert r.commands == n.commands + [CommandValue(cert, command)];
      assert r.commands[|n.commands|] == CommandValue(cert, command);
    }
  }
}
