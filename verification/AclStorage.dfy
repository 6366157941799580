/** The ACL storage: its index of nodes, its operations, and whole runs of it. */
module AclStorage {
  import opened Common
  import opened AclTypes
  import opened AclMerge
  import opened AclText
  import opened AclRecord
  import opened AclIndex
  import opened AclFiles
  import opened AclNodes

  // ------------------------------------------------------------------------------------------
  // What is written, node by node
  // ------------------------------------------------------------------------------------------

  function Chunks(nodes: seq<NodeValue>): (r: seq<string>)
    requires Storable(nodes)
    ensures |r| == 2 * |nodes|
  {
    if nodes == [] then []
    else [PackInt(NodeLength(nodes[0])), EncodeNode(nodes[0])] + Chunks(nodes[1..])
  }

  lemma PairIndex(a: string, b: string, rest: seq<string>, i: nat)
    requires 2 * i + 1 < |rest| + 2
    ensures ([a, b] + rest)[2 * i] == if i == 0 then a else rest[2 * (i - 1)]
    ensures ([a, b] + rest)[2 * i + 1] == if i == 0 then b else rest[2 * (i - 1) + 1]
  {
  }

  lemma {:induction false} ChunksAt(nodes: seq<NodeValue>, i: nat)
    requires Storable(nodes) && i < |nodes|
    ensures StorableNode(nodes[i])
    ensures Chunks(nodes)[2 * i] == PackInt(NodeLength(nodes[i]))
    ensures Chunks(nodes)[2 * i + 1] == EncodeNode(nodes[i])
  {
    hide EncodeNode;
    PairIndex(PackInt(NodeLength(nodes[0])), EncodeNode(nodes[0]), Chunks(nodes[1..]), i);
    if i > 0 {
      ChunksAt(nodes[1..], i - 1);
      assert nodes[1..][i - 1] == nodes[i];
    }
  }

  lemma {:induction false} JoinChunks(nodes: seq<NodeValue>)
    requires Storable(nodes)
    ensures Join(Chunks(nodes)) == EncodeFile(nodes)
  {
    if nodes != [] {
      var head, body, rest := PackInt(NodeLength(nodes[0])), EncodeNode(nodes[0]), Chunks(nodes[1..]);
      JoinPair(head, body, rest);
      JoinChunks(nodes[1..]);
    }
  }

  lemma JoinPair(a: string, b: string, rest: seq<string>)
    ensures Join([a, b] + rest) == a + b + Join(rest)
  {
    assert ([a, b] + rest)[1..] == [b] + rest;
    assert ([b] + rest)[1..] == rest;
    Associate(a, b, Join(rest));
  }

  lemma {:induction false} WriteOpsAt(chunks: seq<string>, pos: nat, k: nat)
    requires k < |chunks|
    ensures WriteOps(chunks, pos)[k] == Write(TempFile, pos + |Join(chunks[..k])|, chunks[k])
    ensures |Join(chunks[..k + 1])| == |Join(chunks[..k])| + |chunks[k]|
  {
    if k > 0 {
      WriteOpsAt(chunks[1..], pos + |chunks[0]|, k - 1);
      assert chunks[..k][1..] == chunks[1..][..k - 1];
      assert chunks[..k + 1][1..] == chunks[1..][..k];
    } else {
      assert chunks[..1][1..] == [] && chunks[..0] == [];
    }
  }

  lemma TakeAll(chunks: seq<string>)
    ensures chunks[..|chunks|] == chunks && chunks[..0] == []
  {
  }

  /** The chunks are the lengths and saved forms of the nodes. */
  ghost predicate AreImages(chunks: seq<string>, nodes: seq<NodeValue>) {
    && |chunks| == 2 * |nodes|
    && forall i :: 0 <= i < |nodes| ==> IsImage(nodes[i], chunks[2 * i], chunks[2 * i + 1])
  }

  predicate IsImage(n: NodeValue, length: string, saveString: string) {
    StorableNode(n) && length == PackInt(NodeLength(n)) && saveString == EncodeNode(n)
  }

  lemma ChunksAreImages(nodes: seq<NodeValue>)
    requires Storable(nodes)
    ensures AreImages(Chunks(nodes), nodes)
  {
    forall i | 0 <= i < |nodes|
      ensures IsImage(nodes[i], Chunks(nodes)[2 * i], Chunks(nodes)[2 * i + 1])
    {
      ChunksAt(nodes, i);
    }
  }

  lemma {:induction false} JoinOneMore(chunks: seq<string>, k: nat)
    requires k < |chunks|
    ensures |Join(chunks[..k + 1])| == |Join(chunks[..k])| + |chunks[k]|
  {
    WriteOpsAt(chunks, 0, k);
  }

  /** After their first, the operations write the chunks at their running positions. */
  ghost predicate AreWrites(ops: seq<FileOp>, chunks: seq<string>) {
    |ops| > |chunks| && forall k :: 0 <= k < |chunks| ==> IsWrite(ops, chunks, k)
  }

  ghost predicate IsWrite(ops: seq<FileOp>, chunks: seq<string>, k: nat)
    requires k < |chunks| < |ops|
  {
    ops[1 + k] == Write(TempFile, |Join(chunks[..k])|, chunks[k])
  }

  /** The operations of a save one by one. */
  lemma SaveOpsAt(chunks: seq<string>, hadStorage: bool)
    ensures var ops, n := SaveOps(chunks, hadStorage), |chunks|;
            && |ops| == n + 2 + |SwitchOps(hadStorage)|
            && ops[0] == OpenOrCreate(TempFile)
            && AreWrites(ops, chunks)
            && ops[1 + n] == SetSize(TempFile, |Join(chunks)|)
            && ops[..2 + n] == FillOps(chunks)
            && ops[2 + n..] == SwitchOps(hadStorage)
  {
    hide Join;
    var ops, n := SaveOps(chunks, hadStorage), |chunks|;
    forall k | 0 <= k < n
      ensures IsWrite(ops, chunks, k)
    {
      WriteOpsAt(chunks, 0, k);
      assert ops[1 + k] == WriteOps(chunks, 0)[k];
    }
  }

  // ------------------------------------------------------------------------------------------
  // The storage process and its environment
  // ------------------------------------------------------------------------------------------

  /** The files, and the nodes in memory while the process is alive. */
  datatype System = System(disk: Files, memory: Option<seq<NodeValue>>)

  datatype Event =
    /** A client adds, or with `clear` sets, a command for a node. */
    | Put(uri: string, destination: Destination, command: AclCommand, cert: CertInfo, clear: bool)
    | Remove(uri: string)
    /** A save that dies before its operation number `budget`, if it has that many. */
    | Save(budget: nat)
    /** A process start that dies before its operation number `budget`. */
    | Boot(budget: nat)

  /** What the files hold, read as nodes. */
  function RecoverNodes(fs: Files): Option<seq<NodeValue>> {
    var content := Recover(fs);
    if content.None? then Some([]) else DecodeFile(content.value)
  }

  /** A save of these nodes on these files performs all its operations. */
  predicate Completes(sys: System, budget: nat) {
    sys.memory.Some? && Storable(sys.memory.value)
    && budget >= |SaveOps(Chunks(sys.memory.value), StorageFile in sys.disk)|
  }

  ghost predicate Next(a: System, e: Event, b: System) {
    match e
    case Put(uri, destination, command, cert, clear) =>
      && a.memory.Some? && b.memory.Some? && b.disk == a.disk
      && Sorted(b.memory.value)
      && ToMap(b.memory.value) == PutCommand(ToMap(a.memory.value), uri, destination, command, cert, clear)
    case Remove(uri) =>
      && a.memory.Some? && b.memory.Some? && b.disk == a.disk
      && Sorted(b.memory.value)
      && ToMap(b.memory.value) == ToMap(a.memory.value) - {uri}
    case Save(budget) =>
      && a.memory.Some? && Storable(a.memory.value)
      && var ops := SaveOps(Chunks(a.memory.value), StorageFile in a.disk);
      && b.disk == Run(a.disk, if budget < |ops| then ops[..budget] else ops)
      && b.memory == if budget < |ops| then None else a.memory
    case Boot(budget) =>
      && a.memory.None?
      && if BackupFile in a.disk && budget == 0 then b == a
         else b.disk == Restored(a.disk) && b.memory == RecoverNodes(a.disk)
  }

  /** The nodes of the last save that performed all its operations. */
  function Durable(states: seq<System>, events: seq<Event>, n: nat): seq<NodeValue>
    requires n <= |events| && |states| == |events| + 1
  {
    if n == 0 then []
    else if events[n - 1].Save? && Completes(states[n - 1], events[n - 1].budget) then states[n - 1].memory.value
    else Durable(states, events, n - 1)
  }

  /** A run from a device on which nothing was ever saved; a temporary file may be lying around. */
  ghost predicate IsRun(states: seq<System>, events: seq<Event>) {
    && |states| == |events| + 1
    && states[0].memory.None? && StorageFile !in states[0].disk && BackupFile !in states[0].disk
    && forall i :: 0 <= i < |events| ==> Next(states[i], events[i], states[i + 1])
  }

  /** Loading would yield exactly `durable`; the nodes in memory are sorted by URI, and so are the
      durable ones. */
  ghost predicate Consistent(s: System, durable: seq<NodeValue>) {
    && RecoverNodes(s.disk) == Some(durable)
    && Sorted(durable)
    && (s.memory.Some? ==> BackupFile !in s.disk && Sorted(s.memory.value))
  }

  lemma SaveStep(a: System, budget: nat, b: System, durable: seq<NodeValue>)
    requires Consistent(a, durable) && Next(a, Save(budget), b)
    ensures Consistent(b, if Completes(a, budget) then a.memory.value else durable)
  {
    hide PutCommand;
    hide ToMap;
    hide NodeLength;
    hide EncodeFile;
    hide DecodeFile;
    hide Apply;
    var nodes := a.memory.value;
    var ops := SaveOps(Chunks(nodes), StorageFile in a.disk);
    var k := if budget < |ops| then budget else |ops|;
    SaveIsAtomic(a.disk, Chunks(nodes), k);
    assert ops[..|ops|] == ops;
    JoinChunks(nodes);
    DecodeEncodeFile(nodes);
  }

  lemma BootStep(a: System, budget: nat, b: System, durable: seq<NodeValue>)
    requires Consistent(a, durable) && Next(a, Boot(budget), b)
    ensures Consistent(b, durable)
    ensures b.memory.Some? ==> b.memory == Some(durable)
  {
    RestoreKeeps(a.disk);
  }

  lemma StartIsConsistent(s: System)
    requires s.memory.None? && StorageFile !in s.disk && BackupFile !in s.disk
    ensures Consistent(s, [])
  {
    assert Recover(s.disk) == None;
  }

  lemma StepIsConsistent(a: System, e: Event, b: System, durable: seq<NodeValue>)
    requires Consistent(a, durable) && Next(a, e, b)
    ensures Consistent(b, if e.Save? && Completes(a, e.budget) then a.memory.value else durable)
    ensures e.Boot? && b.memory.Some? ==> b.memory == Some(durable)
  {
    match e
    case Put(_, _, _, _, _) =>
    case Remove(_) =>
    case Save(budget) => SaveStep(a, budget, b, durable);
    case Boot(budget) => BootStep(a, budget, b, durable);
  }

  /** In every run of edits, saves, process starts and crashes between any two file operations, what
      loading yields is exactly the list of the last save that performed all its operations, and
      the nodes in memory stay strictly sorted, also after a reload. */
  lemma {:induction false} RunsAreConsistent(states: seq<System>, events: seq<Event>, n: nat)
    requires IsRun(states, events) && n <= |events|
    ensures Consistent(states[n], Durable(states, events, n))
    ensures n > 0 && events[n - 1].Boot? && states[n].memory.Some? ==>
              states[n].memory == Some(Durable(states, events, n))
  {
    hide Consistent;
    hide Next;
    if n == 0 {
      StartIsConsistent(states[0]);
    } else {
      RunsAreConsistent(states, events, n - 1);
      StepIsConsistent(states[n - 1], events[n - 1], states[n - 1 + 1], Durable(states, events, n - 1));
    }
  }

  // ------------------------------------------------------------------------------------------
  // The storage object
  // ------------------------------------------------------------------------------------------

  class AclStorage {
    var nodes: seq<AclNode>
    var rfs: FileServer
    var certificateReceived: bool
    var mngSessionCertificate: CertInfo
    var currentCertificate: CertInfo
    var currentServerId: Option<string>

    constructor (rfs: FileServer)
      ensures this.rfs == rfs && nodes == [] && Values() == []
    {
      this.rfs := rfs;
      nodes := [];
      certificateReceived := false;
      mngSessionCertificate := EMPTY_CERT;
      currentCertificate := EMPTY_CERT;
      currentServerId := None;
    }

    function Values(): (r: seq<NodeValue>)
      reads this, nodes
      ensures |r| == |nodes|
      ensures forall i :: 0 <= i < |nodes| ==> r[i] == nodes[i].Value()
    {
      seq(|nodes|, i requires 0 <= i < |nodes| reads this, nodes => nodes[i].Value())
    }

    ghost predicate Valid()
      reads this, nodes
    {
      Sorted(Values())
    }

    // ----------------------------------------------------------------------------------------
    // The ordered index
    // ----------------------------------------------------------------------------------------

    /** Binary search: the position of the node of a URI, or where it would be inserted. */
    method SearchInOrder(uri: string) returns (found: bool, pos: nat)
      requires Valid()
      ensures found ==> pos < |nodes| && nodes[pos].uri == uri
      ensures !found ==> Splits(Uris(Values()), uri, pos)
    {
      ghost var uris := Uris(Values());
      var low, high := 0, |nodes|;
      while low < high
        invariant 0 <= low <= high <= |nodes|
        invariant forall i :: 0 <= i < low ==> Less(uris[i], uri)
        invariant forall i :: high <= i < |nodes| ==> Less(uri, uris[i])
      {
        var mid := (low + high) / 2;
        assert uris[mid] == nodes[mid].uri;
        if nodes[mid].uri == uri {
          return true, mid;
        } else if Less(nodes[mid].uri, uri) {
          forall i | 0 <= i <= mid
            ensures Less(uris[i], uri)
          {
            if i < mid {
              LessTransitive(uris[i], uris[mid], uri);
            }
          }
          low := mid + 1;
        } else {
          LessTotal(nodes[mid].uri, uri);
          forall i | mid <= i < |nodes|
            ensures Less(uri, uris[i])
          {
            if mid < i {
              LessTransitive(uri, uris[mid], uris[i]);
            }
          }
          high := mid;
        }
      }
      return false, low;
    }

    /** Inserts a node at its place in the order. */
    method InsertInOrder(node: AclNode, pos: nat)
      requires Valid() && Splits(Uris(Values()), node.uri, pos)
      modifies this`nodes
      ensures Valid()
      ensures ToMap(Values()) == ToMap(old(Values()))[node.uri := node.Value()]
      ensures nodes == old(nodes)[..pos] + [node] + old(nodes)[pos..]
    {
      hide ToMap;
      ghost var before := Values();
      InsertKeeps(before, pos, node.Value());
      nodes := nodes[..pos] + [node] + nodes[pos..];
      assert Values() == before[..pos] + [node.Value()] + before[pos..];
    }

    /** Creates a node at its place in the order. */
    method CreateNode(uri: string, pos: nat) returns (node: AclNode)
      requires Valid() && Splits(Uris(Values()), uri, pos)
      modifies this`nodes
      ensures Valid() && fresh(node)
      ensures ToMap(Values()) == ToMap(old(Values()))[uri := NewNode(uri)]
      ensures pos < |nodes| && nodes[pos] == node && node.uri == uri
      ensures forall n :: n in nodes ==> n in old(nodes) || n == node
    {
      ghost var all := nodes;
      node := new AclNode(uri);
      InsertInOrder(node, pos);
      InsertedMembers(all, pos, node);
    }

    lemma InsertedMembers(all: seq<AclNode>, pos: nat, node: AclNode)
      requires pos <= |all|
      ensures var r := all[..pos] + [node] + all[pos..];
              r[pos] == node && forall n :: n in r ==> n in all || n == node
    {
    }

    /** Finds the node of a URI, creating it in order when asked to. */
    method FindNode(uri: string, create: bool) returns (node: AclNode?, ghost pos: nat)
      requires Valid()
      modifies this`nodes
      ensures Valid()
      ensures if uri in ToMap(old(Values())) then node != null && nodes == old(nodes)
              else if create then node != null && ToMap(Values()) == ToMap(old(Values()))[uri := NewNode(uri)]
              else node == null && nodes == old(nodes)
      ensures node != null ==> pos < |nodes| && nodes[pos] == node && node.uri == uri
      ensures node != null ==> forall n :: n in nodes ==> n in old(nodes) || fresh(n)
    {
      ghost var m := ToMap(Values());
      var found, at := SearchInOrder(uri);
      pos := at;
      if found {
        NodeIsMapped(at);
        assert uri in m;
        node := nodes[at];
      } else {
        AbsentWhenSplit(Values(), uri, at);
        assert uri !in m;
        if create {
          node := CreateNode(uri, at);
        } else {
          node := null;
        }
      }
    }

    lemma NodeIsMapped(pos: nat)
      requires Valid() && pos < |nodes|
      ensures nodes[pos].uri in ToMap(Values()) && ToMap(Values())[nodes[pos].uri] == nodes[pos].Value()
    {
      ToMapElements(Values());
      assert Values()[pos] == nodes[pos].Value() && Values()[pos] in Values();
    }

    lemma NodesDiffer()
      requires Valid()
      ensures forall i, j :: 0 <= i < j < |nodes| ==> nodes[i] != nodes[j]
    {
      forall i, j | 0 <= i < j < |nodes|
        ensures nodes[i] != nodes[j]
      {
        if nodes[i] == nodes[j] {
          IncreasingDistinct(Uris(Values()), i, j);
        }
      }
    }

    /** Removes the node of a URI; the map loses that URI and nothing else. */
    method RemoveNode(uri: string) returns (found: bool)
      requires Valid()
      modifies this`nodes
      ensures Valid()
      ensures found <==> uri in ToMap(old(Values()))
      ensures Next(System(rfs.files, Some(old(Values()))), Remove(uri), System(rfs.files, Some(Values())))
    {
      hide SaveOps;
      hide Run;
      hide RecoverNodes;
      hide PutCommand;
      hide ToMap;
      var at;
      found, at := SearchInOrder(uri);
      if found {
        NodeIsMapped(at);
        RemoveAt(at);
      } else {
        AbsentWhenSplit(Values(), uri, at);
      }
    }

    method RemoveAt(pos: nat)
      requires Valid() && pos < |nodes|
      modifies this`nodes
      ensures Valid()
      ensures ToMap(Values()) == ToMap(old(Values())) - {old(nodes[pos].uri)}
    {
      hide ToMap;
      ghost var before := Values();
      RemoveKeeps(before, pos);
      nodes := nodes[..pos] + nodes[pos + 1..];
      assert Values() == before[..pos] + before[pos + 1..];
    }

    /** Removes a node's ACL; when the defaults cannot be restored in the tree, nothing changes. */
    method RemoveAcl(uri: string, restoreDefaults: bool, treeUpdated: bool) returns (ok: bool)
      requires Valid()
      modifies this`nodes
      ensures Valid()
      ensures ok == (restoreDefaults ==> treeUpdated)
      ensures ToMap(Values()) == if ok then ToMap(old(Values())) - {uri} else ToMap(old(Values()))
    {
      ok := !restoreDefaults || treeUpdated;
      if ok {
        var _ := RemoveNode(uri);
      }
    }

    /** Adds a command for the management session's certificate to the node of a URI. */
    method AddAclForNode(uri: string, destination: Destination, command: AclCommand)
      requires Valid()
      modifies this`nodes, nodes
      ensures Valid()
      ensures Next(System(rfs.files, Some(old(Values()))),
                   Put(uri, destination, command, mngSessionCertificate, false),
                   System(rfs.files, Some(Values())))
    {
      PutAcl(uri, destination, command, false);
    }

    /** As `AddAclForNode`, but what the tree node had is to be cleared. */
    method SetAclForNode(uri: string, destination: Destination, command: AclCommand)
      requires Valid()
      modifies this`nodes, nodes
      ensures Valid()
      ensures Next(System(rfs.files, Some(old(Values()))),
                   Put(uri, destination, command, mngSessionCertificate, true),
                   System(rfs.files, Some(Values())))
    {
      PutAcl(uri, destination, command, true);
    }

    method PutAcl(uri: string, destination: Destination, command: AclCommand, clear: bool)
      requires Valid()
      modifies this`nodes, nodes
      ensures Valid()
      ensures ToMap(Values()) ==
              PutCommand(ToMap(old(Values())), uri, destination, command, mngSessionCertificate, clear)
    {
      ghost var m := ToMap(Values());
      var node, pos := FindNode(uri, true);
      assert node in nodes;
      NodeIsMapped(pos);
      ghost var n, found := node.Value(), ToMap(Values());
      ChangeNode(node, pos, destination, command, clear);
      PutIsChange(m, found, n, uri, destination, command, mngSessionCertificate, clear);
    }

    static lemma PutIsChange(m: map<string, NodeValue>, found: map<string, NodeValue>, n: NodeValue, uri: string,
                             destination: Destination, command: AclCommand, cert: CertInfo, clear: bool)
      requires uri in found && found[uri] == n
      requires found == if uri in m then m else m[uri := NewNode(uri)]
      ensures PutCommand(m, uri, destination, command, cert, clear) ==
              found[uri := SetCertificate(n, destination, command, cert).(clearFlag := clear)]
    {
    }

    /** Adds a command to one node; the map changes at that node's URI only. */
    method ChangeNode(node: AclNode, ghost pos: nat, destination: Destination, command: AclCommand, clear: bool)
      requires Valid() && pos < |nodes| && nodes[pos] == node
      modifies node
      ensures Valid()
      ensures var n := SetCertificate(old(node.Value()), destination, command, mngSessionCertificate)
                       .(clearFlag := clear);
              ToMap(Values()) == ToMap(old(Values()))[old(node.uri) := n]
    {
      NodesDiffer();
      ghost var before, n := Values(), node.Value();
      node.SetCertificateToAcl(destination, command, mngSessionCertificate);
      node.clearFlag := clear;
      ghost var n' := SetCertificate(n, destination, command, mngSessionCertificate).(clearFlag := clear);
      assert Values() == before[pos := n'];
      ReplaceKeeps(before, pos, n');
    }

    // ----------------------------------------------------------------------------------------
    // Sessions
    // ----------------------------------------------------------------------------------------

    /** Merges a stored node into an ACL text of the tree; `None` stands for the panic on overrunning
        the text buffer.  The stored node's commands take the session's server identifier, which is
        not part of what is saved.  `original` is what the text was read as: an entry with an unknown
        name has some command type. */
    method UpdateAcl(node: AclNode, text: string)
      returns (result: Option<string>, ghost original: seq<Entry>, ghost entries: seq<Entry>)
      requires currentServerId.Some?
      modifies node.commands
      ensures node.Value() == old(node.Value())
      ensures AllReadAs(original, Pieces(text)) && (Parse(text).Some? ==> original == Parse(text).value)
      ensures result == if Fits(entries) then Some(Print(entries)) else None
      ensures !node.clearFlag ==> Others(entries, currentServerId.value) == Others(original, currentServerId.value)
      ensures node.clearFlag ==> forall e :: e in entries ==> e.server == currentServerId.value
      ensures entries == Rewrite(original, node.Value(), Session(currentServerId.value, currentCertificate))
      ensures var r := Rewritten(text, node.Value(), Session(currentServerId.value, currentCertificate));
              r.Some? ==> r.value == entries
    {
      hide Merge;
      ghost var s := Session(currentServerId.value, currentCertificate);
      var acl := AclNode.CreateAcl(text);
      original := acl.Entries();
      if node.clearFlag {
        acl.ClearAcl();
      }
      MergeNode(node, acl, s);
      entries := acl.Entries();
      RewriteFrame(original, node.Value(), s);
      result := acl.GetAclString();
    }

    /** Merges the commands of a stored node into an ACL, one after the other. */
    method MergeNode(node: AclNode, acl: AclNode, ghost s: Session)
      requires currentServerId == Some(s.server) && currentCertificate == s.cert
      requires node != acl && acl.IsAcl() && forall c :: c in node.commands ==> c !in acl.commands
      modifies acl`commands, node.commands
      ensures acl.IsAcl() && acl.Entries() == Merge(old(acl.Entries()), ValuesOf(node.commands), s)
    {
      hide MergeOne;
      ghost var start, cmds := acl.Entries(), ValuesOf(node.commands);
      assert cmds[..0] == [];
      for i := 0 to |node.commands|
        invariant acl.IsAcl() && forall c :: c in acl.commands ==> c in old(acl.commands) || fresh(c)
        invariant acl.Entries() == Merge(start, cmds[..i], s)
      {
        IdentifyAndMerge(acl, node.commands[i], s, start, cmds, i);
      }
      assert cmds[..|cmds|] == cmds;
    }

    /** Gives a stored command the session's server identifier, and merges it into an ACL. */
    method IdentifyAndMerge(acl: AclNode, command: Command, ghost s: Session,
                            ghost start: seq<Entry>, ghost cmds: seq<CommandValue>, ghost i: nat)
      requires currentServerId == Some(s.server) && currentCertificate == s.cert
      requires acl.IsAcl() && command !in acl.commands
      requires i < |cmds| && cmds[i] == command.Value() && acl.Entries() == Merge(start, cmds[..i], s)
      modifies acl`commands, command
      ensures acl.IsAcl() && forall c :: c in acl.commands ==> c in old(acl.commands) || fresh(c)
      ensures acl.Entries() == Merge(start, cmds[..i + 1], s)
    {
      hide MergeOne;
      ghost var before := acl.Entries();
      command.serverId := currentServerId;
      assert acl.Entries() == before;
      MergeCommand(acl, command, s);
      MergeOneMore(start, cmds, i, s);
    }

    method MergeCommand(acl: AclNode, command: Command, ghost s: Session)
      requires currentServerId == Some(s.server) && currentCertificate == s.cert
      requires acl.IsAcl() && command.serverId == currentServerId
      modifies acl`commands
      ensures acl.IsAcl() && forall c :: c in acl.commands ==> c in old(acl.commands) || fresh(c)
      ensures acl.Entries() == MergeOne(old(acl.Entries()), command.Value(), s)
    {
      ghost var index := FindFirst(acl.Entries(), command.Value(), s.server);
      var origCommand := acl.FindCorrespondingCommand(command);
      if origCommand == null {
        if currentCertificate == command.cert {
          acl.SetServerIdToAcl(command.command, currentServerId.value);
        }
      } else {
        acl.RemoveOthersOf(currentServerId.value, origCommand, index);
      }
    }

    // ----------------------------------------------------------------------------------------
    // Saving and loading
    // ----------------------------------------------------------------------------------------

    /** Performs operation number `done` of a list, or dies; the process started with `budget`. */
    method Proceed(op: FileOp, ghost ops: seq<FileOp>, ghost start: Files, ghost budget: nat, ghost done: nat)
      returns (alive: bool)
      requires done < |ops| && ops[done] == op
      requires rfs.files == Run(start, ops[..done]) && rfs.budget == budget - done
      modifies rfs
      ensures alive ==> rfs.files == Run(start, ops[..done + 1]) && rfs.budget == budget - (done + 1)
      ensures !alive ==> budget == done && rfs.files == Run(start, ops[..budget])
    {
      RunPrefix(start, ops, done);
      alive := rfs.Perform(op);
    }

    /** Writes all nodes, each as its length and its saved form; returns the size written. */
    method WriteNodes(ghost chunks: seq<string>, ghost ops: seq<FileOp>, ghost start: Files, ghost budget: nat)
      returns (alive: bool, size: nat)
      requires AreImages(chunks, Values())
      requires AreWrites(ops, chunks)
      requires rfs.files == Run(start, ops[..1]) && rfs.budget == budget - 1
      modifies rfs
      ensures alive ==> rfs.files == Run(start, ops[..1 + |chunks|]) && rfs.budget == budget - 1 - |chunks|
      ensures alive ==> size == |Join(chunks)|
      ensures !alive ==> budget < 1 + |chunks| && rfs.files == Run(start, ops[..budget])
    {
      hide EncodeNode;
      ghost var values := Values();
      size := 0;
      TakeAll(chunks);
      for i := 0 to |nodes|
        invariant values == Values()
        invariant rfs.files == Run(start, ops[..1 + 2 * i]) && rfs.budget == budget - 1 - 2 * i
        invariant size == |Join(chunks[..2 * i])|
      {
        alive, size := WriteNode(i, size, values, chunks, ops, start, budget);
        if !alive {
          return;
        }
      }
      TakeAll(chunks);
      alive := true;
    }

    method WriteNode(i: nat, pos: nat, ghost values: seq<NodeValue>, ghost chunks: seq<string>, ghost ops: seq<FileOp>,
                     ghost start: Files, ghost budget: nat)
      returns (alive: bool, size: nat)
      requires values == Values() && AreImages(chunks, values) && i < |nodes|
      requires AreWrites(ops, chunks) && pos == |Join(chunks[..2 * i])|
      requires rfs.files == Run(start, ops[..1 + 2 * i]) && rfs.budget == budget - 1 - 2 * i
      modifies rfs
      ensures alive ==> rfs.files == Run(start, ops[..3 + 2 * i]) && rfs.budget == budget - 3 - 2 * i
      ensures alive ==> size == |Join(chunks[..2 * (i + 1)])|
      ensures Values() == values
      ensures !alive ==> budget < 3 + 2 * i && rfs.files == Run(start, ops[..budget])
    {
      hide EncodeNode;
      var nodeLength, saveString := NodeImage(i, chunks, values);
      JoinOneMore(chunks, 2 * i);
      JoinOneMore(chunks, 2 * i + 1);
      assert IsWrite(ops, chunks, 2 * i) && IsWrite(ops, chunks, 2 * i + 1);
      alive := WritePair(nodeLength, saveString, pos, ops, start, budget, 1 + 2 * i);
      size := pos + |nodeLength| + |saveString|;
    }

    /** The two pieces that are written for a node: its length, and its saved form. */
    method NodeImage(i: nat, ghost chunks: seq<string>, ghost values: seq<NodeValue>)
      returns (length: string, saveString: string)
      requires values == Values() && AreImages(chunks, values) && i < |nodes|
      ensures length == chunks[2 * i] && saveString == chunks[2 * i + 1]
    {
      assert IsImage(values[i], chunks[2 * i], chunks[2 * i + 1]);
      var nodeLength := nodes[i].Length();
      length := PackInt(nodeLength);
      saveString := nodes[i].SaveString();
    }

    method WritePair(a: string, b: string, pos: nat, ghost ops: seq<FileOp>, ghost start: Files, ghost budget: nat,
                     ghost done: nat)
      returns (alive: bool)
      requires done + 1 < |ops|
      requires ops[done] == Write(TempFile, pos, a) && ops[done + 1] == Write(TempFile, pos + |a|, b)
      requires rfs.files == Run(start, ops[..done]) && rfs.budget == budget - done
      modifies rfs
      ensures alive ==> rfs.files == Run(start, ops[..done + 2]) && rfs.budget == budget - (done + 2)
      ensures !alive ==> budget < done + 2 && rfs.files == Run(start, ops[..budget])
    {
      alive := Proceed(Write(TempFile, pos, a), ops, start, budget, done);
      if alive {
        alive := Proceed(Write(TempFile, pos + |a|, b), ops, start, budget, done + 1);
      }
    }

    /** Makes the filled temporary file the storage file, over a backup if there was one before. */
    method SwitchFiles(ghost ops: seq<FileOp>, ghost start: Files, ghost budget: nat, ghost done: nat)
      returns (alive: bool)
      requires done <= |ops| && ops[done..] == SwitchOps(StorageFile in rfs.files)
      requires rfs.files == Run(start, ops[..done]) && rfs.budget == budget - done
      modifies rfs
      ensures alive ==> rfs.files == Run(start, ops) && budget >= |ops|
      ensures !alive ==> budget < |ops| && rfs.files == Run(start, ops[..budget])
    {
      assert forall k :: 0 <= k < |ops| - done ==> ops[done + k] == ops[done..][k];
      assert ops[..|ops|] == ops;
      if StorageFile in rfs.files {
        alive := Proceed(Rename(StorageFile, BackupFile), ops, start, budget, done);
        if !alive {
          return;
        }
        alive := Proceed(Rename(TempFile, StorageFile), ops, start, budget, done + 1);
        if !alive {
          return;
        }
        alive := Proceed(Erase(BackupFile), ops, start, budget, done + 2);
      } else {
        alive := Proceed(Rename(TempFile, StorageFile), ops, start, budget, done);
      }
    }

    /** Saves the nodes; false means that the process died on the way. */
    method SaveAcl() returns (completed: bool)
      requires Storable(Values())
      modifies rfs
      ensures Next(System(old(rfs.files), Some(old(Values()))), Save(old(rfs.budget)),
                   System(rfs.files, if completed then Some(Values()) else None))
    {
      ghost var chunks := Chunks(Values());
      ghost var ops := SaveOps(chunks, StorageFile in rfs.files);
      ChunksAreImages(Values());
      completed := PerformSave(chunks, ops);
    }

    method PerformSave(ghost chunks: seq<string>, ghost ops: seq<FileOp>) returns (completed: bool)
      requires AreImages(chunks, Values())
      requires ops == SaveOps(chunks, StorageFile in rfs.files)
      modifies rfs
      ensures completed == (old(rfs.budget) >= |ops|)
      ensures rfs.files == Run(old(rfs.files), if completed then ops else ops[..old(rfs.budget)])
    {
      ghost var start, budget := rfs.files, rfs.budget;
      SaveOpsAt(chunks, StorageFile in start);
      completed := FillTemp(chunks, ops);
      if completed {
        FillEffect(start, chunks);
        completed := SwitchFiles(ops, start, budget, 2 + |chunks|);
      }
    }

    /** Opens the temporary file, writes the nodes, and cuts the file to the size written. */
    method FillTemp(ghost chunks: seq<string>, ghost ops: seq<FileOp>) returns (alive: bool)
      requires AreImages(chunks, Values())
      requires AreWrites(ops, chunks) && |ops| >= 2 + |chunks|
      requires ops[0] == OpenOrCreate(TempFile) && ops[1 + |chunks|] == SetSize(TempFile, |Join(chunks)|)
      modifies rfs
      ensures var n := 2 + |chunks|;
              if alive then rfs.files == Run(old(rfs.files), ops[..n]) && rfs.budget == old(rfs.budget) - n
              else old(rfs.budget) < n && rfs.files == Run(old(rfs.files), ops[..old(rfs.budget)])
    {
      ghost var start, budget := rfs.files, rfs.budget;
      assert ops[..0] == [];
      alive := Proceed(OpenOrCreate(TempFile), ops, start, budget, 0);
      if !alive {
        return;
      }
      var size;
      alive, size := WriteNodes(chunks, ops, start, budget);
      if !alive {
        return;
      }
      alive := Proceed(SetSize(TempFile, size), ops, start, budget, 1 + |chunks|);
    }

    /** Loads the nodes at process start; false means that the process died on the way, or that the
        file is not one that a save produces. */
    method LoadAcl() returns (completed: bool)
      requires nodes == []
      modifies this`nodes, rfs
      ensures RecoverNodes(old(rfs.files)).Some? ==>
                Next(System(old(rfs.files), None), Boot(old(rfs.budget)),
                     System(rfs.files, if completed then Some(Values()) else None))
      ensures RecoverNodes(old(rfs.files)).None? ==> !completed
      ensures completed ==> forall n :: n in nodes ==> fresh(n)
    {
      if BackupFile in rfs.files {
        completed := rfs.Perform(Rename(BackupFile, StorageFile));
        if !completed {
          return;
        }
      }
      assert rfs.files == Restored(old(rfs.files));
      if StorageFile in rfs.files {
        var content := rfs.files[StorageFile];
        completed := ReadNodes(content);
      } else {
        completed := true;
      }
    }

    /** Reads nodes until the remaining size has counted down. */
    method ReadNodes(content: string) returns (ok: bool)
      requires nodes == []
      modifies this`nodes
      ensures ok <==> DecodeFile(content).Some?
      ensures ok ==> Values() == DecodeFile(content).value && forall n :: n in nodes ==> fresh(n)
    {
      hide UnpackInt;
      hide DecodeNode;
      hide LoadedSoFar;
      var rest, size := content, |content|;
      assert Values() == [];
      ghost var target := DecodeFile(content);
      LoadingStart(content);
      while size > 0
        invariant size == |rest|
        invariant forall n :: n in nodes ==> fresh(n)
        invariant LoadedSoFar(target, Values(), rest)
      {
        var node, nodeSize := ReadNode(rest);
        if node == null {
          LoadingFails(target, Values(), rest);
          return false;
        }
        size := size - nodeSize;
        size := size - 4;
        ghost var before := Values();
        LoadedOneMore(target, before, rest);
        rest := rest[4 + nodeSize..];
        nodes := nodes + [node];
        assert Values() == before + [node.Value()];
      }
      LoadingEnd(target, Values(), rest);
      ok := true;
    }

    /** Reads one node and its announced size; null where no save could have written the bytes. */
    method ReadNode(rest: string) returns (node: AclNode?, nodeSize: int)
      ensures node == null ==> rest != "" ==> DecodeFile(rest).None?
      ensures node != null ==> |rest| >= 4 && nodeSize == UnpackInt(rest[..4]) && 0 <= nodeSize <= |rest| - 4
      ensures node != null ==> fresh(node) && DecodeNode(rest[4..4 + nodeSize]) == Some(node.Value())
    {
      node, nodeSize := null, 0;
      if |rest| >= 4 {
        nodeSize := UnpackInt(rest[..4]);
        if 0 <= nodeSize <= |rest| - 4 {
          node := AclNode.LoadFromString(rest[4..4 + nodeSize]);
        }
      }
    }
  }

  ghost predicate LoadedSoFar(target: Option<seq<NodeValue>>, loaded: seq<NodeValue>, rest: string) {
    if DecodeFile(rest).None? then target.None? else target == Some(loaded + DecodeFile(rest).value)
  }

  lemma LoadingStart(content: string)
    ensures LoadedSoFar(DecodeFile(content), [], content)
  {
    if DecodeFile(content).Some? {
      assert [] + DecodeFile(content).value == DecodeFile(content).value;
    }
  }

  lemma LoadingEnd(target: Option<seq<NodeValue>>, loaded: seq<NodeValue>, rest: string)
    requires LoadedSoFar(target, loaded, rest) && rest == ""
    ensures target == Some(loaded)
  {
    assert DecodeFile(rest) == Some([]) && loaded + [] == loaded;
  }

  /** A node that cannot be read makes the whole file unreadable. */
  lemma LoadingFails(target: Option<seq<NodeValue>>, loaded: seq<NodeValue>, rest: string)
    requires LoadedSoFar(target, loaded, rest) && DecodeFile(rest).None?
    ensures target == None
  {
  }

  lemma LoadedOneMore(target: Option<seq<NodeValue>>, loaded: seq<NodeValue>, rest: string)
    requires LoadedSoFar(target, loaded, rest)
    requires |rest| >= 4 && 0 <= UnpackInt(rest[..4]) <= |rest| - 4
    requires DecodeNode(rest[4..4 + UnpackInt(rest[..4])]).Some?
    ensures var size := UnpackInt(rest[..4]);
            LoadedSoFar(target, loaded + [DecodeNode(rest[4..4 + size]).value], rest[4 + size..])
  {
    hide DecodeNode;
    hide UnpackInt;
    var size := UnpackInt(rest[..4]);
    var node, tail := DecodeNode(rest[4..4 + size]).value, DecodeFile(rest[4 + size..]);
    if tail.Some? {
      assert loaded + ([node] + tail.value) == loaded + [node] + tail.value;
    }
  }
}
