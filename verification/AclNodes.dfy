/** ACL nodes and their commands as objects, and the operations that change them in place. */
module AclNodes {
  import opened Common
  import opened AclTypes
  import opened AclMerge
  import opened AclText
  import opened AclRecord
  import opened AclIndex

  class Command {
    const cert: CertInfo
    const command: AclCommand
    var serverId: Option<string>

    constructor FromCert(cert: CertInfo, command: AclCommand)
      ensures this.cert == cert && this.command == command && serverId == None
    {
      this.cert := cert;
      this.command := command;
      serverId := None;
    }

    constructor FromServer(serverId: string, command: AclCommand)
      ensures this.cert == EMPTY_CERT && this.command == command && this.serverId == Some(serverId)
    {
      this.cert := EMPTY_CERT;
      this.command := command;
      this.serverId := Some(serverId);
    }

    /** The part that is saved: the server identifier is not. */
    function Value(): CommandValue {
      CommandValue(cert, command)
    }

    /** A command read from an ACL text, or granted to a server. */
    predicate IsEntry()
      reads this
    {
      serverId.Some? && cert == EMPTY_CERT
    }

    function AsEntry(): Entry
      reads this
    {
      Entry(command, if serverId.Some? then serverId.value else "")
    }
  }

  function ValuesOf(cs: seq<Command>): (r: seq<CommandValue>)
    ensures |r| == |cs|
    ensures forall i :: 0 <= i < |cs| ==> r[i] == cs[i].Value()
  {
    seq(|cs|, i requires 0 <= i < |cs| => cs[i].Value())
  }

  function EntriesOf(cs: seq<Command>): (r: seq<Entry>)
    reads cs
    ensures |r| == |cs|
    ensures forall i :: 0 <= i < |cs| ==> r[i] == cs[i].AsEntry()
  {
    seq(|cs|, i requires 0 <= i < |cs| reads cs => cs[i].AsEntry())
  }

  ghost predicate EntryList(cs: seq<Command>)
    reads cs
  {
    && (forall i :: 0 <= i < |cs| ==> cs[i].IsEntry())
    && (forall i, j :: 0 <= i < j < |cs| ==> cs[i] != cs[j])
  }

  lemma EntryAt(cs: seq<Command>, p: nat, q: nat)
    requires EntryList(cs) && p < |cs| && q < |cs|
    ensures cs[p].serverId == Some(EntriesOf(cs)[p].server)
    ensures cs[p] == cs[q] <==> p == q
  {
  }

  lemma NextRest<T>(s: seq<T>, i: nat, t: seq<T>, p: nat)
    requires i < |s| && p < |t| && s[i..] == t[p..]
    ensures s[i + 1..] == t[p + 1..] && (s[..i] + s[i + 1..])[i..] == t[p + 1..]
  {
    assert s[i + 1..] == s[i..][1..] && t[p + 1..] == t[p..][1..];
  }

  lemma SplitFront<T>(s: seq<T>, i: nat)
    requires i < |s|
    ensures s[i..][0] == s[i] && s[i..][1..] == s[i + 1..] && s[..i + 1] == s[..i] + [s[i]]
    ensures var r := s[..i] + s[i + 1..]; r[..i] == s[..i] && r[i..] == s[i + 1..]
  {
  }

  lemma RemoveFromEntryList(cs: seq<Command>, i: nat)
    requires EntryList(cs) && i < |cs|
    ensures EntryList(cs[..i] + cs[i + 1..])
    ensures forall c :: c in cs[..i] + cs[i + 1..] ==> c in cs
  {
    var r := cs[..i] + cs[i + 1..];
    assert forall k :: 0 <= k < |r| ==> r[k] == cs[if k < i then k else k + 1];
  }

  /** The two commands are of the same type, and agree on the server identifier or else on the
      certificate. */
  predicate CompareCommands(a: Command, b: Command)
    requires b.serverId.Some?
    reads a, b
  {
    a.command == b.command && ((a.serverId.Some? && a.serverId == b.serverId) || a.cert == b.cert)
  }

  class AclNode {
    var uri: string
    var destination: Destination
    var clearFlag: bool
    var commands: seq<Command>

    constructor (uri: string)
      ensures Value() == NewNode(uri) && commands == []
      ensures IsAcl() && Entries() == []
    {
      this.uri := uri;
      destination := ForNode;
      clearFlag := false;
      commands := [];
    }

    function Value(): NodeValue
      reads this
    {
      NodeValue(uri, destination, clearFlag, ValuesOf(commands))
    }

    /** The node stands for an ACL text: its commands are entries, each a different object. */
    ghost predicate IsAcl()
      reads this, commands
    {
      EntryList(commands)
    }

    function Entries(): seq<Entry>
      reads this, commands
    {
      EntriesOf(commands)
    }

    // ----------------------------------------------------------------------------------------
    // Text
    // ----------------------------------------------------------------------------------------

    /** The command type of a name; another name leaves it as it happens to be. */
    static method ResolveCommand(name: string) returns (aclCommand: AclCommand)
      ensures Resolve(name).Some? ==> aclCommand == Resolve(name).value
    {
      aclCommand := *;
      if EqualFolded(name, "Add=") {
        aclCommand := Add;
      } else if EqualFolded(name, "Get=") {
        aclCommand := Get;
      } else if EqualFolded(name, "Delete=") {
        aclCommand := Delete;
      } else if EqualFolded(name, "Replace=") {
        aclCommand := Replace;
      } else if EqualFolded(name, "Exec=") {
        aclCommand := Exec;
      }
    }

    /** The entry at the front of a text, and the text after its `&`. */
    static method TakeEntry(text: string, index: nat) returns (command: AclCommand, server: string, tail: string)
      requires index == Locate(text, '=')
      ensures |tail| < |text| && Pieces(text) == [Piece(text[..index + 1], server)] + Pieces(tail)
      ensures ReadAs(Entry(command, server), Piece(text[..index + 1], server))
    {
      hide Locate;
      hide EqualFolded;
      command := ResolveCommand(text[..index + 1]);
      var rest := text[index + 1..];
      var end := Locate(rest, '&');
      server := rest;
      if end >= 0 {
        server := rest[..end];
        tail := rest[end + 1..];
      } else {
        tail := "";
      }
    }

    /** Appends a new command for a server. */
    method AppendEntry(serverId: string, command: AclCommand)
      requires IsAcl()
      modifies this`commands
      ensures IsAcl() && forall c :: c in commands ==> c in old(commands) || fresh(c)
      ensures Entries() == old(Entries()) + [Entry(command, serverId)]
    {
      var c := new Command.FromServer(serverId, command);
      commands := commands + [c];
    }

    /** Builds a node from an ACL text: an entry with an unknown name gets its server identifier, and
        some command type. */
    static method CreateAcl(text: string) returns (node: AclNode)
      ensures fresh(node) && node.IsAcl() && forall c :: c in node.commands ==> fresh(c)
      ensures AllReadAs(node.Entries(), Pieces(text))
      ensures Parse(text).Some? ==> node.Entries() == Parse(text).value
    {
      hide Locate;
      hide Pieces;
      hide Parse;
      hide ReadAs;
      hide EntryList;
      node := new AclNode("");
      ghost var pieces := Pieces(text);
      var ptr := text;
      var corrupt := false;
      while ptr != "" && !corrupt
        invariant node.IsAcl() && forall c :: c in node.commands ==> fresh(c)
        invariant ReadSoFar(pieces, node.Entries(), ptr) && (corrupt ==> Locate(ptr, '=') < 0)
        decreases |ptr|, !corrupt
      {
        var index := Locate(ptr, '=');
        if index < 0 {
          corrupt := true;
        } else {
          var aclCommand, server, tail := TakeEntry(ptr, index);
          ReadOneMore(pieces, node.Entries(), ptr, Entry(aclCommand, server), ptr[..index + 1], tail);
          ptr := tail;
          node.AppendEntry(server, aclCommand);
        }
      }
      ReadAll(pieces, node.Entries(), ptr);
      ParseIffNamesKnown(text);
    }

    /** Prints the ACL.  `None` stands for the panic on overrunning a buffer. */
    method GetAclString() returns (text: Option<string>)
      ensures text == if Fits(Entries()) then Some(Print(Entries())) else None
    {
      hide PrintedSoFar;
      hide Print;
      hide CommandString;
      hide CommandName;
      var buffer := "";
      var capacity := |commands| * TEXT_PER_COMMAND;
      var i := 0;
      ghost var all := Entries();
      PrintedNothing(all);
      while i < |commands|
        invariant 0 <= i <= |commands|
        invariant forall k :: 0 <= k < i ==> |CommandString(all[k])| <= COMMAND_CAPACITY
        invariant |buffer| <= capacity
        invariant PrintedSoFar(all, i, buffer)
      {
        PrintedOneMore(all, i, buffer);
        var command := CommandString(commands[i].AsEntry());
        i := i + 1;
        if |command| > COMMAND_CAPACITY || |buffer| + |command| > capacity {
          return None;
        }
        buffer := buffer + command;
        if i != |commands| {
          if |buffer| + 1 > capacity {
            return None;
          }
          buffer := buffer + "&";
        }
      }
      PrintedAll(all, buffer);
      text := Some(buffer);
    }

    // ----------------------------------------------------------------------------------------
    // Saved form
    // ----------------------------------------------------------------------------------------

    /** The length of the saved form. */
    method Length() returns (size: nat)
      ensures size == NodeLength(Value())
    {
      size := 4 * 2 + 4 + |uri|;
      for i := 0 to |commands|
        invariant size == 4 * 2 + 4 + |uri| + COMMAND_SIZE * i
      {
        size := size + COMMAND_SIZE;
      }
    }

    /** The saved form. */
    method SaveString() returns (buffer: string)
      requires StorableNode(Value())
      ensures buffer == EncodeNode(Value()) && |buffer| == NodeLength(Value())
    {
      buffer := PackInt(if clearFlag then 1 else 0) + PackInt(DestinationCode(destination)) + PackInt(|uri|) + uri;
      buffer := AppendCommands(buffer);
    }

    method AppendCommands(header: string) returns (buffer: string)
      ensures buffer == header + EncodeCommands(ValuesOf(commands))
    {
      buffer := header;
      ghost var values := ValuesOf(commands);
      for i := 0 to |commands|
        invariant buffer == header + EncodeCommands(values[..i])
      {
        EncodeOneMoreAfter(header, values, i);
        var command := EncodeCommand(commands[i].Value());
        buffer := buffer + command;
      }
      assert values[..|commands|] == values;
    }

    /** Rebuilds a node from its saved form; null stands for the panic on bytes of another form. */
    static method LoadFromString(bytes: string) returns (node: AclNode?)
      ensures node == null <==> DecodeNode(bytes).None?
      ensures node != null ==> fresh(node) && node.Value() == DecodeNode(bytes).value
    {
      hide DecodeCommand;
      hide DestinationOfCode;
      hide UnpackInt;
      if |bytes| < 12 {
        return null;
      }
      var destination := DestinationOfCode(UnpackInt(bytes[4..8]));
      var uriLength := UnpackInt(bytes[8..12]);
      if destination.None? || uriLength < 0 || uriLength > |bytes| - 12 {
        return null;
      }
      var loaded := new AclNode(bytes[12..12 + uriLength]);
      loaded.clearFlag := UnpackInt(bytes[..4]) != 0;
      loaded.destination := destination.value;
      var ptr := bytes[12 + uriLength..];
      ghost var target := DecodeCommands(ptr);
      if target.Some? {
        assert [] + target.value == target.value;
      }
      while ptr != ""
        invariant loaded.uri == bytes[12..12 + uriLength] && loaded.destination == destination.value
        invariant loaded.clearFlag == (UnpackInt(bytes[..4]) != 0)
        invariant target == PrependAll(ValuesOf(loaded.commands), DecodeCommands(ptr))
        decreases |ptr|
      {
        if |ptr| < COMMAND_SIZE {
          return null;
        }
        var value := DecodeCommand(ptr[..COMMAND_SIZE]);
        if value.None? {
          return null;
        }
        ghost var values, rest := ValuesOf(loaded.commands), DecodeCommands(ptr[COMMAND_SIZE..]);
        if rest.Some? {
          PrependMore(values, value.value, rest.value);
        }
        var command := new Command.FromCert(value.value.cert, value.value.command);
        loaded.commands := loaded.commands + [command];
        assert ValuesOf(loaded.commands) == values + [value.value];
        ptr := ptr[COMMAND_SIZE..];
      }
      node := loaded;
    }

    // ----------------------------------------------------------------------------------------
    // Changing the command list
    // ----------------------------------------------------------------------------------------

    method ClearAcl()
      modifies this
      ensures Value() == old(Value()).(commands := []) && commands == []
    {
      while commands != []
        invariant Value() == old(Value()).(commands := ValuesOf(commands))
        decreases |commands|
      {
        commands := commands[1..];
      }
    }

    /** Grants a command to a server unless an entry already does. */
    method SetServerIdToAcl(commandType: AclCommand, serverId: string)
      requires IsAcl()
      modifies this`commands
      ensures IsAcl() && forall c :: c in commands ==> c in old(commands) || fresh(c)
      ensures Entries() == AddServer(old(Entries()), commandType, serverId)
    {
      for i := 0 to |commands|
        invariant forall k :: 0 <= k < i ==>
                    !((commands[k].command == commandType || commandType == All)
                      && commands[k].serverId == Some(serverId))
      {
        assert commands[i] in commands;
        if (commands[i].command == commandType || commandType == All) && commands[i].serverId == Some(serverId) {
          assert Entries()[i].server == serverId;
          return;
        }
      }
      ghost var entries := Entries();
      forall k | 0 <= k < |entries|
        ensures !((entries[k].command == commandType || commandType == All) && entries[k].server == serverId)
      {
        assert commands[k] in commands;
      }
      AppendEntry(serverId, commandType);
    }

    /** Adds a command for a certificate unless the node already has it. */
    method SetCertificateToAcl(destination: Destination, commandType: AclCommand, cert: CertInfo)
      modifies this
      ensures Value() == SetCertificate(old(Value()), destination, commandType, cert)
    {
      ghost var n := Value();
      for i := 0 to |commands|
        invariant forall k :: 0 <= k < i ==>
                    !((n.commands[k].command == commandType || commandType == All) && n.commands[k].cert == cert)
      {
        if (commands[i].command == commandType || commandType == All) && commands[i].cert == cert {
          assert n.commands[i].cert == cert;
          return;
        }
      }
      var command := new Command.FromCert(cert, commandType);
      commands := commands + [command];
      this.destination := destination;
      assert ValuesOf(commands) == n.commands + [CommandValue(cert, commandType)];
    }

    // ----------------------------------------------------------------------------------------
    // Merging
    // ----------------------------------------------------------------------------------------

    method FindCorrespondingCommand(command: Command) returns (r: Command?)
      requires IsAcl() && command.serverId.Some?
      ensures var index := FindFirst(Entries(), command.Value(), command.serverId.value);
              if index < 0 then r == null else r == commands[index]
    {
      ghost var c, server := command.Value(), command.serverId.value;
      for i := 0 to |commands|
        invariant forall k :: 0 <= k < i ==> !Matches(Entries()[k], c, server)
      {
        assert commands[i] in commands;
        if CompareCommands(commands[i], command) {
          assert Matches(Entries()[i], c, server);
          FindFirstAt(Entries(), c, server, i);
          return commands[i];
        }
      }
      return null;
    }

    /** Removes the command at a position. */
    method RemoveEntry(i: nat)
      requires IsAcl() && i < |commands|
      modifies this`commands
      ensures IsAcl() && (forall c :: c in commands ==> c in old(commands))
      ensures commands == old(commands)[..i] + old(commands)[i + 1..]
      ensures Entries() == old(Entries())[..i] + old(Entries())[i + 1..]
    {
      RemoveFromEntryList(commands, i);
      commands := commands[..i] + commands[i + 1..];
    }

    /** Removes all commands of a server except one object. */
    method RemoveOthersOf(serverId: string, keep: Command, ghost index: nat)
      requires IsAcl() && index < |commands| && commands[index] == keep
      modifies this`commands
      ensures IsAcl() && (forall c :: c in commands ==> c in old(commands))
      ensures Entries() == KeepOnly(old(Entries()), index, serverId)
    {
      hide Removing;
      hide EntryList;
      hide KeepOnly;
      ghost var cs, entries := commands, Entries();
      RemovingStart(entries, index, serverId);
      ghost var p := 0;
      var i := 0;
      while i < |commands|
        invariant i <= |commands| && p <= |cs|
        invariant IsAcl() && (forall c :: c in commands ==> c in cs)
        invariant commands[i..] == cs[p..]
        invariant Removing(Entries(), i, entries, index, p, serverId)
        decreases |commands| - i
      {
        var command := commands[i];
        assert command == commands[i..][0] == cs[p];
        NextRest(commands, i, cs, p);
        EntryAt(cs, p, index);
        RemovingStep(Entries(), i, entries, index, p, serverId);
        if command.serverId == Some(serverId) && command != keep {
          RemoveEntry(i);
        } else {
          i := i + 1;
        }
        p := p + 1;
      }
      RemovingEnd(Entries(), entries, index, serverId);
    }
  }

  /** `p` entries have been visited, and `i` of them are left in front of the rest. */
  ghost predicate Removing(now: seq<Entry>, i: nat, entries: seq<Entry>, keep: nat, p: nat, server: string) {
    && keep < |entries| && p <= |entries| && i <= |now|
    && now[..i] == KeptPrefix(entries, keep, p, server)
    && now[i..] == entries[p..]
  }

  lemma RemovingStart(entries: seq<Entry>, keep: nat, server: string)
    requires keep < |entries|
    ensures Removing(entries, 0, entries, keep, 0, server)
  {
  }

  lemma RemovingEnd(now: seq<Entry>, entries: seq<Entry>, keep: nat, server: string)
    requires keep < |entries| && Removing(now, |now|, entries, keep, |entries|, server)
    ensures now == KeepOnly(entries, keep, server)
  {
    assert entries[keep + 1..|entries|] == entries[keep + 1..];
    assert now[..|now|] == now;
  }

  lemma RemovingStep(now: seq<Entry>, i: nat, entries: seq<Entry>, keep: nat, p: nat, server: string)
    requires Removing(now, i, entries, keep, p, server) && p < |entries| && i < |now|
    ensures now[i] == entries[p]
    ensures if p != keep && entries[p].server == server
            then Removing(now[..i] + now[i + 1..], i, entries, keep, p + 1, server)
            else Removing(now, i + 1, entries, keep, p + 1, server)
  {
    SplitFront(now, i);
    SplitFront(entries, p);
    KeptPrefixStep(entries, keep, p, server);
  }

  /** The entries made are the first pieces, and the rest of the text has the others. */
  ghost predicate ReadSoFar(pieces: seq<Piece>, entries: seq<Entry>, rest: string) {
    && |entries| <= |pieces| && pieces[|entries|..] == Pieces(rest)
    && forall i :: 0 <= i < |entries| ==> ReadAs(entries[i], pieces[i])
  }

  lemma ReadAll(pieces: seq<Piece>, entries: seq<Entry>, rest: string)
    requires ReadSoFar(pieces, entries, rest) && Locate(rest, '=') < 0
    ensures AllReadAs(entries, pieces)
  {
    hide ReadAs;
  }

  lemma ReadOneMore(
      pieces: seq<Piece>, entries: seq<Entry>, rest: string, e: Entry, name: string, tail: string)
    requires ReadSoFar(pieces, entries, rest) && Pieces(rest) == [Piece(name, e.server)] + Pieces(tail)
    requires ReadAs(e, Piece(name, e.server))
    ensures ReadSoFar(pieces, entries + [e], tail)
  {
    hide ReadAs;
    hide Pieces;
    var n := |entries|;
    assert pieces[n] == pieces[n..][0] == Piece(name, e.server);
    assert pieces[n + 1..] == pieces[n..][1..] == Pieces(tail);
  }

  /** The buffer holds what comes before entry `i`. */
  ghost predicate PrintedSoFar(all: seq<Entry>, i: nat, buffer: string)
    requires i <= |all|
  {
    Print(all) == if i == |all| then buffer else buffer + Print(all[i..])
  }

  lemma PrintedNothing(all: seq<Entry>)
    ensures PrintedSoFar(all, 0, "")
  {
    assert all[0..] == all && "" + Print(all) == Print(all);
  }

  lemma PrintedAll(all: seq<Entry>, buffer: string)
    requires PrintedSoFar(all, |all|, buffer)
    ensures buffer == Print(all)
  {
  }

  lemma PrintedOneMore(all: seq<Entry>, i: nat, buffer: string)
    requires i < |all| && PrintedSoFar(all, i, buffer)
    ensures var next := buffer + CommandString(all[i]);
            && PrintedSoFar(all, i + 1, if i + 1 < |all| then next + "&" else next)
            && |next| + (if i + 1 < |all| then 1 else 0) <= |Print(all)|
  {
    assert all[i..][1..] == all[i + 1..];
    if i + 1 < |all| {
      RegroupFour(buffer, CommandString(all[i]), "&", Print(all[i + 1..]));
    }
  }

  lemma RegroupFour(a: string, b: string, c: string, d: string)
    ensures a + (b + (c + d)) == a + b + c + d
  {
  }

  lemma EncodeOneMoreAfter(header: string, values: seq<CommandValue>, i: nat)
    requires i < |values|
    ensures header + EncodeCommands(values[..i + 1]) == header + EncodeCommands(values[..i]) + EncodeCommand(values[i])
  {
    EncodeOneMore(values, i);
    Associate(header, EncodeCommands(values[..i]), EncodeCommand(values[i]));
  }

  lemma PrependMore(front: seq<CommandValue>, v: CommandValue, rest: seq<CommandValue>)
    ensures front + ([v] + rest) == front + [v] + rest
    ensures [] + rest == rest
  {
  }

  function PrependAll(front: seq<CommandValue>, rest: Option<seq<CommandValue>>): Option<seq<CommandValue>> {
    if rest.None? then None else Some(front + rest.value)
  }

  lemma {:induction false} EncodeOneMore(values: seq<CommandValue>, i: nat)
    requires i < |values|
    ensures EncodeCommands(values[..i + 1]) == EncodeCommands(values[..i]) + EncodeCommand(values[i])
  {
    hide EncodeCommand;
    EncodeAppend(values[..i], values[i]);
    assert values[..i + 1] == values[..i] + [values[i]];
  }

  lemma {:induction false} EncodeAppend(values: seq<CommandValue>, v: CommandValue)
    ensures EncodeCommands(values + [v]) == EncodeCommands(values) + EncodeCommand(v)
  {
    hide EncodeCommand;
    if values == [] {
      assert EncodeCommands([v][1..]) == "";
    } else {
      assert (values + [v])[1..] == values[1..] + [v];
      EncodeAppend(values[1..], v);
      Associate(EncodeCommand(values[0]), EncodeCommands(values[1..]), EncodeCommand(v));
    }
  }

  /** What remains of the first `p` entries. */
  function KeptPrefix(entries: seq<Entry>, keep: nat, p: nat, server: string): seq<Entry>
    requires keep < |entries| && p <= |entries|
  {
    if p <= keep then Others(entries[..p], server)
    else Others(entries[..keep], server) + [entries[keep]] + Others(entries[keep + 1..p], server)
  }

  lemma KeptPrefixStep(entries: seq<Entry>, keep: nat, p: nat, server: string)
    requires keep < |entries| && p < |entries|
    ensures KeptPrefix(entries, keep, p + 1, server) ==
            KeptPrefix(entries, keep, p, server)
            + (if p != keep && entries[p].server == server then [] else [entries[p]])
  {
    if p < keep {
      assert entries[..p + 1] == entries[..p] + [entries[p]];
      OthersOfConcat(entries[..p], [entries[p]], server);
    } else if p == keep {
      assert entries[keep + 1..p + 1] == [];
      assert entries[..keep] == entries[..p];
    } else {
      assert entries[keep + 1..p + 1] == entries[keep + 1..p] + [entries[p]];
      OthersOfConcat(entries[keep + 1..p], [entries[p]], server);
    }
  }
}
