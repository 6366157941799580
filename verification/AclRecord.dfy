/** The length-prefixed binary form in which ACL nodes are stored. */
module AclRecord {
  import opened Common
  import opened AclTypes

  const INT_MIN: int := -0x8000_0000
  const INT_MAX: int := 0x7FFF_FFFF

  // ------------------------------------------------------------------------------------------
  // Integers and fixed-size fields
  // ------------------------------------------------------------------------------------------

  /** The lowest `n` bytes of a number, least significant first. */
  function PackBytes(u: nat, n: nat): (r: string)
    ensures |r| == n
    decreases n
  {
    if n == 0 then "" else [(u % 256) as char] + PackBytes(u / 256, n - 1)
  }

  function UnpackBytes(b: string): nat {
    if b == "" then 0 else b[0] as int + 256 * UnpackBytes(b[1..])
  }

  function Power256(n: nat): (r: nat) {
    if n == 0 then 1 else 256 * Power256(n - 1)
  }

  lemma {:induction false} UnpackPackBytes(u: nat, n: nat)
    requires u < Power256(n)
    ensures UnpackBytes(PackBytes(u, n)) == u
  {
    if n > 0 {
      UnpackPackBytes(u / 256, n - 1);
      assert PackBytes(u, n)[1..] == PackBytes(u / 256, n - 1);
    }
  }

  /** Memory image of a 32-bit integer: two's complement, least significant byte first. */
  function PackInt(x: int): (r: string)
    requires INT_MIN <= x <= INT_MAX
    ensures |r| == 4
  {
    PackBytes(if x < 0 then x + 0x1_0000_0000 else x, 4)
  }

  function UnpackInt(b: string): int
    requires |b| == 4
  {
    var u := UnpackBytes(b);
    if u > INT_MAX then u - 0x1_0000_0000 else u
  }

  lemma UnpackPackInt(x: int)
    requires INT_MIN <= x <= INT_MAX
    ensures UnpackInt(PackInt(x)) == x
  {
    assert Power256(4) == 0x1_0000_0000;
    UnpackPackBytes(if x < 0 then x + 0x1_0000_0000 else x, 4);
  }

  const FIELD_SIZE: nat := 4 + FIELD_CAPACITY

  function Zeros(n: nat): (r: string)
    ensures |r| == n
  {
    seq(n, _ => 0 as char)
  }

  function PackField(f: Field): (r: string)
    ensures |r| == FIELD_SIZE
  {
    PackInt(|f|) + f + Zeros(FIELD_CAPACITY - |f|)
  }

  function UnpackField(b: string): (r: Option<Field>)
    requires |b| == FIELD_SIZE
  {
    var n := UnpackInt(b[..4]);
    if 0 <= n <= FIELD_CAPACITY then Some(b[4..4 + n]) else None
  }

  lemma UnpackPackField(f: Field)
    ensures UnpackField(PackField(f)) == Some(f)
  {
    var b := PackField(f);
    assert b[..4] == PackInt(|f|);
    UnpackPackInt(|f|);
    assert b[4..4 + |f|] == f;
  }

  // ------------------------------------------------------------------------------------------
  // Commands
  // ------------------------------------------------------------------------------------------

  const CERT_SIZE: nat := 7 * FIELD_SIZE
  const COMMAND_SIZE: nat := CERT_SIZE + 4

  function CommandCode(c: AclCommand): int {
    match c
    case Add => 1
    case Delete => 2
    case Exec => 4
    case Get => 8
    case Replace => 16
    case All => 32
  }

  function CommandOfCode(x: int): Option<AclCommand> {
    if x == 1 then Some(Add)
    else if x == 2 then Some(Delete)
    else if x == 4 then Some(Exec)
    else if x == 8 then Some(Get)
    else if x == 16 then Some(Replace)
    else if x == 32 then Some(All)
    else None
  }

  function PackFields(fs: seq<Field>): (r: string)
    ensures |r| == FIELD_SIZE * |fs|
  {
    if fs == [] then "" else PackField(fs[0]) + PackFields(fs[1..])
  }

  function UnpackFields(b: string, n: nat): (r: Option<seq<Field>>)
    ensures r.Some? ==> |r.value| == n
  {
    if n == 0 then Some([])
    else if |b| < FIELD_SIZE then None
    else
      var f := UnpackField(b[..FIELD_SIZE]);
      var rest := UnpackFields(b[FIELD_SIZE..], n - 1);
      if f.Some? && rest.Some? then Some([f.value] + rest.value) else None
  }

  lemma {:induction false} UnpackPackFields(fs: seq<Field>)
    ensures UnpackFields(PackFields(fs), |fs|) == Some(fs)
  {
    if fs != [] {
      var b := PackFields(fs);
      assert b[..FIELD_SIZE] == PackField(fs[0]);
      assert b[FIELD_SIZE..] == PackFields(fs[1..]);
      UnpackPackField(fs[0]);
      UnpackPackFields(fs[1..]);
      assert [fs[0]] + fs[1..] == fs;
    }
  }

  function CertFields(c: CertInfo): seq<Field> {
    [c.serialNo, c.fingerprint, c.commonName, c.country, c.locality, c.organization, c.organizationUnit]
  }

  function PackCert(c: CertInfo): (r: string)
    ensures |r| == CERT_SIZE
  {
    PackFields(CertFields(c))
  }

  function UnpackCert(b: string): Option<CertInfo> {
    var fs := UnpackFields(b, 7);
    if fs.None? then None
    else
      var v := fs.value;
      Some(CertInfo(v[0], v[1], v[2], v[3], v[4], v[5], v[6]))
  }

  lemma UnpackPackCert(c: CertInfo)
    ensures UnpackCert(PackCert(c)) == Some(c)
  {
    UnpackPackFields(CertFields(c));
  }

  function EncodeCommand(c: CommandValue): (r: string)
    ensures |r| == COMMAND_SIZE
  {
    PackCert(c.cert) + PackInt(CommandCode(c.command))
  }

  function DecodeCommand(b: string): Option<CommandValue>
    requires |b| == COMMAND_SIZE
  {
    var cert := UnpackCert(b[..CERT_SIZE]);
    var command := CommandOfCode(UnpackInt(b[CERT_SIZE..]));
    if cert.Some? && command.Some? then Some(CommandValue(cert.value, command.value)) else None
  }

  lemma DecodeEncodeCommand(c: CommandValue)
    ensures DecodeCommand(EncodeCommand(c)) == Some(c)
  {
    var b := EncodeCommand(c);
    assert b[..CERT_SIZE] == PackCert(c.cert);
    assert b[CERT_SIZE..] == PackInt(CommandCode(c.command));
    UnpackPackCert(c.cert);
    UnpackPackInt(CommandCode(c.command));
  }

  function EncodeCommands(cs: seq<CommandValue>): (r: string)
    ensures |r| == COMMAND_SIZE * |cs|
  {
    if cs == [] then ""
    else
      assert COMMAND_SIZE * |cs| == COMMAND_SIZE + COMMAND_SIZE * |cs[1..]|;
      EncodeCommand(cs[0]) + EncodeCommands(cs[1..])
  }

  /** Reads commands until the bytes run out. */
  function DecodeCommands(b: string): Option<seq<CommandValue>> {
    if b == "" then Some([])
    else if |b| < COMMAND_SIZE then None
    else
      var c := DecodeCommand(b[..COMMAND_SIZE]);
      var rest := DecodeCommands(b[COMMAND_SIZE..]);
      if c.Some? && rest.Some? then Some([c.value] + rest.value) else None
  }

  lemma DecodeCommandsStep(c: CommandValue, rest: string)
    ensures DecodeCommands(EncodeCommand(c) + rest) ==
            if DecodeCommands(rest).None? then None else Some([c] + DecodeCommands(rest).value)
  {
    var b := EncodeCommand(c) + rest;
    assert b[..COMMAND_SIZE] == EncodeCommand(c);
    assert b[COMMAND_SIZE..] == rest;
    DecodeEncodeCommand(c);
  }

  lemma {:induction false} DecodeEncodeCommands(cs: seq<CommandValue>)
    ensures DecodeCommands(EncodeCommands(cs)) == Some(cs)
  {
    if cs != [] {
      DecodeCommandsStep(cs[0], EncodeCommands(cs[1..]));
      DecodeEncodeCommands(cs[1..]);
      assert [cs[0]] + cs[1..] == cs;
    }
  }

  // ------------------------------------------------------------------------------------------
  // Nodes
  // ------------------------------------------------------------------------------------------

  function DestinationCode(d: Destination): int {
    match d
    case ForNode => 0
    case ForChildren => 1
    case ForBoth => 2
  }

  function DestinationOfCode(x: int): Option<Destination> {
    if x == 0 then Some(ForNode)
    else if x == 1 then Some(ForChildren)
    else if x == 2 then Some(ForBoth)
    else None
  }

  /** The length announced for a node: two integers, the destination, the URI and the commands. */
  function NodeLength(n: NodeValue): nat {
    4 * 2 + 4 + |n.uri| + COMMAND_SIZE * |n.commands|
  }

  /** The node's length is representable. */
  predicate StorableNode(n: NodeValue) {
    NodeLength(n) <= INT_MAX
  }

  /** The saved form of a node; it is exactly as long as announced. */
  function EncodeNode(n: NodeValue): (r: string)
    requires StorableNode(n)
    ensures |r| == NodeLength(n)
  {
    PackInt(if n.clearFlag then 1 else 0) + PackInt(DestinationCode(n.destination)) + PackInt(|n.uri|) + n.uri
    + EncodeCommands(n.commands)
  }

  function DecodeNode(b: string): Option<NodeValue> {
    if |b| < 12 then None
    else
      var flag := UnpackInt(b[..4]) != 0;
      var destination := DestinationOfCode(UnpackInt(b[4..8]));
      var uriLength := UnpackInt(b[8..12]);
      if destination.None? || !(0 <= uriLength <= |b| - 12) then None
      else
        var commands := DecodeCommands(b[12 + uriLength..]);
        if commands.None? then None
        else Some(NodeValue(b[12..12 + uriLength], destination.value, flag, commands.value))
  }

  /** Where the parts of a saved node are: the clear flag as 0 or 1, the destination by its number, and the
      length of the URI, each a little-endian integer, then the URI and the commands. */
  lemma NodeLayout(n: NodeValue)
    requires StorableNode(n)
    ensures var b := EncodeNode(n);
            && |b| >= 12 + |n.uri|
            && b[..4] == [(if n.clearFlag then 1 else 0) as char, 0 as char, 0 as char, 0 as char]
            && b[4..8] == [(match n.destination { case ForNode => 0 case ForChildren => 1 case ForBoth => 2 }) as char,
                           0 as char, 0 as char, 0 as char]
            && UnpackInt(b[8..12]) == |n.uri|
            && b[12..12 + |n.uri|] == n.uri && b[12 + |n.uri|..] == EncodeCommands(n.commands)
  {
    Slices(PackInt(if n.clearFlag then 1 else 0), PackInt(DestinationCode(n.destination)), PackInt(|n.uri|), n.uri,
           EncodeCommands(n.commands));
    UnpackPackInt(|n.uri|);
    SmallImages();
    hide PackInt;
  }

  lemma SmallImages()
    ensures PackInt(0) == [0 as char, 0 as char, 0 as char, 0 as char]
    ensures PackInt(1) == [1 as char, 0 as char, 0 as char, 0 as char]
    ensures PackInt(2) == [2 as char, 0 as char, 0 as char, 0 as char]
    ensures DestinationCode(ForNode) == 0 && DestinationCode(ForChildren) == 1 && DestinationCode(ForBoth) == 2
  {
  }

  /** The last integer of a saved command is the bit of its type. */
  lemma CommandLayout(c: CommandValue)
    ensures var b := EncodeCommand(c);
            && b[..COMMAND_SIZE - 4] == PackCert(c.cert)
            && UnpackInt(b[COMMAND_SIZE - 4..]) ==
               (match c.command
                case Add => 1 case Delete => 2 case Exec => 4 case Get => 8 case Replace => 16 case All => 32)
  {
    UnpackPackInt(CommandCode(c.command));
    assert EncodeCommand(c)[COMMAND_SIZE - 4..] == PackInt(CommandCode(c.command));
  }

  lemma Slices(a: string, b: string, c: string, u: string, t: string)
    requires |a| == |b| == |c| == 4
    ensures var s := a + b + c + u + t;
            s[..4] == a && s[4..8] == b && s[8..12] == c && s[12..12 + |u|] == u && s[12 + |u|..] == t
  {
  }

  /** Decoding a node whose pieces decode to these values. */
  lemma DecodeNodeParts(flag: string, destination: string, length: string, uri: string, commands: string)
    requires |flag| == |destination| == |length| == 4 && UnpackInt(length) == |uri|
    requires DestinationOfCode(UnpackInt(destination)).Some? && DecodeCommands(commands).Some?
    ensures DecodeNode(flag + destination + length + uri + commands) ==
            Some(NodeValue(uri, DestinationOfCode(UnpackInt(destination)).value, UnpackInt(flag) != 0,
                           DecodeCommands(commands).value))
  {
    Slices(flag, destination, length, uri, commands);
  }

  lemma DecodeNodeValues(flag: int, destination: Destination, uri: string, commands: seq<CommandValue>)
    requires 0 <= flag <= 1 && |uri| <= INT_MAX
    ensures DecodeNode(PackInt(flag) + PackInt(DestinationCode(destination)) + PackInt(|uri|) + uri
                       + EncodeCommands(commands)) ==
            Some(NodeValue(uri, destination, flag != 0, commands))
  {
    var d := DestinationCode(destination);
    UnpackPackInt(flag);
    UnpackPackInt(d);
    UnpackPackInt(|uri|);
    DecodeEncodeCommands(commands);
    DecodeNodeParts(PackInt(flag), PackInt(d), PackInt(|uri|), uri, EncodeCommands(commands));
  }

  lemma DecodeEncodeNode(n: NodeValue)
    requires StorableNode(n)
    ensures DecodeNode(EncodeNode(n)) == Some(n)
  {
    DecodeNodeValues(if n.clearFlag then 1 else 0, n.destination, n.uri, n.commands);
  }

  // ------------------------------------------------------------------------------------------
  // Files
  // ------------------------------------------------------------------------------------------

  function FileLength(nodes: seq<NodeValue>): nat {
    if nodes == [] then 0 else 4 + NodeLength(nodes[0]) + FileLength(nodes[1..])
  }

  /** The file's size is representable, and so is the length of every node. */
  predicate Storable(nodes: seq<NodeValue>) {
    FileLength(nodes) <= INT_MAX
  }

  function EncodeFile(nodes: seq<NodeValue>): (r: string)
    requires Storable(nodes)
    ensures |r| == FileLength(nodes)
  {
    if nodes == [] then ""
    else PackInt(NodeLength(nodes[0])) + EncodeNode(nodes[0]) + EncodeFile(nodes[1..])
  }

  /** Reads nodes while bytes remain.  `None` stands for a file that no save produces: there the
      reader panics or takes a node from too few bytes. */
  function DecodeFile(b: string): Option<seq<NodeValue>> {
    if b == "" then Some([])
    else if |b| < 4 then None
    else
      var size := UnpackInt(b[..4]);
      if !(0 <= size <= |b| - 4) then None
      else
        var node := DecodeNode(b[4..4 + size]);
        var rest := DecodeFile(b[4 + size..]);
        if node.Some? && rest.Some? then Some([node.value] + rest.value) else None
  }

  /** One reading step over a saved node and what follows it. */
  lemma DecodeFileStep(n: NodeValue, rest: string)
    requires StorableNode(n)
    ensures DecodeFile(PackInt(NodeLength(n)) + EncodeNode(n) + rest) ==
            if DecodeFile(rest).None? then None else Some([n] + DecodeFile(rest).value)
  {
    var b := PackInt(NodeLength(n)) + EncodeNode(n) + rest;
    assert b[..4] == PackInt(NodeLength(n));
    UnpackPackInt(NodeLength(n));
    assert b[4..4 + NodeLength(n)] == EncodeNode(n);
    assert b[4 + NodeLength(n)..] == rest;
    DecodeEncodeNode(n);
  }

  /** Reading a saved list of nodes gives the list back: URI, destination, clear flag, and the
      certificate and type of every command. */
  lemma {:induction false} DecodeEncodeFile(nodes: seq<NodeValue>)
    requires Storable(nodes)
    ensures DecodeFile(EncodeFile(nodes)) == Some(nodes)
  {
    if nodes != [] {
      DecodeFileStep(nodes[0], EncodeFile(nodes[1..]));
      DecodeEncodeFile(nodes[1..]);
      assert [nodes[0]] + nodes[1..] == nodes;
    }
  }
}
