/** The text form of an ACL: `command=server` entries joined by `&`. */
module AclText {
  import opened Common
  import opened AclTypes
  import opened AclMerge

  // ------------------------------------------------------------------------------------------
  // Printing
  // ------------------------------------------------------------------------------------------

  /** The text of a command type, with its `=`; the wildcard has none. */
  function CommandName(c: AclCommand): string {
    match c
    case Add => "Add="
    case Delete => "Delete="
    case Exec => "Exec="
    case Get => "Get="
    case Replace => "Replace="
    case All => ""
  }

  function CommandString(e: Entry): string {
    CommandName(e.command) + e.server
  }

  function Print(acl: seq<Entry>): string {
    if acl == [] then ""
    else CommandString(acl[0]) + (if |acl| == 1 then "" else "&" + Print(acl[1..]))
  }

  /** Capacity of the buffer for one printed command. */
  const COMMAND_CAPACITY: nat := 30
  /** Capacity reserved per command in the buffer for the whole ACL text. */
  const TEXT_PER_COMMAND: nat := 21

  /** The ACL can be printed without overrunning a buffer. */
  predicate Fits(acl: seq<Entry>) {
    && |Print(acl)| <= TEXT_PER_COMMAND * |acl|
    && forall i :: 0 <= i < |acl| ==> |CommandString(acl[i])| <= COMMAND_CAPACITY
  }

  lemma {:induction false} PrintLength(acl: seq<Entry>)
    requires forall i :: 0 <= i < |acl| ==> |acl[i].server| <= 12
    ensures acl != [] ==> |Print(acl)| <= TEXT_PER_COMMAND * |acl| - 1
  {
    if |acl| > 1 {
      PrintLength(acl[1..]);
    }
  }

  /** Server identifiers of at most 12 bytes always fit. */
  lemma ShortServersFit(acl: seq<Entry>)
    requires forall i :: 0 <= i < |acl| ==> |acl[i].server| <= 12
    ensures Fits(acl)
  {
    PrintLength(acl);
  }

  /** The bound of 12 cannot be raised: two `Replace` entries of 13 bytes overrun the text buffer. */
  lemma LongServersOverrun()
    ensures var e := Entry(Replace, "server0123456"); |e.server| == 13 && !Fits([e, e])
  {
    var e := Entry(Replace, "server0123456");
    assert [e, e][1..] == [e];
    assert |Print([e])| == 21;
    assert |Print([e, e])| == 43;
  }

  // ------------------------------------------------------------------------------------------
  // Parsing
  // ------------------------------------------------------------------------------------------

  /** Case folding of one character (ASCII letters). */
  function Fold(c: char): char {
    if 'a' <= c <= 'z' then c - 'a' + 'A' else c
  }

  predicate EqualFolded(a: string, b: string) {
    |a| == |b| && (a == "" || (Fold(a[0]) == Fold(b[0]) && EqualFolded(a[1..], b[1..])))
  }

  lemma {:induction false} EqualToItself(a: string)
    ensures EqualFolded(a, a)
  {
    if a != "" {
      EqualToItself(a[1..]);
    }
  }

  /** The command type that a name up to and including `=` stands for. */
  function Resolve(name: string): (r: Option<AclCommand>)
    ensures r.Some? ==> r.value != All && EqualFolded(name, CommandName(r.value))
  {
    if EqualFolded(name, "Add=") then Some(Add)
    else if EqualFolded(name, "Get=") then Some(Get)
    else if EqualFolded(name, "Delete=") then Some(Delete)
    else if EqualFolded(name, "Replace=") then Some(Replace)
    else if EqualFolded(name, "Exec=") then Some(Exec)
    else None
  }

  /** The entries of a text.  Text without a further `=` ends the list; a name that is not one of
      the five leaves the command type undetermined, which `None` stands for. */
  function Parse(text: string): (r: Option<seq<Entry>>)
    decreases |text|
  {
    var i := Locate(text, '=');
    if i < 0 then Some([])
    else
      var command := Resolve(text[..i + 1]);
      var (server, tail) := SplitServer(text[i + 1..]);
      if command.None? then None
      else
        var rest := Parse(tail);
        if rest.None? then None else Some([Entry(command.value, server)] + rest.value)
  }

  /** One entry of a text: the name with its `=`, and the server identifier. */
  datatype Piece = Piece(name: string, server: string)

  /** The entries of a text, whatever their names are. */
  function Pieces(text: string): seq<Piece>
    decreases |text|
  {
    var i := Locate(text, '=');
    if i < 0 then []
    else
      var (server, tail) := SplitServer(text[i + 1..]);
      [Piece(text[..i + 1], server)] + Pieces(tail)
  }

  /** The entry has the server identifier of the text, and its command type if the name is known. */
  predicate ReadAs(e: Entry, p: Piece) {
    e.server == p.server && (Resolve(p.name).Some? ==> e.command == Resolve(p.name).value)
  }

  predicate AllReadAs(acl: seq<Entry>, ps: seq<Piece>) {
    |acl| == |ps| && forall i :: 0 <= i < |acl| ==> ReadAs(acl[i], ps[i])
  }

  predicate AllNamesKnown(ps: seq<Piece>) {
    forall i :: 0 <= i < |ps| ==> Resolve(ps[i].name).Some?
  }

  /** A text is read completely exactly when all names are known, and then its entries are the only
      ones that the pieces can be read as. */
  lemma {:induction false} ParseIffNamesKnown(text: string)
    ensures Parse(text).Some? <==> AllNamesKnown(Pieces(text))
    ensures Parse(text).Some? ==> forall acl :: AllReadAs(acl, Pieces(text)) <==> acl == Parse(text).value
    decreases |text|
  {
    hide EqualFolded;
    hide Resolve;
    hide Locate;
    hide SplitServer;
    var i := Locate(text, '=');
    if i >= 0 {
      var (server, tail) := SplitServer(text[i + 1..]);
      var name := text[..i + 1];
      ParseIffNamesKnown(tail);
      var ps, rest := Pieces(text), Pieces(tail);
      assert ps[0] == Piece(name, server) && ps[1..] == rest;
      assert AllNamesKnown(ps) <==> Resolve(name).Some? && AllNamesKnown(rest) by {
        assert forall k :: 0 <= k < |rest| ==> ps[k + 1] == rest[k];
        assert forall k :: 1 <= k < |ps| ==> ps[k] == rest[k - 1];
      }
      if Parse(text).Some? {
        var parsed := Parse(text).value;
        assert parsed == [Entry(Resolve(name).value, server)] + Parse(tail).value;
        forall acl
          ensures AllReadAs(acl, ps) <==> acl == parsed
        {
          ReadAsFirst(acl, ps);
          assert acl != [] ==> acl == [acl[0]] + acl[1..];
        }
      }
    }
  }

  lemma ReadAsFirst(acl: seq<Entry>, ps: seq<Piece>)
    requires ps != []
    ensures AllReadAs(acl, ps) <==> acl != [] && ReadAs(acl[0], ps[0]) && AllReadAs(acl[1..], ps[1..])
  {
    hide ReadAs;
    if acl != [] && ReadAs(acl[0], ps[0]) && AllReadAs(acl[1..], ps[1..]) {
      assert forall i :: 1 <= i < |acl| ==> acl[i] == acl[1..][i - 1] && ps[i] == ps[1..][i - 1];
    }
  }

  /** The text up to `&`, and what follows it. */
  function SplitServer(text: string): (r: (string, string))
    ensures |r.1| <= |text|
    ensures '&' !in r.0
  {
    var j := Locate(text, '&');
    if j < 0 then (text, "") else (text[..j], text[j + 1..])
  }

  /** Entries that have a text form. */
  predicate Printable(acl: seq<Entry>) {
    forall e :: e in acl ==> e.command != All && '&' !in e.server
  }

  lemma {:induction false} ParsedIsPrintable(text: string)
    ensures Parse(text).Some? ==> Printable(Parse(text).value)
    decreases |text|
  {
    hide EqualFolded;
    hide Resolve;
    hide Locate;
    hide SplitServer;
    var i := Locate(text, '=');
    if i >= 0 && Parse(text).Some? {
      var (server, tail) := SplitServer(text[i + 1..]);
      var command := Resolve(text[..i + 1]).value;
      ParsedIsPrintable(tail);
      assert Parse(text).value == [Entry(command, server)] + Parse(tail).value;
    }
  }

  lemma ResolveName(c: AclCommand)
    requires c != All
    ensures Resolve(CommandName(c)) == Some(c)
  {
    EqualToItself(CommandName(c));
  }

  /** The name without its `=`. */
  lemma NameBeforeEquals(c: AclCommand) returns (name: string)
    requires c != All
    ensures CommandName(c) == name + ['='] && '=' !in name
  {
    name := match c case Add => "Add" case Delete => "Delete" case Exec => "Exec" case Get => "Get" case _ => "Replace";
  }

  lemma SplitBefore(server: string, tail: string, more: bool)
    requires '&' !in server && (!more ==> tail == "")
    ensures SplitServer(server + (if more then "&" + tail else "")) == (server, tail)
  {
    var after := server + (if more then "&" + tail else "");
    if more {
      assert after == server + ['&'] + tail;
      LocateAt(server, '&', tail);
      assert after[..|server|] == server && after[|server| + 1..] == tail;
    } else {
      assert after == server;
    }
  }

  lemma SplitName(name: string, after: string)
    requires '=' !in name
    ensures var text := name + ['='] + after;
            Locate(text, '=') == |name| && text[..|name| + 1] == name + ['='] && text[|name| + 1..] == after
  {
    LocateAt(name, '=', after);
  }

  /** One parsing step over a printed entry and what follows it. */
  lemma ParseStep(command: AclCommand, server: string, tail: string, more: bool)
    requires command != All && '&' !in server
    requires !more ==> tail == ""
    ensures Parse(CommandName(command) + (server + (if more then "&" + tail else ""))) ==
            if Parse(tail).None? then None else Some([Entry(command, server)] + Parse(tail).value)
  {
    var after := server + (if more then "&" + tail else "");
    var name := NameBeforeEquals(command);
    SplitName(name, after);
    SplitBefore(server, tail, more);
    ResolveName(command);
  }

  lemma PrintStep(acl: seq<Entry>)
    requires acl != []
    ensures Print(acl) == CommandName(acl[0].command)
              + (acl[0].server + (if |acl| > 1 then "&" + Print(acl[1..]) else ""))
  {
    Associate(CommandName(acl[0].command), acl[0].server, if |acl| > 1 then "&" + Print(acl[1..]) else "");
  }

  /** Parsing what was printed gives the entries back: server identifiers may contain `=` or be
      empty, but not contain `&`. */
  lemma {:induction false} ParsePrint(acl: seq<Entry>)
    requires Printable(acl)
    ensures Parse(Print(acl)) == Some(acl)
  {
    hide Parse;
    hide Print;
    hide CommandName;
    if acl == [] {
      ParseNothing();
    } else {
      assert acl[0] in acl;
      var command, server, tail := acl[0].command, acl[0].server, Print(acl[1..]);
      ParsePrint(acl[1..]);
      PrintStep(acl);
      if |acl| == 1 {
        PrintNothing();
        assert acl[1..] == [];
      }
      ParseStep(command, server, tail, |acl| > 1);
      assert [Entry(command, server)] + acl[1..] == acl;
    }
  }

  lemma PrintNothing()
    ensures Print([]) == ""
  {
  }

  lemma ParseNothing()
    ensures Parse(Print([])) == Some([])
  {
    assert Locate("", '=') == -1;
  }

  /** The text codec loses nothing exactly on the printable lists. */
  lemma {:induction false} ParsePrintIff(acl: seq<Entry>)
    ensures Parse(Print(acl)) == Some(acl) <==> Printable(acl)
  {
    ParsedIsPrintable(Print(acl));
    if Printable(acl) {
      ParsePrint(acl);
    }
  }

  /** What is printed behind the first `&` of a server identifier, up to the end of the text. */
  function Behind(b: string, post: seq<Entry>): string {
    b + if post == [] then "" else "&" + Print(post)
  }

  /** What becomes of an entry whose server identifier contains `&`: the entries before it are read
      back, the identifier is cut there, and what follows is read as entries of its own. */
  lemma {:induction false} AmpersandCutsServer(
      pre: seq<Entry>, command: AclCommand, a: string, b: string, post: seq<Entry>)
    requires Printable(pre) && command != All && '&' !in a
    ensures var rest := Parse(Behind(b, post));
            Parse(Print(pre + [Entry(command, a + ("&" + b))] + post)) ==
            if rest.None? then None else Some(pre + [Entry(command, a)] + rest.value)
  {
    hide Parse;
    hide Print;
    hide CommandName;
    var acl := pre + [Entry(command, a + ("&" + b))] + post;
    var rest := Parse(Behind(b, post));
    PrintStep(acl);
    if pre == [] {
      assert acl[1..] == post && [] + [Entry(command, a)] == [Entry(command, a)];
      assert (a + ("&" + b)) + (if post == [] then "" else "&" + Print(post)) == a + ("&" + Behind(b, post));
      ParseStep(command, a, Behind(b, post), true);
    } else {
      assert pre[0] in pre;
      assert acl[0] == pre[0] && acl[1..] == pre[1..] + [Entry(command, a + ("&" + b))] + post;
      AmpersandCutsServer(pre[1..], command, a, b, post);
      ParseStep(pre[0].command, pre[0].server, Print(acl[1..]), true);
      if rest.Some? {
        assert [pre[0]] + (pre[1..] + [Entry(command, a)] + rest.value) == pre + [Entry(command, a)] + rest.value;
      }
    }
  }

  // ------------------------------------------------------------------------------------------
  // Rewriting the text of a tree node
  // ------------------------------------------------------------------------------------------

  /** The entries after a stored node has been merged into an ACL text. */
  function Rewritten(text: string, n: NodeValue, s: Session): Option<seq<Entry>> {
    if n.clearFlag then Some(Rewrite([], n, s))
    else
      var acl := Parse(text);
      if acl.None? then None else Some(Rewrite(acl.value, n, s))
  }

  /** The ACL text after a stored node has been merged into it. */
  function UpdateText(text: string, n: NodeValue, s: Session): Option<string> {
    var r := Rewritten(text, n, s);
    if r.None? then None else Some(Print(r.value))
  }

  lemma MergeIsPrintable(acl: seq<Entry>, cmds: seq<CommandValue>, s: Session)
    requires Printable(acl)
    requires '&' !in s.server && forall c :: c in cmds ==> c.command != All
    ensures Printable(Merge(acl, cmds, s))
  {
    MergeFrame(acl, cmds, s);
  }

  /** Rewriting a well-formed ACL text three times gives the same text as rewriting it twice; with
      the clear flag, twice gives the same as once. */
  lemma UpdateTextConverges(text: string, n: NodeValue, s: Session)
    requires DistinctNamed(n.commands)
    requires '&' !in s.server
    requires Parse(text).Some?
    ensures var once := UpdateText(text, n, s);
            && once.Some?
            && var twice := UpdateText(once.value, n, s);
            && twice.Some?
            && UpdateText(twice.value, n, s) == twice
            && (n.clearFlag ==> twice == once)
  {
    if !n.clearFlag {
      var acl := Parse(text).value;
      ParsedIsPrintable(text);
      forall c | c in n.commands
        ensures c.command != All
      {
      }
      var once := Merge(acl, n.commands, s);
      MergeIsPrintable(acl, n.commands, s);
      ParsePrint(once);
      MergeIsPrintable(once, n.commands, s);
      ParsePrint(Merge(once, n.commands, s));
      MergeConverges(acl, n.commands, s);
    }
  }
}
