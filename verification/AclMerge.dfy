/** How the commands of a stored ACL node are merged into the ACL of a management tree node. */
module AclMerge {
  import opened Common
  import opened AclTypes

  /** An entry read from an ACL text carries a server identifier and an empty certificate; it
      corresponds to a stored command of the same type when either identification agrees. */
  predicate Matches(e: Entry, c: CommandValue, server: string) {
    e.command == c.command && (e.server == server || EMPTY_CERT == c.cert)
  }

  /** Index of the first corresponding entry, or -1. */
  function FindFirst(acl: seq<Entry>, c: CommandValue, server: string): (r: int)
    ensures -1 <= r < |acl|
    ensures r >= 0 ==> Matches(acl[r], c, server)
    ensures forall i :: 0 <= i < (if r < 0 then |acl| else r) ==> !Matches(acl[i], c, server)
  {
    if acl == [] then -1
    else if Matches(acl[0], c, server) then 0
    else
      var r := FindFirst(acl[1..], c, server);
      assert forall i :: 1 <= i < |acl| ==> acl[i] == acl[1..][i - 1];
      if r < 0 then -1 else r + 1
  }

  predicate Hit(acl: seq<Entry>, c: CommandValue, server: string) {
    FindFirst(acl, c, server) >= 0
  }

  /** The entries that name some other server, in order. */
  function Others(acl: seq<Entry>, server: string): (r: seq<Entry>) {
    if acl == [] then []
    else (if acl[0].server == server then [] else [acl[0]]) + Others(acl[1..], server)
  }

  /** The entries left when all entries of `server` but the one at `keep` are removed. */
  function KeepOnly(acl: seq<Entry>, keep: nat, server: string): seq<Entry>
    requires keep < |acl|
  {
    Others(acl[..keep], server) + [acl[keep]] + Others(acl[keep + 1..], server)
  }

  /** Grants `command` to `server` unless an entry already does. */
  function AddServer(acl: seq<Entry>, command: AclCommand, server: string): seq<Entry> {
    if exists i :: 0 <= i < |acl| && (acl[i].command == command || command == All) && acl[i].server == server
    then acl
    else acl + [Entry(command, server)]
  }

  function MergeOne(acl: seq<Entry>, c: CommandValue, s: Session): seq<Entry> {
    var j := FindFirst(acl, c, s.server);
    if j >= 0 then KeepOnly(acl, j, s.server)
    else if s.cert == c.cert then AddServer(acl, c.command, s.server)
    else acl
  }

  /** The commands of a stored node, merged one after the other. */
  function Merge(acl: seq<Entry>, cmds: seq<CommandValue>, s: Session): seq<Entry>
    decreases |cmds|
  {
    if cmds == [] then acl else Merge(MergeOne(acl, cmds[0], s), cmds[1..], s)
  }

  /** The whole rewrite of one ACL by a stored node. */
  function Rewrite(acl: seq<Entry>, n: NodeValue, s: Session): seq<Entry> {
    Merge(if n.clearFlag then [] else acl, n.commands, s)
  }

  // ------------------------------------------------------------------------------------------
  // Frame and authorisation
  // ------------------------------------------------------------------------------------------

  lemma {:induction false} OthersOfConcat(a: seq<Entry>, b: seq<Entry>, server: string)
    ensures Others(a + b, server) == Others(a, server) + Others(b, server)
  {
    if a == [] {
      assert a + b == b;
    } else {
      assert (a + b)[1..] == a[1..] + b;
      OthersOfConcat(a[1..], b, server);
    }
  }

  lemma {:induction false} OthersElements(acl: seq<Entry>, server: string)
    ensures forall e :: e in Others(acl, server) <==> e in acl && e.server != server
  {
    if acl != [] {
      OthersElements(acl[1..], server);
      assert acl == [acl[0]] + acl[1..];
    }
  }

  lemma {:induction false} OthersFixed(acl: seq<Entry>, server: string)
    requires forall e :: e in acl ==> e.server != server
    ensures Others(acl, server) == acl
  {
    if acl != [] {
      OthersFixed(acl[1..], server);
    }
  }

  lemma {:induction false} OthersNone(acl: seq<Entry>, server: string)
    requires forall e :: e in acl ==> e.server == server
    ensures Others(acl, server) == []
  {
    if acl != [] {
      OthersNone(acl[1..], server);
    }
  }

  lemma OthersTwice(acl: seq<Entry>, server: string)
    ensures Others(Others(acl, server), server) == Others(acl, server)
  {
    OthersElements(acl, server);
    OthersFixed(Others(acl, server), server);
  }

  /** What `KeepOnly` leaves: every other server's entry in order, and of `server` at most the
      kept entry. */
  lemma KeepOnlyFrame(acl: seq<Entry>, keep: nat, server: string)
    requires keep < |acl|
    ensures Others(KeepOnly(acl, keep, server), server) == Others(acl, server)
    ensures forall e :: e in KeepOnly(acl, keep, server) ==> e in acl && (e.server == server ==> e == acl[keep])
    ensures acl[keep] in KeepOnly(acl, keep, server)
  {
    var a, b := acl[..keep], acl[keep + 1..];
    assert acl == a + ([acl[keep]] + b);
    OthersOfConcat(a, [acl[keep]] + b, server);
    OthersOfConcat([acl[keep]], b, server);
    var x, y := Others(a, server), Others(b, server);
    assert KeepOnly(acl, keep, server) == x + ([acl[keep]] + y);
    OthersOfConcat(x, [acl[keep]] + y, server);
    OthersOfConcat([acl[keep]], y, server);
    OthersTwice(a, server);
    OthersTwice(b, server);
    OthersElements(a, server);
    OthersElements(b, server);
  }

  lemma OthersKeptByOne(acl: seq<Entry>, c: CommandValue, s: Session)
    ensures Others(MergeOne(acl, c, s), s.server) == Others(acl, s.server)
  {
    var j := FindFirst(acl, c, s.server);
    if j >= 0 {
      KeepOnlyFrame(acl, j, s.server);
    } else {
      OthersOfConcat(acl, [Entry(c.command, s.server)], s.server);
    }
  }

  /** What one command can add. */
  lemma AddedByOne(acl: seq<Entry>, c: CommandValue, s: Session, e: Entry)
    requires e in MergeOne(acl, c, s) && e !in acl
    ensures e == Entry(c.command, s.server) && c.cert == s.cert
  {
    var j := FindFirst(acl, c, s.server);
    if j >= 0 {
      KeepOnlyFrame(acl, j, s.server);
    }
  }

  lemma {:induction false} OthersKept(acl: seq<Entry>, cmds: seq<CommandValue>, s: Session)
    ensures Others(Merge(acl, cmds, s), s.server) == Others(acl, s.server)
    decreases |cmds|
  {
    if cmds != [] {
      OthersKeptByOne(acl, cmds[0], s);
      OthersKept(MergeOne(acl, cmds[0], s), cmds[1..], s);
    }
  }

  /** Every added entry names the session's server, has the type of a stored command, and that
      command carries the session's certificate. */
  lemma {:induction false} AddedByMerge(acl: seq<Entry>, cmds: seq<CommandValue>, s: Session, e: Entry)
    returns (c: CommandValue)
    requires e in Merge(acl, cmds, s) && e !in acl
    ensures c in cmds && e == Entry(c.command, s.server) && c.cert == s.cert
    decreases |cmds|
  {
    var next := MergeOne(acl, cmds[0], s);
    if e in next {
      c := cmds[0];
      AddedByOne(acl, c, s, e);
    } else {
      c := AddedByMerge(next, cmds[1..], s, e);
    }
  }

  /** The command at `i` adds the entry. */
  predicate AddedAt(acl: seq<Entry>, cmds: seq<CommandValue>, s: Session, i: nat, e: Entry)
    requires i < |cmds|
  {
    e in Merge(acl, cmds[..i + 1], s) && e !in Merge(acl, cmds[..i], s)
  }

  /** Merging never touches the entries of other servers, whatever the ACL, the stored commands
      and the certificates are; every entry that it adds names the session's server, has the type of a
      stored command, and that command carries the session's certificate; and so does every entry that
      any step on the way adds, be it one that was removed before. */
  lemma MergeFrame(acl: seq<Entry>, cmds: seq<CommandValue>, s: Session)
    ensures Others(Merge(acl, cmds, s), s.server) == Others(acl, s.server)
    ensures forall e :: e in Merge(acl, cmds, s) && e !in acl ==>
              e.server == s.server && exists c :: c in cmds && c.command == e.command && c.cert == s.cert
    ensures forall i, e :: 0 <= i < |cmds| && AddedAt(acl, cmds, s, i, e) ==>
              e == Entry(cmds[i].command, s.server) && cmds[i].cert == s.cert
  {
    OthersKept(acl, cmds, s);
    forall i, e | 0 <= i < |cmds| && AddedAt(acl, cmds, s, i, e)
      ensures e == Entry(cmds[i].command, s.server) && cmds[i].cert == s.cert
    {
      MergeOneMore(acl, cmds, i, s);
      AddedByOne(Merge(acl, cmds[..i], s), cmds[i], s, e);
    }
    forall e | e in Merge(acl, cmds, s) && e !in acl
      ensures e.server == s.server && exists c :: c in cmds && c.command == e.command && c.cert == s.cert
    {
      var c := AddedByMerge(acl, cmds, s, e);
    }
  }

  /** What the clear flag decides: without it every entry of the other servers survives, in order, and
      the session's server gets only what it had or what its certificate earns; with it nothing but
      the latter is left. */
  lemma RewriteFrame(acl: seq<Entry>, n: NodeValue, s: Session)
    ensures !n.clearFlag ==> Others(Rewrite(acl, n, s), s.server) == Others(acl, s.server)
    ensures forall e :: e in Rewrite(acl, n, s) && (n.clearFlag || e !in acl) ==>
              e.server == s.server && exists c :: c in n.commands && c.command == e.command && c.cert == s.cert
  {
    MergeFrame(acl, n.commands, s);
    MergeFrame([], n.commands, s);
  }

  /** One command for the session's certificate, merged into an ACL in which no entry corresponds to it:
      the old ACL, or nothing if the flag is set, and then the granted entry. */
  lemma RewriteGrants(acl: seq<Entry>, n: NodeValue, s: Session)
    requires |n.commands| == 1 && n.commands[0].cert == s.cert && n.commands[0].command != All
    requires forall e :: e in acl ==> !Matches(e, n.commands[0], s.server)
    ensures Rewrite(acl, n, s) == (if n.clearFlag then [] else acl) + [Entry(n.commands[0].command, s.server)]
  {
    var start := if n.clearFlag then [] else acl;
    MissAppends(start, n.commands[0], s);
    var next := MergeOne(start, n.commands[0], s);
    assert n.commands[1..] == [] && Merge(next, [], s) == next;
  }

  /** A stored command without a certificate corresponds to the first entry of its type, whichever server
      the entry names; one with a certificate only to an entry of the session's server. */
  lemma {:induction false} CorrespondingServer(acl: seq<Entry>, c: CommandValue, server: string)
    ensures c.cert == EMPTY_CERT ==> (Hit(acl, c, server) <==> exists e :: e in acl && e.command == c.command)
    ensures c.cert != EMPTY_CERT ==> (Hit(acl, c, server) <==> Entry(c.command, server) in acl)
  {
    var r := FindFirst(acl, c, server);
    if r >= 0 {
      assert acl[r] in acl;
    } else {
      forall e | e in acl
        ensures !Matches(e, c, server)
      {
      }
    }
  }

  /** Granting the wildcard adds nothing for a server that has any entry; granting a named type adds it
      exactly when the server does not have it. */
  lemma AddServerAddsIff(acl: seq<Entry>, command: AclCommand, server: string)
    ensures var r := AddServer(acl, command, server);
            r == acl + [Entry(command, server)] <==>
            if command == All then forall e :: e in acl ==> e.server != server else Entry(command, server) !in acl
    ensures var r := AddServer(acl, command, server); r == acl || r == acl + [Entry(command, server)]
  {
    var r := AddServer(acl, command, server);
    if command == All && exists e :: e in acl && e.server == server {
      var e :| e in acl && e.server == server;
      var i :| 0 <= i < |acl| && acl[i] == e;
      assert r == acl;
    }
  }

  // ------------------------------------------------------------------------------------------
  // Convergence
  // ------------------------------------------------------------------------------------------

  predicate DistinctNamed(cmds: seq<CommandValue>) {
    && (forall i :: 0 <= i < |cmds| ==> cmds[i].command != All)
    && (forall i, j :: 0 <= i < j < |cmds| ==> cmds[i].command != cmds[j].command)
  }

  /** No command finds a corresponding entry at its turn. */
  predicate NoHit(acl: seq<Entry>, cmds: seq<CommandValue>, s: Session)
    decreases |cmds|
  {
    cmds == [] || (!Hit(acl, cmds[0], s.server) && NoHit(MergeOne(acl, cmds[0], s), cmds[1..], s))
  }

  /** Entries of the commands that the session may grant. */
  function Granted(cmds: seq<CommandValue>, s: Session): (r: seq<Entry>) {
    if cmds == [] then []
    else (if cmds[0].cert == s.cert then [Entry(cmds[0].command, s.server)] else []) + Granted(cmds[1..], s)
  }

  lemma {:induction false} GrantedElements(cmds: seq<CommandValue>, s: Session)
    ensures forall e :: e in Granted(cmds, s) ==>
              e.server == s.server && exists c :: c in cmds && c.command == e.command
  {
    if cmds != [] {
      GrantedElements(cmds[1..], s);
      assert cmds[0] in cmds;
      forall e | e in Granted(cmds[1..], s)
        ensures exists c :: c in cmds && c.command == e.command
      {
        var c :| c in cmds[1..] && c.command == e.command;
        assert c in cmds;
      }
    }
  }

  lemma PartsDiffer(pre: seq<CommandValue>, c: CommandValue, post: seq<CommandValue>)
    requires DistinctNamed(pre + [c] + post)
    ensures DistinctNamed(pre) && DistinctNamed(post)
    ensures forall p :: p in pre || p in post ==> p.command != c.command
    ensures forall p, q :: p in pre && q in post ==> p.command != q.command
  {
    var all := pre + [c] + post;
    assert all[|pre|] == c;
    assert forall i :: 0 <= i < |pre| ==> all[i] == pre[i];
    assert forall i :: 0 <= i < |post| ==> all[|pre| + 1 + i] == post[i];
  }

  lemma {:induction false} MergeConcat(acl: seq<Entry>, a: seq<CommandValue>, b: seq<CommandValue>, s: Session)
    ensures Merge(acl, a + b, s) == Merge(Merge(acl, a, s), b, s)
    decreases |a|
  {
    if a == [] {
      assert a + b == b;
    } else {
      assert (a + b)[1..] == a[1..] + b;
      MergeConcat(MergeOne(acl, a[0], s), a[1..], b, s);
    }
  }

  lemma MergeAppend(acl: seq<Entry>, cmds: seq<CommandValue>, c: CommandValue, s: Session)
    ensures Merge(acl, cmds + [c], s) == MergeOne(Merge(acl, cmds, s), c, s)
  {
    MergeConcat(acl, cmds, [c], s);
    assert [c][1..] == [];
  }

  lemma MergeThrough(acl: seq<Entry>, pre: seq<CommandValue>, c: CommandValue, post: seq<CommandValue>, s: Session)
    ensures Merge(acl, pre + [c] + post, s) == Merge(MergeOne(Merge(acl, pre, s), c, s), post, s)
  {
    MergeConcat(acl, pre + [c], post, s);
    MergeAppend(acl, pre, c, s);
  }

  lemma MergeOneMore(acl: seq<Entry>, cmds: seq<CommandValue>, i: nat, s: Session)
    requires i < |cmds|
    ensures Merge(acl, cmds[..i + 1], s) == MergeOne(Merge(acl, cmds[..i], s), cmds[i], s)
  {
    SplitAt(cmds, i);
    MergeAppend(acl, cmds[..i], cmds[i], s);
  }

  lemma MissAppends(acl: seq<Entry>, c: CommandValue, s: Session)
    requires c.command != All
    requires !Hit(acl, c, s.server)
    ensures MergeOne(acl, c, s) == acl + (if c.cert == s.cert then [Entry(c.command, s.server)] else [])
  {
    assert forall i :: 0 <= i < |acl| ==> !Matches(acl[i], c, s.server);
  }

  /** Without a hit every authorised command is appended. */
  lemma {:induction false} MergeWithoutHit(acl: seq<Entry>, cmds: seq<CommandValue>, s: Session)
    requires DistinctNamed(cmds)
    requires NoHit(acl, cmds, s)
    ensures Merge(acl, cmds, s) == acl + Granted(cmds, s)
    decreases |cmds|
  {
    if cmds != [] {
      MissAppends(acl, cmds[0], s);
      var next := MergeOne(acl, cmds[0], s);
      MergeWithoutHit(next, cmds[1..], s);
      Associate(acl, if cmds[0].cert == s.cert then [Entry(cmds[0].command, s.server)] else [], Granted(cmds[1..], s));
    }
  }

  /** A run of commands none of which corresponds to an entry of `acl` has no hit: what the run
      itself appends has other types. */
  lemma {:induction false} NoMatchNoHit(acl: seq<Entry>, cmds: seq<CommandValue>, s: Session)
    requires DistinctNamed(cmds)
    requires forall e, c :: e in acl && c in cmds ==> !Matches(e, c, s.server)
    ensures NoHit(acl, cmds, s)
    decreases |cmds|
  {
    if cmds != [] {
      assert cmds[0] in cmds;
      assert !Hit(acl, cmds[0], s.server);
      var next := MergeOne(acl, cmds[0], s);
      forall e, c | e in next && c in cmds[1..]
        ensures !Matches(e, c, s.server)
      {
        assert c in cmds;
        if e !in acl {
          assert e == Entry(cmds[0].command, s.server);
        }
      }
      NoMatchNoHit(next, cmds[1..], s);
    }
  }

  /** Splits a run that has a hit at its last one. */
  lemma {:induction false} LastHit(acl: seq<Entry>, cmds: seq<CommandValue>, s: Session) returns (k: nat)
    requires !NoHit(acl, cmds, s)
    ensures k < |cmds|
    ensures Hit(Merge(acl, cmds[..k], s), cmds[k], s.server)
    ensures NoHit(Merge(acl, cmds[..k + 1], s), cmds[k + 1..], s)
    decreases |cmds|
  {
    hide MergeOne;
    hide Hit;
    var next := MergeOne(acl, cmds[0], s);
    if NoHit(next, cmds[1..], s) {
      k := 0;
      assert cmds[..1] == [cmds[0]];
      assert Merge(acl, [cmds[0]], s) == next;
    } else {
      var k' := LastHit(next, cmds[1..], s);
      k := k' + 1;
      assert cmds[..k][1..] == cmds[1..][..k'];
      assert cmds[..k + 1][1..] == cmds[1..][..k' + 1];
      assert cmds[k + 1..] == cmds[1..][k' + 1..];
    }
  }

  /** A (type, server) entry that is absent stays absent while only other types are merged. */
  lemma {:induction false} NoNewType(acl: seq<Entry>, cmds: seq<CommandValue>, s: Session, t: AclCommand)
    requires Entry(t, s.server) !in acl
    requires forall c :: c in cmds ==> c.command != t
    ensures Entry(t, s.server) !in Merge(acl, cmds, s)
    decreases |cmds|
  {
    if cmds != [] {
      assert cmds[0] in cmds;
      if Entry(t, s.server) in MergeOne(acl, cmds[0], s) {
        AddedByOne(acl, cmds[0], s, Entry(t, s.server));
      }
      NoNewType(MergeOne(acl, cmds[0], s), cmds[1..], s, t);
    }
  }

  lemma HitClears(acl: seq<Entry>, c: CommandValue, s: Session, t: AclCommand)
    requires Hit(acl, c, s.server) && c.command != t
    ensures Entry(t, s.server) !in MergeOne(acl, c, s)
  {
    KeepOnlyFrame(acl, FindFirst(acl, c, s.server), s.server);
  }

  lemma MatchClears(acl: seq<Entry>, c: CommandValue, s: Session, t: AclCommand, e: Entry)
    requires e in Others(acl, s.server) && Matches(e, c, s.server) && c.command != t
    ensures Entry(t, s.server) !in MergeOne(acl, c, s)
  {
    OthersElements(acl, s.server);
    assert FindFirst(acl, c, s.server) >= 0;
    HitClears(acl, c, s, t);
  }

  /** If some command of the run corresponds to another server's entry, the run leaves no entry of
      the session's server whose type is foreign to the rest of the run. */
  lemma ForeignMatchClears(
    acl: seq<Entry>, pre: seq<CommandValue>, c: CommandValue, post: seq<CommandValue>, s: Session, t: AclCommand,
    e: Entry)
    requires e in Others(acl, s.server) && Matches(e, c, s.server) && c.command != t
    requires forall q :: q in post ==> q.command != t
    ensures Entry(t, s.server) !in Merge(acl, pre + [c] + post, s)
  {
    OthersKept(acl, pre, s);
    MergeThrough(acl, pre, c, post, s);
    MatchClears(Merge(acl, pre, s), c, s, t, e);
    NoNewType(MergeOne(Merge(acl, pre, s), c, s), post, s, t);
  }

  /** An ACL made of other servers' entries followed by entries of the session's server keeps that
      shape. */
  lemma {:induction false} ShapeKept(o: seq<Entry>, x: seq<Entry>, cmds: seq<CommandValue>, s: Session)
    returns (y: seq<Entry>)
    requires forall e :: e in o ==> e.server != s.server
    requires forall e :: e in x ==> e.server == s.server
    ensures Merge(o + x, cmds, s) == o + y
    ensures forall e :: e in y ==> e.server == s.server
    decreases |cmds|
  {
    if cmds == [] {
      y := x;
    } else {
      var acl := o + x;
      var j := FindFirst(acl, cmds[0], s.server);
      var next: seq<Entry>;
      if j < 0 {
        next := if MergeOne(acl, cmds[0], s) == acl then x else x + [Entry(cmds[0].command, s.server)];
      } else if j < |o| {
        KeepInOthers(o, x, j, s.server);
        next := [];
      } else {
        KeepInTail(o, x, j - |o|, s.server);
        next := [x[j - |o|]];
      }
      assert MergeOne(acl, cmds[0], s) == o + next;
      y := ShapeKept(o, next, cmds[1..], s);
    }
  }

  lemma SliceLeft<T>(a: seq<T>, b: seq<T>, j: nat)
    requires j < |a|
    ensures (a + b)[..j] == a[..j] && (a + b)[j] == a[j] && (a + b)[j + 1..] == a[j + 1..] + b
    ensures a == a[..j] + [a[j]] + (a[j + 1..] + [])
  {
  }

  lemma SliceRight<T>(a: seq<T>, b: seq<T>, j: nat)
    requires j < |b|
    ensures (a + b)[..|a| + j] == a + b[..j] && (a + b)[|a| + j] == b[j] && (a + b)[|a| + j + 1..] == b[j + 1..]
  {
  }

  lemma KeepInOthers(o: seq<Entry>, x: seq<Entry>, j: nat, server: string)
    requires j < |o|
    requires forall e :: e in o ==> e.server != server
    requires forall e :: e in x ==> e.server == server
    ensures KeepOnly(o + x, j, server) == o
  {
    hide Others;
    SliceLeft(o, x, j);
    OthersFixed(o[..j], server);
    OthersOfConcat(o[j + 1..], x, server);
    OthersFixed(o[j + 1..], server);
    OthersNone(x, server);
  }

  lemma KeepInTail(o: seq<Entry>, x: seq<Entry>, j: nat, server: string)
    requires j < |x|
    requires forall e :: e in o ==> e.server != server
    requires forall e :: e in x ==> e.server == server
    ensures KeepOnly(o + x, |o| + j, server) == o + [x[j]]
  {
    hide Others;
    SliceRight(o, x, j);
    OthersOfConcat(o, x[..j], server);
    OthersFixed(o, server);
    OthersNone(x[..j], server);
    OthersNone(x[j + 1..], server);
  }

  lemma {:induction false} FindFirstAt(acl: seq<Entry>, c: CommandValue, server: string, j: nat)
    requires j < |acl| && Matches(acl[j], c, server)
    requires forall i :: 0 <= i < j ==> !Matches(acl[i], c, server)
    ensures FindFirst(acl, c, server) == j
  {
    assert FindFirst(acl, c, server) >= 0;
  }

  lemma KeepAt(a: seq<Entry>, e: Entry, b: seq<Entry>, server: string)
    ensures KeepOnly(a + [e] + b, |a|, server) == Others(a, server) + [e] + Others(b, server)
  {
    var acl := a + [e] + b;
    assert acl[..|a|] == a && acl[|a|] == e && acl[|a| + 1..] == b;
  }

  /** The kept entry is the first corresponding entry of what is left, and what follows it can be
      replaced by any entries of the session's server without changing what is kept. */
  lemma KeepAgain(acl: seq<Entry>, c: CommandValue, server: string, x: seq<Entry>)
    requires Hit(acl, c, server)
    requires forall e :: e in x ==> e.server == server
    ensures var m := KeepOnly(acl, FindFirst(acl, c, server), server);
            Hit(m + x, c, server) && KeepOnly(m + x, FindFirst(m + x, c, server), server) == m
  {
    var j := FindFirst(acl, c, server);
    var a, b := Others(acl[..j], server), Others(acl[j + 1..], server);
    var m := KeepOnly(acl, j, server);
    var all := a + [acl[j]] + (b + x);
    assert m + x == all;
    assert FindFirst(all, c, server) == |a| by {
      OthersElements(acl[..j], server);
      assert forall i :: 0 <= i < |a| ==> all[i] == a[i] && a[i] in a && a[i] in acl[..j];
      FindFirstAt(all, c, server, |a|);
    }
    KeepAt(a, acl[j], b + x, server);
    OthersTwice(acl[..j], server);
    OthersOfConcat(b, x, server);
    OthersTwice(acl[j + 1..], server);
    OthersNone(x, server);
  }

  /** Before the command that hits last, the second run hits nothing when the kept entry is the
      session server's own. */
  lemma SecondRunPrefixMisses(
    acl: seq<Entry>, pre: seq<CommandValue>, c: CommandValue, post: seq<CommandValue>, s: Session)
    requires DistinctNamed(pre) && forall p :: p in pre ==> p.command != c.command
    requires forall p, q :: p in pre && q in post ==> p.command != q.command
    requires Hit(Merge(acl, pre, s), c, s.server)
    requires Merge(acl, pre, s)[FindFirst(Merge(acl, pre, s), c, s.server)].server == s.server
    ensures NoHit(MergeOne(Merge(acl, pre, s), c, s) + Granted(post, s), pre, s)
  {
    var before := Merge(acl, pre, s);
    var m, g := MergeOne(before, c, s), Granted(post, s);
    GrantedElements(post, s);
    forall e, p | e in m + g && p in pre
      ensures !Matches(e, p, s.server)
    {
      if e in g {
        var q :| q in post && q.command == e.command;
      } else {
        KeptMatchesNoEarlier(acl, pre, c, s, e, p);
      }
    }
    NoMatchNoHit(m + g, pre, s);
  }

  /** What the last hit keeps corresponds to no earlier command: the kept entry has another type,
      and a match with another server's entry would have removed the kept one. */
  lemma KeptMatchesNoEarlier(
    acl: seq<Entry>, pre: seq<CommandValue>, c: CommandValue, s: Session, e: Entry, p: CommandValue)
    requires Hit(Merge(acl, pre, s), c, s.server)
    requires Merge(acl, pre, s)[FindFirst(Merge(acl, pre, s), c, s.server)].server == s.server
    requires e in MergeOne(Merge(acl, pre, s), c, s) && p in pre
    requires forall q :: q in pre ==> q.command != c.command
    ensures !Matches(e, p, s.server)
  {
    var before := Merge(acl, pre, s);
    var j := FindFirst(before, c, s.server);
    KeepOnlyFrame(before, j, s.server);
    if e.server == s.server {
      assert e == before[j];
    } else if Matches(e, p, s.server) {
      OthersElements(before, s.server);
      OthersKept(acl, pre, s);
      var i :| 0 <= i < |pre| && pre[i] == p;
      SplitAt(pre, i);
      assert before[j] == Entry(c.command, s.server);
      ForeignMatchClears(acl, pre[..i], p, pre[i + 1..], s, c.command, e);
      assert false;
    }
  }

  /** The second run, up to the command that hits last, leaves what that command kept, followed by
      entries of the session's server only. */
  lemma SecondRunPrefix(
    acl: seq<Entry>, pre: seq<CommandValue>, c: CommandValue, post: seq<CommandValue>, s: Session)
    returns (x: seq<Entry>)
    requires DistinctNamed(pre) && forall p :: p in pre ==> p.command != c.command
    requires forall p, q :: p in pre && q in post ==> p.command != q.command
    requires Hit(Merge(acl, pre, s), c, s.server)
    ensures var m := MergeOne(Merge(acl, pre, s), c, s);
            Merge(m + Granted(post, s), pre, s) == m + x
    ensures forall e :: e in x ==> e.server == s.server
  {
    var before := Merge(acl, pre, s);
    var j := FindFirst(before, c, s.server);
    var m := MergeOne(before, c, s);
    var g := Granted(post, s);
    if before[j].server == s.server {
      SecondRunPrefixMisses(acl, pre, c, post, s);
      MergeWithoutHit(m + g, pre, s);
      GrantedElements(post, s);
      GrantedElements(pre, s);
      Associate(m, g, Granted(pre, s));
      x := g + Granted(pre, s);
    } else {
      GrantedElements(post, s);
      OthersElements(m, s.server);
      KeepOnlyFrame(before, j, s.server);
      x := ShapeKept(m, g, pre, s);
    }
  }

  lemma StableSplit(
    acl: seq<Entry>, pre: seq<CommandValue>, c: CommandValue, post: seq<CommandValue>, s: Session)
    requires DistinctNamed(pre + [c] + post)
    requires Hit(Merge(acl, pre, s), c, s.server)
    requires NoHit(MergeOne(Merge(acl, pre, s), c, s), post, s)
    ensures var once := Merge(acl, pre + [c] + post, s); Merge(once, pre + [c] + post, s) == once
  {
    var m := MergeOne(Merge(acl, pre, s), c, s);
    PartsDiffer(pre, c, post);
    MergeThrough(acl, pre, c, post, s);
    MergeWithoutHit(m, post, s);
    var once := m + Granted(post, s);
    var x := SecondRunPrefix(acl, pre, c, post, s);
    KeepAgain(Merge(acl, pre, s), c, s.server, x);
    MergeThrough(once, pre, c, post, s);
  }

  /** Once a run has hit, running again changes nothing. */
  lemma {:induction false} StableAfterHit(acl: seq<Entry>, cmds: seq<CommandValue>, s: Session)
    requires DistinctNamed(cmds)
    requires !NoHit(acl, cmds, s)
    ensures Merge(Merge(acl, cmds, s), cmds, s) == Merge(acl, cmds, s)
  {
    var k := LastHit(acl, cmds, s);
    var pre, c, post := cmds[..k], cmds[k], cmds[k + 1..];
    SplitAt(cmds, k);
    MergeOneMore(acl, cmds, k, s);
    StableSplit(acl, pre, c, post, s);
  }

  /** With distinct named command types, two runs reach a fixpoint: the third changes nothing.
      Nothing is assumed of the certificates or of the entries. */
  lemma {:induction false} MergeConverges(acl: seq<Entry>, cmds: seq<CommandValue>, s: Session)
    requires DistinctNamed(cmds)
    ensures var twice := Merge(Merge(acl, cmds, s), cmds, s); Merge(twice, cmds, s) == twice
  {
    var once := Merge(acl, cmds, s);
    if !NoHit(acl, cmds, s) {
      StableAfterHit(acl, cmds, s);
    } else if !NoHit(once, cmds, s) {
      StableAfterHit(once, cmds, s);
    } else {
      MergeWithoutHit(acl, cmds, s);
      MergeWithoutHit(once, cmds, s);
      var g := Granted(cmds, s);
      if g != [] {
        GrantedElements(cmds, s);
        GrantedIsHit(acl + g, cmds, s, g[0]);
        assert false;
      }
      assert once == acl && Merge(once, cmds, s) == once;
    }
  }

  /** An entry that grants a command of the run to the session's server is hit or removed by an
      earlier hit. */
  lemma {:induction false} GrantedIsHit(acl: seq<Entry>, cmds: seq<CommandValue>, s: Session, e: Entry)
    requires e in acl && e.server == s.server
    requires exists c :: c in cmds && c.command == e.command
    ensures !NoHit(acl, cmds, s)
    decreases |cmds|
  {
    if !Hit(acl, cmds[0], s.server) {
      assert cmds[0].command != e.command;
      var c :| c in cmds && c.command == e.command;
      assert c in cmds[1..];
      GrantedIsHit(MergeOne(acl, cmds[0], s), cmds[1..], s, e);
    }
  }

  // ------------------------------------------------------------------------------------------
  // When one run is enough
  // ------------------------------------------------------------------------------------------

  /** A run with a hit leaves no entry of the session's server whose type is foreign to the run. */
  lemma HitClearsForeign(acl: seq<Entry>, cmds: seq<CommandValue>, s: Session, t: AclCommand)
    requires !NoHit(acl, cmds, s)
    requires forall c :: c in cmds ==> c.command != t
    ensures Entry(t, s.server) !in Merge(acl, cmds, s)
  {
    var k := LastHit(acl, cmds, s);
    SplitAt(cmds, k);
    var before, c := Merge(acl, cmds[..k], s), cmds[k];
    assert c in cmds;
    HitClears(before, c, s, t);
    MergeThrough(acl, cmds[..k], c, cmds[k + 1..], s);
    NoNewType(MergeOne(before, c, s), cmds[k + 1..], s, t);
  }

  /** In a run without a hit no command corresponds to an entry. */
  lemma {:induction false} NoHitNoMatch(acl: seq<Entry>, cmds: seq<CommandValue>, s: Session, e: Entry, c: CommandValue)
    requires DistinctNamed(cmds)
    requires NoHit(acl, cmds, s)
    requires e in acl && c in cmds
    ensures !Matches(e, c, s.server)
    decreases |cmds|
  {
    if c != cmds[0] {
      assert c in cmds[1..];
      MissAppends(acl, cmds[0], s);
      NoHitNoMatch(MergeOne(acl, cmds[0], s), cmds[1..], s, e, c);
    }
  }

  lemma {:induction false} FirstGranted(cmds: seq<CommandValue>, s: Session) returns (k: nat)
    requires Granted(cmds, s) != []
    ensures k < |cmds| && cmds[k].cert == s.cert
    ensures Granted(cmds[..k], s) == []
    ensures Granted(cmds, s) == [Entry(cmds[k].command, s.server)] + Granted(cmds[k + 1..], s)
  {
    if cmds[0].cert == s.cert {
      k := 0;
    } else {
      var k' := FirstGranted(cmds[1..], s);
      k := k' + 1;
      assert cmds[..k][1..] == cmds[1..][..k'];
      assert cmds[k + 1..] == cmds[1..][k' + 1..];
    }
  }

  /** Merging commands of other types, none of which corresponds to an old entry, after entries
      granted to the session's server. */
  lemma MergeBeside(acl: seq<Entry>, g: seq<Entry>, cmds: seq<CommandValue>, s: Session)
    requires DistinctNamed(cmds)
    requires forall e, d :: e in acl && d in cmds ==> !Matches(e, d, s.server)
    requires forall e :: e in g ==> e.server == s.server && forall d :: d in cmds ==> d.command != e.command
    ensures Merge(acl + g, cmds, s) == acl + (g + Granted(cmds, s))
  {
    NoMatchNoHit(acl + g, cmds, s);
    MergeWithoutHit(acl + g, cmds, s);
    Associate(acl, g, Granted(cmds, s));
  }

  /** The first granted command finds the server's first entry and drops the others. */
  lemma FirstEntryIsKept(acl: seq<Entry>, c: CommandValue, more: seq<Entry>, s: Session)
    requires forall e :: e in acl ==> !Matches(e, c, s.server) && e.server != s.server
    requires forall e :: e in more ==> e.server == s.server
    ensures var e0 := Entry(c.command, s.server); MergeOne(acl + ([e0] + more), c, s) == acl + [e0]
  {
    var g := [Entry(c.command, s.server)] + more;
    assert (acl + g)[|acl|] == g[0];
    FindFirstAt(acl + g, c, s.server, |acl|);
    KeepInTail(acl, g, 0, s.server);
  }

  /** A server that had no entry gets its granted entries and keeps them, in the same order. */
  lemma NewServerStable(
    acl: seq<Entry>, pre: seq<CommandValue>, c: CommandValue, post: seq<CommandValue>, s: Session)
    requires DistinctNamed(pre + [c] + post)
    requires forall e, d :: e in acl && (d in pre || d == c || d in post) ==> !Matches(e, d, s.server)
    requires forall e :: e in acl ==> e.server != s.server
    requires Granted(pre, s) == []
    ensures var g := [Entry(c.command, s.server)] + Granted(post, s);
            Merge(acl + g, pre + [c] + post, s) == acl + g
  {
    PartsDiffer(pre, c, post);
    var e0 := Entry(c.command, s.server);
    var more := Granted(post, s);
    GrantedElements(post, s);
    MergeBeside(acl, [e0] + more, pre, s);
    assert [e0] + more + [] == [e0] + more;
    FirstEntryIsKept(acl, c, more, s);
    MergeThrough(acl + ([e0] + more), pre, c, post, s);
    MergeBeside(acl, [e0], post, s);
  }

  lemma NewServerOneRun(acl: seq<Entry>, cmds: seq<CommandValue>, s: Session)
    requires DistinctNamed(cmds) && NoHit(acl, cmds, s) && Granted(cmds, s) != []
    requires forall e :: e in acl ==> e.server != s.server
    ensures Merge(acl + Granted(cmds, s), cmds, s) == acl + Granted(cmds, s)
  {
    forall e, d | e in acl && d in cmds
      ensures !Matches(e, d, s.server)
    {
      NoHitNoMatch(acl, cmds, s, e, d);
    }
    var k := FirstGranted(cmds, s);
    SplitAt(cmds, k);
    NewServerStable(acl, cmds[..k], cmds[k], cmds[k + 1..], s);
  }

  /** An old entry of another type is in the ACL after the first run, but not after the second. */
  lemma OldEntryIsDropped(acl: seq<Entry>, cmds: seq<CommandValue>, s: Session, e: Entry)
    requires DistinctNamed(cmds) && NoHit(acl, cmds, s) && Granted(cmds, s) != []
    requires e in acl && e.server == s.server
    ensures Merge(acl + Granted(cmds, s), cmds, s) != acl + Granted(cmds, s)
  {
    var g := Granted(cmds, s);
    forall c | c in cmds
      ensures c.command != e.command
    {
      NoHitNoMatch(acl, cmds, s, e, c);
    }
    GrantedElements(cmds, s);
    GrantedIsHit(acl + g, cmds, s, g[0]);
    HitClearsForeign(acl + g, cmds, s, e.command);
    assert e == Entry(e.command, s.server) && e in acl + g;
  }

  /** Exactly when a single run is already a fixpoint: some command found a corresponding entry,
      or nothing was granted, or the session's server had no entry before.  In the remaining case
      the second run drops the server's old entries of other types. */
  lemma OneRunIsEnoughIff(acl: seq<Entry>, cmds: seq<CommandValue>, s: Session)
    requires DistinctNamed(cmds)
    ensures (var once := Merge(acl, cmds, s); Merge(once, cmds, s) == once) <==>
            (!NoHit(acl, cmds, s) || Granted(cmds, s) == [] || forall e :: e in acl ==> e.server != s.server)
  {
    if !NoHit(acl, cmds, s) {
      StableAfterHit(acl, cmds, s);
    } else {
      MergeWithoutHit(acl, cmds, s);
      if Granted(cmds, s) == [] {
        assert acl + [] == acl;
      } else if forall e :: e in acl ==> e.server != s.server {
        NewServerOneRun(acl, cmds, s);
      } else {
        var e :| e in acl && e.server == s.server;
        OldEntryIsDropped(acl, cmds, s, e);
      }
    }
  }

  // ------------------------------------------------------------------------------------------
  // Without distinct types the merge need not converge
  // ------------------------------------------------------------------------------------------

  /** Nine commands over three types, no two of them equal in both type and certificate, so that
      a client can store them one by one.  The session's certificate is `"0"`. */
  function OscillatingCommands(): seq<CommandValue> {
    [ Signed("1", Add), Signed("1", Get), Signed("0", Delete), Signed("2", Get), Signed("1", Delete),
      Signed("0", Add), Signed("2", Delete), Signed("2", Add), Signed("0", Get) ]
  }

  function Signed(serial: Field, command: AclCommand): CommandValue {
    CommandValue(EMPTY_CERT.(serialNo := serial), command)
  }

  const OSCILLATING_SESSION: Session := Session("s", EMPTY_CERT.(serialNo := "0"))

  /** Two entries of the session's server, or one when both types are the same. */
  function Own(x: AclCommand, y: AclCommand): seq<Entry> {
    if x == y then [Entry(x, "s")] else [Entry(x, "s"), Entry(y, "s")]
  }

  lemma OwnHit(x: AclCommand, y: AclCommand, serial: Field, z: AclCommand)
    requires z == x || z == y
    ensures MergeOne(Own(x, y), Signed(serial, z), OSCILLATING_SESSION) == Own(z, z)
  {
    var c, acl := Signed(serial, z), Own(x, y);
    if z == x {
      assert FindFirst(acl, c, "s") == 0;
      assert acl == [] + [Entry(z, "s")] + acl[1..];
      KeepAt([], Entry(z, "s"), acl[1..], "s");
      OthersNone(acl[1..], "s");
    } else {
      FindFirstAt(acl, c, "s", 1);
      assert acl == [Entry(x, "s")] + [Entry(z, "s")] + [];
      KeepAt([Entry(x, "s")], Entry(z, "s"), [], "s");
      OthersNone([Entry(x, "s")], "s");
    }
  }

  lemma OwnMiss(x: AclCommand, y: AclCommand, serial: Field, z: AclCommand)
    requires serial != "" && z != All && z != x && z != y
    ensures var r := MergeOne(Own(x, y), Signed(serial, z), OSCILLATING_SESSION);
            if serial != "0" then r == Own(x, y) else x == y ==> r == Own(x, z)
  {
    var c := Signed(serial, z);
    assert c.cert.serialNo == serial;
    assert c.cert == OSCILLATING_SESSION.cert ==> serial == "0";
    MissAppends(Own(x, y), c, OSCILLATING_SESSION);
  }

  /** One merge step between lists of at most two entries. */
  predicate OwnStep(x: AclCommand, y: AclCommand, c: CommandValue, x': AclCommand, y': AclCommand) {
    && c == Signed(c.cert.serialNo, c.command) && c.cert.serialNo != "" && c.command != All
    && if c.command == x || c.command == y then x' == y' == c.command
       else if c.cert.serialNo != "0" then x' == x && y' == y
       else x == y == x' && y' == c.command
  }

  lemma OwnStepMerges(x: AclCommand, y: AclCommand, c: CommandValue, x': AclCommand, y': AclCommand)
    requires OwnStep(x, y, c, x', y')
    ensures MergeOne(Own(x, y), c, OSCILLATING_SESSION) == Own(x', y')
  {
    if c.command == x || c.command == y {
      OwnHit(x, y, c.cert.serialNo, c.command);
    } else {
      OwnMiss(x, y, c.cert.serialNo, c.command);
    }
  }

  lemma {:induction false} OwnTrace(xs: seq<AclCommand>, ys: seq<AclCommand>, cmds: seq<CommandValue>)
    requires |xs| == |ys| == |cmds| + 1
    requires forall i :: 0 <= i < |cmds| ==> OwnStep(xs[i], ys[i], cmds[i], xs[i + 1], ys[i + 1])
    ensures Merge(Own(xs[0], ys[0]), cmds, OSCILLATING_SESSION) == Own(xs[|cmds|], ys[|cmds|])
  {
    if cmds != [] {
      OwnStepMerges(xs[0], ys[0], cmds[0], xs[1], ys[1]);
      OwnTrace(xs[1..], ys[1..], cmds[1..]);
    }
  }

  lemma OscillatesThere()
    ensures Merge(Own(Delete, Get), OscillatingCommands(), OSCILLATING_SESSION) == Own(Add, Get)
  {
    OwnTrace([Delete, Delete, Get, Get, Get, Get, Get, Get, Add, Add],
             [Get, Get, Get, Delete, Get, Get, Add, Add, Add, Get], OscillatingCommands());
  }

  lemma OscillatesBack()
    ensures Merge(Own(Add, Get), OscillatingCommands(), OSCILLATING_SESSION) == Own(Delete, Get)
  {
    OwnTrace([Add, Add, Add, Add, Add, Delete, Delete, Delete, Delete, Delete],
             [Get, Add, Add, Delete, Delete, Delete, Add, Delete, Delete, Get], OscillatingCommands());
  }

  lemma SerialsDiffer()
    ensures forall i, j :: 0 <= i < j < |OscillatingCommands()| ==> OscillatingCommands()[i] != OscillatingCommands()[j]
  {
    var cs := OscillatingCommands();
    assert forall i :: 0 <= i < |cs| ==> cs[i] == Signed(cs[i].cert.serialNo, cs[i].command);
    forall i, j | 0 <= i < j < |cs|
      ensures cs[i] != cs[j]
    {
      assert cs[i].command != cs[j].command || cs[i].cert.serialNo[0] != cs[j].cert.serialNo[0];
    }
  }

  /** Merging them alternates between two different ACLs for ever, so distinct types are needed
      for convergence. */
  lemma MergeOscillates()
    ensures exists a, b :: a != b
              && Merge(a, OscillatingCommands(), OSCILLATING_SESSION) == b
              && Merge(b, OscillatingCommands(), OSCILLATING_SESSION) == a
    ensures forall i, j :: 0 <= i < j < |OscillatingCommands()| ==> OscillatingCommands()[i] != OscillatingCommands()[j]
  {
    SerialsDiffer();
    OscillatesThere();
    OscillatesBack();
    assert Own(Add, Get)[0] != Own(Delete, Get)[0];
  }
}
