/** The files behind the ACL storage and the crash-recovering save. */
module AclFiles {
  import opened Common
  import opened AclTypes

  datatype FileName = StorageFile | TempFile | BackupFile

  /** Contents of the files that exist. */
  type Files = map<FileName, string>

  /** The file operations; a process can die before any of them, and each is atomic. */
  datatype FileOp =
    | OpenOrCreate(name: FileName)
    | Write(name: FileName, pos: nat, data: string)
    | SetSize(name: FileName, size: nat)
    | Rename(from: FileName, to: FileName)
    | Erase(name: FileName)

  /** `data` written over `content` at `pos`, which must not lie beyond the end. */
  function Overwrite(content: string, pos: nat, data: string): (r: string)
    requires pos <= |content|
  {
    content[..pos] + data + (if pos + |data| < |content| then content[pos + |data|..] else "")
  }

  function Resize(content: string, size: nat): string {
    if size <= |content| then content[..size] else content + seq(size - |content|, _ => 0 as char)
  }

  /** The effect of one operation; an operation on a missing file has none. */
  function Apply(fs: Files, op: FileOp): Files {
    match op
    case OpenOrCreate(f) => if f in fs then fs else fs[f := ""]
    case Write(f, pos, data) => if f in fs && pos <= |fs[f]| then fs[f := Overwrite(fs[f], pos, data)] else fs
    case SetSize(f, size) => if f in fs then fs[f := Resize(fs[f], size)] else fs
    case Rename(from, to) => if from in fs then (fs - {from})[to := fs[from]] else fs
    case Erase(f) => fs - {f}
  }

  function Run(fs: Files, ops: seq<FileOp>): Files
    decreases |ops|
  {
    if ops == [] then fs else Run(Apply(fs, ops[0]), ops[1..])
  }

  lemma {:induction false} RunConcat(fs: Files, a: seq<FileOp>, b: seq<FileOp>)
    ensures Run(fs, a + b) == Run(Run(fs, a), b)
    decreases |a|
  {
    if a == [] {
      assert a + b == b;
    } else {
      assert (a + b)[1..] == a[1..] + b;
      RunConcat(Apply(fs, a[0]), a[1..], b);
    }
  }

  lemma RunAppend(fs: Files, a: seq<FileOp>, op: FileOp)
    ensures Run(fs, a + [op]) == Apply(Run(fs, a), op)
  {
    RunConcat(fs, a, [op]);
    assert [op][1..] == [];
  }

  // ------------------------------------------------------------------------------------------
  // The save
  // ------------------------------------------------------------------------------------------

  /** What a sequence of consecutive writes amounts to. */
  function Join(chunks: seq<string>): string {
    if chunks == [] then "" else chunks[0] + Join(chunks[1..])
  }

  /** One write per chunk, at the running position. */
  function WriteOps(chunks: seq<string>, pos: nat): (ops: seq<FileOp>)
    ensures |ops| == |chunks|
  {
    if chunks == [] then []
    else [Write(TempFile, pos, chunks[0])] + WriteOps(chunks[1..], pos + |chunks[0]|)
  }

  function FillOps(chunks: seq<string>): seq<FileOp> {
    [OpenOrCreate(TempFile)] + WriteOps(chunks, 0) + [SetSize(TempFile, |Join(chunks)|)]
  }

  function SwitchOps(hadStorage: bool): seq<FileOp> {
    if hadStorage
    then [Rename(StorageFile, BackupFile), Rename(TempFile, StorageFile), Erase(BackupFile)]
    else [Rename(TempFile, StorageFile)]
  }

  /** All operations of one save, in order. */
  function SaveOps(chunks: seq<string>, hadStorage: bool): seq<FileOp> {
    FillOps(chunks) + SwitchOps(hadStorage)
  }

  /** The files as the loader leaves them before it reads: a backup replaces the storage file. */
  function Restored(fs: Files): Files {
    Apply(fs, Rename(BackupFile, StorageFile))
  }

  /** The bytes that loading reads, if there is a file to read. */
  function Recover(fs: Files): Option<string> {
    var fs' := Restored(fs);
    if StorageFile in fs' then Some(fs'[StorageFile]) else None
  }

  // ------------------------------------------------------------------------------------------
  // Filling the temporary file
  // ------------------------------------------------------------------------------------------

  predicate TouchesTempOnly(op: FileOp) {
    match op
    case OpenOrCreate(f) => f == TempFile
    case Write(f, _, _) => f == TempFile
    case SetSize(f, _) => f == TempFile
    case Rename(_, _) => false
    case Erase(_) => false
  }

  lemma {:induction false} TempOnlyFrame(fs: Files, ops: seq<FileOp>)
    requires forall i :: 0 <= i < |ops| ==> TouchesTempOnly(ops[i])
    ensures Run(fs, ops) - {TempFile} == fs - {TempFile}
    decreases |ops|
  {
    if ops != [] {
      assert TouchesTempOnly(ops[0]);
      assert Apply(fs, ops[0]) - {TempFile} == fs - {TempFile};
      TempOnlyFrame(Apply(fs, ops[0]), ops[1..]);
    }
  }

  lemma {:induction false} WriteOpsTempOnly(chunks: seq<string>, pos: nat)
    ensures forall i :: 0 <= i < |chunks| ==> TouchesTempOnly(WriteOps(chunks, pos)[i])
  {
    if chunks != [] {
      WriteOpsTempOnly(chunks[1..], pos + |chunks[0]|);
    }
  }

  lemma FillTempOnly(chunks: seq<string>)
    ensures forall i :: 0 <= i < |FillOps(chunks)| ==> TouchesTempOnly(FillOps(chunks)[i])
  {
    WriteOpsTempOnly(chunks, 0);
  }

  lemma OverwriteTwice(content: string, pos: nat, a: string, b: string)
    requires pos <= |content|
    ensures var once := Overwrite(content, pos, a);
            pos + |a| <= |once| && Overwrite(once, pos + |a|, b) == Overwrite(content, pos, a + b)
  {
  }

  /** The writes put the joined chunks at `pos`; whatever else the file held stays around them. */
  lemma {:induction false} WriteOpsEffect(fs: Files, chunks: seq<string>, pos: nat)
    requires TempFile in fs && pos <= |fs[TempFile]|
    ensures Run(fs, WriteOps(chunks, pos)) == fs[TempFile := Overwrite(fs[TempFile], pos, Join(chunks))]
    decreases |chunks|
  {
    if chunks == [] {
      assert Overwrite(fs[TempFile], pos, "") == fs[TempFile];
    } else {
      OverwriteTwice(fs[TempFile], pos, chunks[0], Join(chunks[1..]));
      WriteOpsEffect(Apply(fs, Write(TempFile, pos, chunks[0])), chunks[1..], pos + |chunks[0]|);
    }
  }

  lemma ResizeToWritten(content: string, data: string)
    ensures Resize(Overwrite(content, 0, data), |data|) == data
  {
  }

  /** After the final size change the temporary file holds the new content and nothing else, no
      matter what an earlier crash had left in it. */
  lemma FillEffect(fs: Files, chunks: seq<string>)
    ensures Run(fs, FillOps(chunks)) == fs[TempFile := Join(chunks)]
  {
    var open, writes := OpenOrCreate(TempFile), WriteOps(chunks, 0);
    var start := Apply(fs, open);
    assert ([open] + writes)[1..] == writes;
    WriteOpsEffect(start, chunks, 0);
    RunAppend(fs, [open] + writes, SetSize(TempFile, |Join(chunks)|));
    ResizeToWritten(start[TempFile], Join(chunks));
  }

  // ------------------------------------------------------------------------------------------
  // Crash atomicity of one save
  // ------------------------------------------------------------------------------------------

  lemma RecoverDependsOn(a: Files, b: Files)
    requires a - {TempFile} == b - {TempFile}
    ensures Recover(a) == Recover(b)
  {
    assert forall f :: f != TempFile ==> (f in a <==> f in a - {TempFile});
    assert forall f :: f != TempFile ==> (f in b <==> f in b - {TempFile});
    assert forall f :: f in a && f != TempFile ==> a[f] == (a - {TempFile})[f] == b[f];
  }

  lemma CrashWhileFilling(fs: Files, chunks: seq<string>, hadStorage: bool, k: nat)
    requires k <= |FillOps(chunks)|
    ensures Recover(Run(fs, SaveOps(chunks, hadStorage)[..k])) == Recover(fs)
  {
    FillTempOnly(chunks);
    assert SaveOps(chunks, hadStorage)[..k] == FillOps(chunks)[..k];
    TempOnlyFrame(fs, FillOps(chunks)[..k]);
    RecoverDependsOn(Run(fs, FillOps(chunks)[..k]), fs);
  }

  lemma RunPrefix(fs: Files, ops: seq<FileOp>, k: nat)
    requires k < |ops|
    ensures Run(fs, ops[..k + 1]) == Apply(Run(fs, ops[..k]), ops[k])
  {
    RunAppend(fs, ops[..k], ops[k]);
    assert ops[..k + 1] == ops[..k] + [ops[k]];
  }

  lemma SwitchReplaces(fs: Files, k: nat)
    requires BackupFile !in fs && StorageFile in fs && TempFile in fs && k <= 3
    ensures var after := Run(fs, SwitchOps(true)[..k]);
            && (k == 0 ==> after == fs)
            && (1 <= k <= 2 ==> BackupFile in after && after[BackupFile] == fs[StorageFile])
            && (k == 3 ==> BackupFile !in after && StorageFile in after && after[StorageFile] == fs[TempFile])
  {
    var ops := SwitchOps(true);
    assert ops[..0] == [];
    if k > 0 {
      RunPrefix(fs, ops, 0);
      var r1 := Run(fs, ops[..1]);
      assert r1[BackupFile] == fs[StorageFile] && r1[TempFile] == fs[TempFile];
      if k > 1 {
        RunPrefix(fs, ops, 1);
        var r2 := Run(fs, ops[..2]);
        assert r2[BackupFile] == fs[StorageFile] && r2[StorageFile] == fs[TempFile];
        if k > 2 {
          RunPrefix(fs, ops, 2);
        }
      }
    }
  }

  lemma SwitchInstalls(fs: Files, k: nat)
    requires BackupFile !in fs && StorageFile !in fs && TempFile in fs && k <= 1
    ensures var after := Run(fs, SwitchOps(false)[..k]);
            && (k == 0 ==> after == fs)
            && (k == 1 ==> BackupFile !in after && StorageFile in after && after[StorageFile] == fs[TempFile])
  {
    var ops := SwitchOps(false);
    assert ops[..0] == [];
    if k > 0 {
      RunPrefix(fs, ops, 0);
    }
  }

  lemma CrashWhileSwitching(fs: Files, content: string, k: nat)
    requires BackupFile !in fs
    requires k <= |SwitchOps(StorageFile in fs)|
    ensures var n := |SwitchOps(StorageFile in fs)|;
            var after := Run(fs[TempFile := content], SwitchOps(StorageFile in fs)[..k]);
            && Recover(after) == (if k == n then Some(content) else Recover(fs))
            && (k == n ==> BackupFile !in after && StorageFile in after)
  {
    var filled := fs[TempFile := content];
    RecoverDependsOn(filled, fs);
    if StorageFile in fs {
      SwitchReplaces(filled, k);
    } else {
      SwitchInstalls(filled, k);
    }
  }

  /** Wherever the process dies during a save, loading reads either the content stored before or
      the content being saved; the new content wins exactly when every operation was performed,
      the last one being the deletion of the backup or, when there was no storage file, the rename
      of the temporary file. */
  lemma SaveIsAtomic(fs: Files, chunks: seq<string>, k: nat)
    requires BackupFile !in fs
    requires k <= |SaveOps(chunks, StorageFile in fs)|
    ensures var ops := SaveOps(chunks, StorageFile in fs);
            var after := Run(fs, ops[..k]);
            && Recover(after) == (if k == |ops| then Some(Join(chunks)) else Recover(fs))
            && (k == |ops| ==> BackupFile !in after && StorageFile in after)
            && ops[|ops| - 1] == (if StorageFile in fs then Erase(BackupFile) else Rename(TempFile, StorageFile))
  {
    var hadStorage := StorageFile in fs;
    var fill, switch := FillOps(chunks), SwitchOps(hadStorage);
    if k <= |fill| {
      CrashWhileFilling(fs, chunks, hadStorage, k);
    } else {
      assert SaveOps(chunks, hadStorage)[..k] == fill + switch[..k - |fill|];
      RunConcat(fs, fill, switch[..k - |fill|]);
      FillEffect(fs, chunks);
      CrashWhileSwitching(fs, Join(chunks), k - |fill|);
    }
  }

  lemma RestoreKeeps(fs: Files)
    ensures BackupFile !in Restored(fs)
    ensures Recover(Restored(fs)) == Recover(fs)
  {
  }

  // ------------------------------------------------------------------------------------------
  // The file server as the storage sees it
  // ------------------------------------------------------------------------------------------

  /** Performs file operations until the process dies: `budget` operations are left to it. */
  class FileServer {
    var files: Files
    var budget: nat

    constructor (files: Files, budget: nat)
      ensures this.files == files && this.budget == budget
    {
      this.files := files;
      this.budget := budget;
    }

    /** Performs one operation, or dies before it. */
    method Perform(op: FileOp) returns (alive: bool)
      modifies this
      ensures alive == (old(budget) > 0)
      ensures files == if alive then Apply(old(files), op) else old(files)
      ensures budget == if alive then old(budget) - 1 else 0
    {
      if budget == 0 {
        return false;
      }
      budget := budget - 1;
      alive := true;
      match op
      case OpenOrCreate(f) =>
        if f !in files {
          files := files[f := ""];
        }
      case Write(f, pos, data) =>
        if f in files && pos <= |files[f]| {
          files := files[f := Overwrite(files[f], pos, data)];
        }
      case SetSize(f, size) =>
        if f in files {
          files := files[f := Resize(files[f], size)];
        }
      case Rename(from, to) =>
        if from in files {
          var content := files[from];
          files := files - {from};
          files := files[to := content];
        }
      case Erase(f) =>
        files := files - {f};
    }
  }
}
