/** The commit-by-rename file writer: write `path.new`, flush it, rename it over `path`,
    then do the same for the backup copy.

    The file system is a map from paths to entries. A write is a list of primitive steps
    (its plan), so that a crash after any step is a prefix of that list. Every way in which the
    operating system can refuse a step is a field of `CommitFaults`. */
module AtomicFile {
  import opened Options

  const PATH_MAX := 4096
  const BACKUP_DIR := "/access_token_backup/"
  const NEW_SUFFIX := ".new"

  datatype Entry = File(data: string) | OtherNode
  type Files = map<string, Entry>

  datatype Op = Remove(path: string) | Put(path: string, data: string) | Move(from: string, to: string)

  function Apply(fs: Files, op: Op): Files {
    match op
    case Remove(p) => fs - {p}
    case Put(p, data) => fs[p := File(data)]
    case Move(from, to) => if from in fs then (fs - {from})[to := fs[from]] else fs
  }

  /** The file system after a list of steps. */
  function Exec(fs: Files, ops: seq<Op>): Files {
    if ops == [] then fs else Apply(Exec(fs, ops[..|ops| - 1]), ops[|ops| - 1])
  }

  function Lookup(fs: Files, p: string): Option<Entry> {
    if p in fs then Some(fs[p]) else None
  }

  /** What the operating system answers during one commit. `written` is the return value of write(). */
  datatype CommitFaults = CommitFaults(unlinkOk: bool, openOk: bool, written: int, fsyncOk: bool,
                                       cleanupOk: bool, renameOk: bool)
  {
    predicate Stored(data: string) {
      openOk && written == |data| && fsyncOk
    }
  }

  datatype WriteFaults = WriteFaults(main: CommitFaults, backup: CommitFaults)

  /** Position of the last '/', or -1. */
  function LastSlash(s: string): (r: int)
    ensures -1 <= r < |s|
    ensures r >= 0 ==> s[r] == '/'
    ensures forall k :: r < k < |s| ==> s[k] != '/'
  {
    if s == [] then -1
    else if s[|s| - 1] == '/' then |s| - 1
    else LastSlash(s[..|s| - 1])
  }

  /** The backup path `<parent>/access_token_backup/<name>`, refused when it does not fit `capacity`. */
  function BakPath(path: string, capacity: nat): (r: Option<string>)
    ensures r.Some? ==> |r.value| == |path| + |BACKUP_DIR| - 1 && |r.value| < capacity
  {
    var i := LastSlash(path);
    if i <= 0 then None
    else
      var bak := path[..i] + BACKUP_DIR + path[i + 1..];
      if |bak| < capacity then Some(bak) else None
  }

  function NewPath(path: string): string {
    path + NEW_SUFFIX
  }

  predicate NewPathFits(path: string) {
    |NewPath(path)| < PATH_MAX
  }

  /** Whether the open-write-flush-rename sequence reaches its end. */
  predicate Commits(path: string, data: string, f: CommitFaults) {
    NewPathFits(path) && f.Stored(data) && f.renameOk
  }

  /** The steps that writing and flushing one file performs. */
  function StorePlan(target: string, data: string, f: CommitFaults): seq<Op> {
    if !f.openOk then []
    else
      [Put(target, "")]
      + (if 0 <= f.written <= |data| then [Put(target, data[..f.written])] else [])
      + (if !f.Stored(data) && f.cleanupOk then [Remove(target)] else [])
  }

  /** Removing a stale file and storing the data anew. */
  function FreshPlan(target: string, data: string, f: CommitFaults): seq<Op> {
    (if f.unlinkOk then [Remove(target)] else []) + StorePlan(target, data, f)
  }

  /** The steps that committing `data` to `path` performs. */
  function CommitPlan(path: string, data: string, f: CommitFaults): seq<Op> {
    if !NewPathFits(path) then []
    else if f.Stored(data) && f.renameOk then FreshPlan(NewPath(path), data, f) + [Move(NewPath(path), path)]
    else FreshPlan(NewPath(path), data, f)
  }

  /** The steps of a whole write: the main file, then, only if that committed, the backup. */
  function WritePlan(path: string, data: string, f: WriteFaults): seq<Op> {
    CommitPlan(path, data, f.main) + BackupPlan(path, data, f)
  }

  function BackupPlan(path: string, data: string, f: WriteFaults): seq<Op> {
    var bak := BakPath(path, PATH_MAX);
    if Commits(path, data, f.main) && bak.Some? then CommitPlan(bak.value, data, f.backup) else []
  }

  // ---------------------------------------------------------------- proofs

  lemma {:induction false} ExecAppend(fs: Files, a: seq<Op>, b: seq<Op>)
    ensures Exec(fs, a + b) == Exec(Exec(fs, a), b)
    decreases |b|
  {
    if b == [] {
      assert a + b == a;
    } else {
      ExecAppend(fs, a, b[..|b| - 1]);
      assert (a + b)[..|a + b| - 1] == a + b[..|b| - 1];
    }
  }

  lemma ExecOne(fs: Files, op: Op)
    ensures Exec(fs, []) == fs && Exec(fs, [op]) == Apply(fs, op)
  {
    assert [op][..0] == [];
  }

  lemma Finish(fs: Files, log: seq<Op>, files: Files, from: string, to: string)
    requires files == Exec(fs, log)
    ensures Exec(fs, log + [Move(from, to)]) == Apply(files, Move(from, to))
  {
    ExecAppend(fs, log, [Move(from, to)]);
    ExecOne(files, Move(from, to));
  }

  /** The four paths of a write never coincide: their lengths differ. */
  lemma PathsDistinct(path: string)
    requires BakPath(path, PATH_MAX).Some?
    ensures var bak := BakPath(path, PATH_MAX).value;
      && path != NewPath(path) && path != bak && path != NewPath(bak)
      && NewPath(path) != bak && NewPath(path) != NewPath(bak) && bak != NewPath(bak)
  {
    var bak := BakPath(path, PATH_MAX).value;
    assert |bak| == |path| + 20;
    assert |NewPath(path)| == |path| + 4;
  }

  /** Steps that only touch `scratch` leave every other path alone. */
  lemma {:induction false} ScratchOnly(fs: Files, ops: seq<Op>, scratch: string, q: string)
    requires q != scratch
    requires forall i :: 0 <= i < |ops| ==> !ops[i].Move? && ops[i].path == scratch
    ensures Lookup(Exec(fs, ops), q) == Lookup(fs, q)
    decreases |ops|
  {
    if ops != [] {
      ScratchOnly(fs, ops[..|ops| - 1], scratch, q);
    }
  }

  /** A commit plan is scratch work on `path.new`, ending in the rename exactly when it commits. */
  lemma CommitPlanShape(path: string, data: string, f: CommitFaults)
    ensures var plan := CommitPlan(path, data, f);
      && (!Commits(path, data, f) ==>
            forall i :: 0 <= i < |plan| ==> !plan[i].Move? && plan[i].path == NewPath(path))
      && (Commits(path, data, f) ==>
            && |plan| >= 2 && plan[|plan| - 1] == Move(NewPath(path), path)
            && plan[|plan| - 2] == Put(NewPath(path), data)
            && (forall i :: 0 <= i < |plan| - 1 ==> !plan[i].Move? && plan[i].path == NewPath(path)))
  {
    if f.Stored(data) {
      assert data[..f.written] == data;
    }
  }

  /** Stopping a commit after `k` steps: every path but `path.new` and `path` is untouched, and `path`
      is untouched too unless all steps of a successful commit ran, when it holds the new data. */
  lemma CommitPrefix(fs: Files, path: string, data: string, f: CommitFaults, k: nat, q: string)
    requires k <= |CommitPlan(path, data, f)|
    requires q != NewPath(path)
    ensures var s := Exec(fs, CommitPlan(path, data, f)[..k]);
      Lookup(s, q) ==
      if q == path && Commits(path, data, f) && k == |CommitPlan(path, data, f)| then Some(File(data))
      else Lookup(fs, q)
  {
    var plan := CommitPlan(path, data, f);
    CommitPlanShape(path, data, f);
    if Commits(path, data, f) && k == |plan| {
      var before := plan[..k - 1];
      assert plan[..k] == plan;
      assert before[..|before| - 1] == plan[..k - 2];
      assert Exec(fs, before) == Apply(Exec(fs, plan[..k - 2]), Put(NewPath(path), data));
      assert Exec(fs, plan) == Apply(Exec(fs, before), Move(NewPath(path), path));
      ScratchOnly(fs, before, NewPath(path), q);
      assert path != NewPath(path) by { assert |NewPath(path)| == |path| + 4; }
    } else {
      ScratchOnly(fs, plan[..k], NewPath(path), q);
    }
  }

  /** Crash safety: after any number of steps the main file is all old or all new, the backup changes
      only to the new data and only once the main file has it, and no unrelated path changes. */
  lemma CrashSafe(fs: Files, path: string, data: string, f: WriteFaults, k: nat)
    requires k <= |WritePlan(path, data, f)|
    ensures var s := Exec(fs, WritePlan(path, data, f)[..k]);
      && (Lookup(s, path) == Lookup(fs, path) || Lookup(s, path) == Some(File(data)))
      && (forall bak :: BakPath(path, PATH_MAX) == Some(bak) ==>
            || Lookup(s, bak) == Lookup(fs, bak)
            || (Lookup(s, bak) == Some(File(data)) && Lookup(s, path) == Some(File(data))))
      && (forall q :: q != path && q != NewPath(path)
            && (BakPath(path, PATH_MAX).Some? ==>
                  q != BakPath(path, PATH_MAX).value && q != NewPath(BakPath(path, PATH_MAX).value))
            ==> Lookup(s, q) == Lookup(fs, q))
  {
    var s := Exec(fs, WritePlan(path, data, f)[..k]);
    forall q | q != NewPath(path)
               && (BakPath(path, PATH_MAX).Some? ==> q != NewPath(BakPath(path, PATH_MAX).value))
      ensures Lookup(s, q) == PrefixView(fs, path, data, f, k, q)
    {
      WritePrefix(fs, path, data, f, k, q);
    }
    if BakPath(path, PATH_MAX).Some? {
      PathsDistinct(path);
    }
    assert path != NewPath(path) by { assert |NewPath(path)| == |path| + 4; }
  }

  /** What path `q` shows after `k` steps of a whole write. */
  function PrefixView(fs: Files, path: string, data: string, f: WriteFaults, k: nat, q: string): Option<Entry> {
    if q == path && Commits(path, data, f.main) && k >= |CommitPlan(path, data, f.main)| then Some(File(data))
    else if BakPath(path, PATH_MAX) == Some(q) && Commits(path, data, f.main) && Commits(q, data, f.backup)
            && k == |WritePlan(path, data, f)| then Some(File(data))
    else Lookup(fs, q)
  }

  lemma WritePrefix(fs: Files, path: string, data: string, f: WriteFaults, k: nat, q: string)
    requires k <= |WritePlan(path, data, f)|
    requires q != NewPath(path)
    requires BakPath(path, PATH_MAX).Some? ==> q != NewPath(BakPath(path, PATH_MAX).value)
    ensures Lookup(Exec(fs, WritePlan(path, data, f)[..k]), q) == PrefixView(fs, path, data, f, k, q)
  {
    var main, rest := CommitPlan(path, data, f.main), BackupPlan(path, data, f);
    if BakPath(path, PATH_MAX).Some? {
      PathsDistinct(path);
      CommitPlanShape(BakPath(path, PATH_MAX).value, data, f.backup);
    }
    if k <= |main| {
      assert (main + rest)[..k] == main[..k];
      CommitPrefix(fs, path, data, f.main, k, q);
    } else {
      var bak := BakPath(path, PATH_MAX).value;
      var j := k - |main|;
      assert (main + rest)[..k] == main + rest[..j];
      ExecAppend(fs, main, rest[..j]);
      assert main == main[..|main|];
      CommitPrefix(fs, path, data, f.main, |main|, q);
      CommitPrefix(Exec(fs, main), bak, data, f.backup, j, q);
    }
  }

  /** The return value tells the truth about the main file, whatever happened to the backup. */
  lemma ReturnValue(fs: Files, path: string, data: string, f: WriteFaults)
    ensures var s := Exec(fs, WritePlan(path, data, f));
      Lookup(s, path) == if Commits(path, data, f.main) then Some(File(data)) else Lookup(fs, path)
  {
    var plan := WritePlan(path, data, f);
    if BakPath(path, PATH_MAX).Some? {
      PathsDistinct(path);
    }
    assert path != NewPath(path) by { assert |NewPath(path)| == |path| + 4; }
    assert plan[..|plan|] == plan;
    WritePrefix(fs, path, data, f, |plan|, path);
  }

  // ---------------------------------------------------------------- in terms of the system calls

  /** A file is committed exactly when its scratch name fits and opening, the whole write, the flush and the rename all
      succeed. */
  lemma CommitsIff(path: string, data: string, f: CommitFaults)
    ensures Commits(path, data, f) <==>
      |path| + 4 < 4096 && f.openOk && f.written == |data| && f.fsyncOk && f.renameOk
  {
  }

  lemma ExecLast(fs: Files, ops: seq<Op>, op: Op)
    ensures Exec(fs, ops + [op]) == Apply(Exec(fs, ops), op)
  {
    assert (ops + [op])[..|ops|] == ops;
  }

  /** Storing one file: it has the data if everything was written and flushed, and is gone otherwise, if the clean-up
      works; a file that cannot be opened is left alone. */
  lemma StoreOutcome(fs: Files, target: string, data: string, f: CommitFaults)
    ensures var s := Exec(fs, StorePlan(target, data, f));
      && (!f.openOk ==> s == fs)
      && (f.openOk && f.written == |data| && f.fsyncOk ==> Lookup(s, target) == Some(File(data)))
      && (f.openOk && !(f.written == |data| && f.fsyncOk) && f.cleanupOk ==> Lookup(s, target) == None)
  {
    if f.openOk {
      var plan := StorePlan(target, data, f);
      var front, last := plan[..|plan| - 1], plan[|plan| - 1];
      assert plan == front + [last];
      ExecLast(fs, front, last);
      if f.written == |data| && f.fsyncOk {
        assert data[..f.written] == data;
      }
    }
  }

  /** Committing one file: its scratch file is gone after a commit, and after a failed write or flush if the clean-up
      works; only a failed rename leaves it, with the data. */
  lemma ScratchOutcome(fs: Files, path: string, data: string, f: CommitFaults)
    requires |path| + 4 < 4096
    ensures var after := Lookup(Exec(fs, CommitPlan(path, data, f)), path + ".new");
      && (f.openOk && f.written == |data| && f.fsyncOk ==> after == if f.renameOk then None else Some(File(data)))
      && (f.openOk && !(f.written == |data| && f.fsyncOk) && f.cleanupOk ==> after == None)
      && (!f.openOk && f.unlinkOk ==> after == None)
  {
    hide StorePlan, Exec;
    var scratch := NewPath(path);
    var first: seq<Op> := if f.unlinkOk then [Remove(scratch)] else [];
    ExecOne(fs, Remove(scratch));
    ExecAppend(fs, first, StorePlan(scratch, data, f));
    StoreOutcome(Exec(fs, first), scratch, data, f);
    ExecLast(fs, FreshPlan(scratch, data, f), Move(scratch, path));
    assert path != scratch by { assert |scratch| == |path| + 4; }
  }

  /** The whole write says of the main file's scratch file what its own commit says; the backup does not touch it. */
  lemma WholeScratch(fs: Files, path: string, data: string, f: WriteFaults)
    ensures Lookup(Exec(fs, WritePlan(path, data, f)), path + ".new")
         == Lookup(Exec(fs, CommitPlan(path, data, f.main)), path + ".new")
  {
    hide CommitPlan, Exec;
    var main, rest := CommitPlan(path, data, f.main), BackupPlan(path, data, f);
    ExecAppend(fs, main, rest);
    if rest != [] {
      var bak := BakPath(path, PATH_MAX).value;
      PathsDistinct(path);
      assert rest[..|rest|] == rest;
      CommitPrefix(Exec(fs, main), bak, data, f.backup, |rest|, NewPath(path));
    } else {
      assert Exec(Exec(fs, main), rest) == Exec(fs, main) by { ExecOne(Exec(fs, main), Remove("")); }
    }
  }

  /** What a whole write does to the main file and its scratch file. */
  lemma MainOutcome(fs: Files, path: string, data: string, f: WriteFaults)
    ensures Commits(path, data, f.main) <==>
      |path| + 4 < 4096 && f.main.openOk && f.main.written == |data| && f.main.fsyncOk && f.main.renameOk
    ensures var s := Exec(fs, WritePlan(path, data, f));
      && Lookup(s, path) == (if Commits(path, data, f.main) then Some(File(data)) else Lookup(fs, path))
      && (Commits(path, data, f.main) ==> Lookup(s, path + ".new") == None)
      && (|path| + 4 < 4096 && f.main.openOk && !(f.main.written == |data| && f.main.fsyncOk) && f.main.cleanupOk ==>
            Lookup(s, path + ".new") == None)
  {
    hide Exec, CommitPlan, WritePlan, Lookup, BakPath;
    ReturnValue(fs, path, data, f);
    CommitsIff(path, data, f.main);
    WholeScratch(fs, path, data, f);
    if |path| + 4 < 4096 {
      ScratchOutcome(fs, path, data, f.main);
    }
  }

  /** The backup gets the data exactly in a write whose main file and backup both commit; otherwise it is as before. */
  lemma BackupOutcome(fs: Files, path: string, bak: string, data: string, f: WriteFaults)
    requires BakPath(path, PATH_MAX) == Some(bak)
    ensures var all := (g: CommitFaults) => g.openOk && g.written == |data| && g.fsyncOk && g.renameOk;
      Lookup(Exec(fs, WritePlan(path, data, f)), bak) ==
      if |path| + 4 < 4096 && |bak| + 4 < 4096 && all(f.main) && all(f.backup) then Some(File(data))
      else Lookup(fs, bak)
  {
    hide CommitPlan, Exec;
    PathsDistinct(path);
    var plan := WritePlan(path, data, f);
    assert plan[..|plan|] == plan;
    WritePrefix(fs, path, data, f, |plan|, bak);
    CommitsIff(path, data, f.main);
    CommitsIff(bak, data, f.backup);
  }

  // ---------------------------------------------------------------- the writer itself

  class FileSystem {
    var files: Files
    ghost var done: seq<Op>

    constructor (initial: Files)
      ensures files == initial && done == []
    {
      files := initial;
      done := [];
    }

    method Unlink(path: string, ok: bool)
      modifies this
      ensures files == if ok then Apply(old(files), Remove(path)) else old(files)
      ensures done == old(done) + if ok then [Remove(path)] else []
    {
      if ok {
        files := files - {path};
        done := done + [Remove(path)];
      }
    }

    method WriteAll(path: string, data: string)
      modifies this
      ensures files == Apply(old(files), Put(path, data))
      ensures done == old(done) + [Put(path, data)]
    {
      files := files[path := File(data)];
      done := done + [Put(path, data)];
    }

    method WriteAndSync(path: string, data: string, f: CommitFaults) returns (ret: int)
      modifies this
      ensures ret == if f.Stored(data) then 0 else -1
      ensures ret == 0 <==> f.openOk && f.written == |data| && f.fsyncOk
      ensures ret == 0 ==> Lookup(files, path) == Some(File(data))
      ensures ret != 0 && f.openOk && f.cleanupOk ==> Lookup(files, path) == None
      ensures done == old(done) + StorePlan(path, data, f)
      ensures files == Exec(old(files), StorePlan(path, data, f))
    {
      StoreOutcome(files, path, data, f);
      if !f.openOk {
        return -1;
      }
      ghost var was, fs := done, files;
      WriteAll(path, "");
      ghost var log := [Put(path, "")];
      assert Exec(fs, log) == Apply(Exec(fs, log[..0]), log[0]);
      if 0 <= f.written <= |data| {
        WriteAll(path, data[..f.written]);
        ExecAppend(fs, log, [Put(path, data[..f.written])]);
        log := log + [Put(path, data[..f.written])];
      }
      var failed := f.written != |data|;
      if !failed && !f.fsyncOk {
        failed := true;
      }
      if failed {
        Unlink(path, f.cleanupOk);
        if f.cleanupOk {
          ExecAppend(fs, log, [Remove(path)]);
          log := log + [Remove(path)];
        }
        assert log == StorePlan(path, data, f);
        return -1;
      }
      assert log == StorePlan(path, data, f);
      return 0;
    }

    method WriteFresh(path: string, data: string, f: CommitFaults) returns (ret: int)
      modifies this
      ensures ret == if f.Stored(data) then 0 else -1
      ensures done == old(done) + FreshPlan(path, data, f)
      ensures files == Exec(old(files), FreshPlan(path, data, f))
    {
      hide StorePlan, Exec, Apply;
      ghost var fs := files;
      Unlink(path, f.unlinkOk);
      ghost var log: seq<Op> := if f.unlinkOk then [Remove(path)] else [];
      ExecOne(fs, Remove(path));
      ret := WriteAndSync(path, data, f);
      ExecAppend(fs, log, StorePlan(path, data, f));
    }

    method WriteAndRename(path: string, data: string, f: CommitFaults) returns (ret: int)
      modifies this
      ensures ret == if Commits(path, data, f) then 0 else -1
      ensures ret == 0 <==> |path| + 4 < 4096 && f.openOk && f.written == |data| && f.fsyncOk && f.renameOk
      ensures |path| + 4 < 4096 && f.openOk && !(f.written == |data| && f.fsyncOk) && f.cleanupOk ==>
        Lookup(files, path + ".new") == None
      ensures done == old(done) + CommitPlan(path, data, f)
      ensures files == Exec(old(files), CommitPlan(path, data, f))
    {
      if |path| + 4 < 4096 {
        ScratchOutcome(files, path, data, f);
      }
      hide FreshPlan, Apply;
      var newPath := path + NEW_SUFFIX;
      if |newPath| >= PATH_MAX {
        return -1;
      }
      hide Exec;
      ghost var fs := files;
      var stored := WriteFresh(newPath, data, f);
      if stored != 0 || !f.renameOk {
        return -1;
      }
      Finish(fs, FreshPlan(newPath, data, f), files, newPath, path);
      Rename(newPath, path);
      return 0;
    }

    method Rename(from: string, to: string)
      modifies this
      ensures files == Apply(old(files), Move(from, to))
      ensures done == old(done) + [Move(from, to)]
    {
      if from in files {
        files := (files - {from})[to := files[from]];
      }
      done := done + [Move(from, to)];
    }

    /** Runs exactly the write plan; returns 0 iff the main file now holds `data` by a full commit,
        and otherwise leaves the main file as it was. */
    method AtomicWriteFile(path: string, data: string, f: WriteFaults) returns (ret: int)
      modifies this
      ensures done == old(done) + WritePlan(path, data, f)
      ensures files == Exec(old(files), WritePlan(path, data, f))
      ensures ret == 0 ==> Lookup(files, path) == Some(File(data))
      ensures ret != 0 ==> ret == -1 && Lookup(files, path) == Lookup(old(files), path)
      ensures ret == 0 <==> |path| + 4 < 4096 && f.main.openOk && f.main.written == |data| && f.main.fsyncOk
                            && f.main.renameOk
      ensures ret == 0 ==> Lookup(files, path + ".new") == None
      ensures (|path| + 4 < 4096 && f.main.openOk && !(f.main.written == |data| && f.main.fsyncOk)
               && f.main.cleanupOk) ==> Lookup(files, path + ".new") == None
    {
      hide Exec, CommitPlan, BakPath, Commits, Lookup;
      MainOutcome(files, path, data, f);
      ghost var fs := files;
      ret := WriteAndRename(path, data, f.main);
      if ret != 0 {
        assert WritePlan(path, data, f) == CommitPlan(path, data, f.main);
        return -1;
      }
      var bak := BakPath(path, PATH_MAX);
      if bak.None? {
        assert WritePlan(path, data, f) == CommitPlan(path, data, f.main);
        return 0;
      }
      var ignored := WriteAndRename(bak.value, data, f.backup);
      ExecAppend(fs, CommitPlan(path, data, f.main), BackupPlan(path, data, f));
      assert done == old(done) + WritePlan(path, data, f);
      return 0;
    }
  }
}
