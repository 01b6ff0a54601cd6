/** Ties the two views of a write together: the step-by-step file writer, stopped anywhere, and the
    three-way outcome that the registry's transitions use. */
module DiskCommit {
  import opened Options
  import opened AtomicFile
  import opened TokenJson
  import opened TokenRegistry

  const TOKEN_ID_CFG_DIR_PATH := "/data/service/el0/access_token"
  const TOKEN_ID_CFG_NAME := "nativetoken.json"

  /** What a path shows to the reader; `parse` is the JSON parser on non-empty text. */
  function ContentAt(parse: string -> Content, fs: Files, path: string): Content {
    match Lookup(fs, path)
    case None => Missing
    case Some(OtherNode) => NotRegular
    case Some(File(data)) => if data == "" then Empty else parse(data)
  }

  function DiskOf(parse: string -> Content, fs: Files, path: string, bak: string): Disk {
    Disk(ContentAt(parse, fs, path), ContentAt(parse, fs, bak))
  }

  /** Stopping a write after any number of its steps leaves the old disk or one of those that the registry's own
      step list passes through; all steps give the outcome of the two commits. */
  lemma CrashIsOutcome(parse: string -> Content, fs: Files, path: string, bak: string, data: string, v: Json,
                       f: WriteFaults, k: nat)
    requires BakPath(path, PATH_MAX) == Some(bak) && data != "" && parse(data) == Doc(v)
    requires k <= |WritePlan(path, data, f)|
    ensures var before := DiskOf(parse, fs, path, bak);
      var now := DiskOf(parse, Exec(fs, WritePlan(path, data, f)[..k]), path, bak);
      var o := if !Commits(path, data, f.main) then Failed else if Commits(bak, data, f.backup) then Both else MainOnly;
      && (now == before || now in WriteSteps(before, v, o))
      && (k == |WritePlan(path, data, f)| ==> now == Commit(before, v, o))
  {
    PathsDistinct(path);
    WritePrefix(fs, path, data, f, k, path);
    WritePrefix(fs, path, data, f, k, bak);
    var before, now := DiskOf(parse, fs, path, bak), DiskOf(parse, Exec(fs, WritePlan(path, data, f)[..k]), path, bak);
    if Commits(path, data, f.main) && k >= |CommitPlan(path, data, f.main)| {
      var both := Commits(bak, data, f.backup) && k == |WritePlan(path, data, f)|;
      assert now == Commit(before, v, if both then Both else MainOnly);
    } else {
      assert now == before;
    }
  }

  /** The backup of a file is the file of the same name in the backup directory beside it. */
  lemma BackupBeside(dir: string, name: string)
    requires dir != "" && '/' !in name && |dir| + |BACKUP_DIR| + |name| < PATH_MAX
    ensures BakPath(dir + "/" + name, PATH_MAX) == Some(dir + BACKUP_DIR + name)
  {
    var p := dir + "/" + name;
    assert p[|dir|] == '/';
    assert forall k :: |dir| < k < |p| ==> p[k] == name[k - |dir| - 1];
    assert LastSlash(p) == |dir|;
    assert p[..|dir|] == dir && p[|dir| + 1..] == name;
  }

  /** The registry's own file has a backup path, so `CrashIsOutcome` speaks about it. */
  lemma ConfigPath()
    ensures BakPath("/data/service/el0/access_token" + "/" + "nativetoken.json", 4096)
         == Some("/data/service/el0/access_token" + "/access_token_backup/" + "nativetoken.json")
  {
    hide BakPath;
    BackupBeside(TOKEN_ID_CFG_DIR_PATH, TOKEN_ID_CFG_NAME);
  }
}
