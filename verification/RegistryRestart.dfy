/** Which IDs survive a restart when writes may fail: exactly those that are on disk. */
module RegistryRestart {
  import opened Options
  import opened TokenId
  import opened TokenJson
  import opened TokenRegistry
  import opened RegistryCrash
  import opened RegistryIdentity
  import opened RegistryDisk

  /** The disk is one this code wrote, and every pair on it is in the list of a running process. */
  ghost predicate Behind(s: Proc) {
    && Healthy(s.disk)
    && if s.inited then Keyed(s.list) && Grows(OnDisk(s.disk), s.list) else s.list == []
  }

  /** The main file is read undisturbed; every write, restore, lock and random read may fail. */
  predicate ReadsMain(e: Event) {
    !e.Restart? ==> e.f.read.mainReadOk && e.f.init.read.mainReadOk
  }

  predicate AllReadMain(evs: seq<Event>) {
    forall i :: 0 <= i < |evs| ==> ReadsMain(evs[i])
  }

  // ---------------------------------------------------------------- one call

  /** A name or low bits that the list does not have are not on disk either. */
  lemma FreshOnDisk(d: Disk, l: seq<TokenNode>, name: string, u: nat)
    requires Healthy(d) && Grows(OnDisk(d), l)
    ensures FindName(l, name).None? ==> FindName(OnDisk(d), name).None?
    ensures !UniqueIdUsed(l, u) ==> !UniqueIdUsed(OnDisk(d), u)
  {
    hide OnDisk, Healthy;
    var o := OnDisk(d);
    forall i | 0 <= i < |o| ensures exists k :: 0 <= k < |l| && l[k].name == o[i].name && l[k].tokenId == o[i].tokenId {
      assert Has(o, o[i].name, o[i].tokenId);
      assert Has(l, o[i].name, o[i].tokenId);
    }
  }

  lemma GrowsPush(o: seq<TokenNode>, l: seq<TokenNode>, n: TokenNode)
    requires Grows(o, l)
    ensures Grows(o, [n] + o) && Grows(o, [n] + l) && Grows([n] + o, [n] + l)
  {
    PushGrows(o, n);
    PushGrows(l, n);
    forall name, id | Has([n] + o, name, id) ensures Has([n] + l, name, id) {
      if !(n.name == name && n.tokenId == id) {
        var i :| 0 <= i < |[n] + o| && ([n] + o)[i].name == name && ([n] + o)[i].tokenId == id;
        assert o[i - 1] == ([n] + o)[i];
        assert Has(o, name, id);
      }
    }
  }

  lemma AddBehind(s: Proc, p: Params, f: CallFaults)
    requires s.inited && Behind(s) && f.read.mainReadOk && CheckProcessInfo(p).Valid? && FindName(s.list, p.name).None?
    ensures var d := AddNew(s, p, f).proc.disk;
      Healthy(d) && Grows(OnDisk(s.disk), OnDisk(d)) && Grows(OnDisk(d), AddNew(s, p, f).proc.list)
  {
    hide CheckProcessInfo, CreateId, Save, EncodeNode, Storable, NativeKind, OnDisk, Healthy, Keyed, Has, UniqueIdUsed;
    CreateIdFresh(s.list, p.name, f.rands);
    var id := CreateId(s.list, p.name, f.rands);
    if id != INVALID_TOKEN_ID {
      var n := NodeFor(p, id);
      ValidNodeStorable(p, id);
      FreshOnDisk(s.disk, s.list, p.name, id % UNIQUE_RANGE);
      SaveOnDisk(s.disk, n, f.read, f.write);
      GrowsPush(OnDisk(s.disk), s.list, n);
    }
  }

  /** In step on a name: a record of that name on disk has the ID that the list holds. */
  lemma StoredAlike(d: Disk, l: seq<TokenNode>, name: string, id: nat)
    requires Healthy(d) && Keyed(l) && Grows(OnDisk(d), l) && Has(l, name, id)
    ensures FindName(OnDisk(d), name).Some? ==> OnDisk(d)[FindName(OnDisk(d), name).value].tokenId == id
    ensures Has(OnDisk(d), name, id) <==> FindName(OnDisk(d), name).Some?
  {
    hide OnDisk, Healthy;
    var o := OnDisk(d);
    if FindName(o, name).Some? {
      var i := FindName(o, name).value;
      assert Has(o, name, o[i].tokenId);
      KeyedPairs(l, name, o[i].tokenId, name, id);
    }
  }

  lemma UpdateBehind(s: Proc, i: nat, p: Params, f: CallFaults)
    requires s.inited && Behind(s) && f.read.mainReadOk && CheckProcessInfo(p).Valid?
    requires FindName(s.list, p.name) == Some(i)
    ensures var d := UpdateExisting(s, i, p, f).proc.disk;
      Healthy(d) && Grows(OnDisk(s.disk), OnDisk(d)) && Grows(OnDisk(d), UpdateExisting(s, i, p, f).proc.list)
  {
    hide CheckProcessInfo, Update, Storable, NativeKind, OnDisk, Healthy, Keyed;
    var n := NodeFor(p, s.list[i].tokenId);
    var o := OnDisk(s.disk);
    assert Has(s.list, p.name, n.tokenId);
    StoredAlike(s.disk, s.list, p.name, n.tokenId);
    RewriteKeyed(s.list, i, n);
    if FindName(o, p.name).Some? {
      var j := FindName(o, p.name).value;
      StoredId(s.disk, j);
      ValidNodeStorable(p, n.tokenId);
      RewriteKeyed(o, j, n);
      assert o[j := n][j := o[j]] == o;
      RewriteKeyed(o[j := n], j, o[j]);
    }
    UpdateOnDisk(s.disk, n, f.read, f.write);
  }

  lemma SameGrows(l: seq<TokenNode>)
    ensures Grows(l, l)
  {
  }

  lemma CallBehind(s: Proc, p: Params, f: CallFaults)
    requires Behind(s) && f.read.mainReadOk && f.init.read.mainReadOk
    ensures var r := Call(s, p, f);
      && Behind(r.proc) && Grows(OnDisk(s.disk), OnDisk(r.proc.disk))
      && (s.inited ==> r.proc.inited && Grows(s.list, r.proc.list))
      && (r.tokenId != 0 ==> r.proc.inited && Has(r.proc.list, p.name, r.tokenId))
  {
    hide CheckProcessInfo, AddNew, UpdateExisting, Init, Has, Keyed, Healthy, OnDisk;
    SameGrows(OnDisk(s.disk));
    SameGrows(s.list);
    if f.lockOk {
      var s1 := EnsureInit(s, f);
      assert Behind(s1) && OnDisk(s1.disk) == OnDisk(s.disk) by {
        if !s.inited {
          MirrorInit(s, f);
        }
      }
      if s1.inited {
        ReadyKeepsPairs(s1, p, f);
        if CheckProcessInfo(p).Valid? {
          match FindName(s1.list, p.name)
          case None => AddBehind(s1, p, f);
          case Some(i) => UpdateBehind(s1, i, p, f);
        }
      }
    }
  }

  // ---------------------------------------------------------------- runs

  lemma BehindStep(s: Proc, e: Event)
    requires Behind(s) && ReadsMain(e)
    ensures var r := Step(s, e); Behind(r.proc) && Grows(OnDisk(s.disk), OnDisk(r.proc.disk))
  {
    hide Call, CallSteps, Keyed, Healthy, OnDisk, Has;
    SameGrows(OnDisk(s.disk));
    if e.Invoke? {
      CallBehind(s, e.p, e.f);
    } else if e.Crash? {
      var f := CrashIsCall(s, e.p, e.f, e.k);
      CallBehind(s, e.p, f);
    }
  }

  /** In every run of calls, restarts and crashes with the main file read undisturbed and writes failing at will,
      the disk stays healthy and behind memory, and no stored pair is ever lost. */
  lemma {:induction false} BehindRun(s: Proc, evs: seq<Event>, k: nat)
    requires Behind(s) && AllReadMain(evs) && k <= |evs|
    ensures Behind(After(s, evs)) && Behind(After(s, evs[..k]))
    ensures Grows(OnDisk(After(s, evs[..k]).disk), OnDisk(After(s, evs).disk))
    decreases |evs|
  {
    hide Behind, Step, OnDisk, Has;
    if evs == [] {
      assert evs[..k] == [];
    } else {
      var pre := evs[..|evs| - 1];
      BehindRun(s, pre, if k == |evs| then |pre| else k);
      BehindStep(After(s, pre), evs[|evs| - 1]);
      if k == |evs| {
        assert evs[..k] == evs;
      } else {
        assert pre[..k] == evs[..k];
      }
    }
  }

  /** The nodes a disk holds; none if this code did not write it. */
  function Kept(d: Disk): seq<TokenNode> {
    if Healthy(d) then OnDisk(d) else []
  }

  /** Event `i` returned an ID, and its record was on disk at that moment. */
  predicate StoredAt(s: Proc, evs: seq<Event>, i: nat) {
    && i < |evs| && evs[i].Invoke? && Returned(s, evs, i) != 0
    && Has(Kept(After(s, evs[..i + 1]).disk), evs[i].p.name, Returned(s, evs, i))
  }

  /** Across restarts and crashes, with writes failing at will, the IDs that were on disk when they were returned are
      stable: one name, one ID; two names, two IDs. */
  lemma StoredIdsStable(s: Proc, evs: seq<Event>, i: nat, j: nat)
    requires Behind(s) && AllReadMain(evs) && StoredAt(s, evs, i) && StoredAt(s, evs, j)
    ensures evs[i].p.name == evs[j].p.name ==> Returned(s, evs, i) == Returned(s, evs, j)
    ensures evs[i].p.name != evs[j].p.name ==>
      Returned(s, evs, i) % UNIQUE_RANGE != Returned(s, evs, j) % UNIQUE_RANGE
  {
    hide After, Returned, Healthy, OnDisk, Has;
    BehindRun(s, evs, i + 1);
    BehindRun(s, evs, j + 1);
    var d := After(s, evs).disk;
    HealthyKeyed(d);
    KeyedPairs(OnDisk(d), evs[i].p.name, Returned(s, evs, i), evs[j].p.name, Returned(s, evs, j));
  }

  // ---------------------------------------------------------------- what a restart keeps

  /** A call after the restart whose reads and write are undisturbed. */
  predicate Undisturbed(h: CallFaults) {
    h.init.read.mainReadOk && h.read.mainReadOk && !h.write.Failed?
  }

  /** Whatever is drawn, the name gets this ID again or nothing. */
  ghost predicate KeepsId(d: Disk, p: Params, id: nat) {
    forall h | Undisturbed(h) :: Call(Booted(d), p, h).tokenId in {0, id}
  }

  /** Everything works and the first random number is `u`. */
  function Drawing(u: nat): CallFaults {
    var read := ReadFaults(true, true, true, Both);
    CallFaults(true, InitFaults(read, true, true, true, true), [Some(u)], read, Both)
  }

  lemma DrawsFirst(l: seq<TokenNode>, name: string, u: nat, rest: seq<Option<nat>>)
    requires u < UNIQUE_RANGE && !UniqueIdUsed(l, u)
    ensures CreateId(l, name, [Some(u)] + rest) == NewId(u, name == HDC_PROCESS_NAME)
    ensures CreateId(l, name, [Some(u)] + rest) != 0 && CreateId(l, name, [Some(u)] + rest) % UNIQUE_RANGE == u
  {
    hide UniqueIdUsed;
    var rands := [Some(u)] + rest;
    assert rands[0] == Some(u) && u % UNIQUE_RANGE == u;
    assert FreshUnique(l, rands, 0) == Some(u);
    NewIdMeaning(u, name == HDC_PROCESS_NAME);
  }

  lemma FirstCallStored(d: Disk, p: Params, id: nat, h: CallFaults)
    requires Healthy(d) && Has(OnDisk(d), p.name, id) && CheckProcessInfo(p).Valid? && Undisturbed(h)
    ensures Call(Booted(d), p, h).tokenId in {0, id}
    ensures h.lockOk ==> Call(Booted(d), p, h).tokenId == id
  {
    hide CheckProcessInfo, UpdateExisting, AddNew, Keyed, Healthy, OnDisk;
    HealthyKeyed(d);
    assert Mirror(Booted(d));
    MirrorInit(Booted(d), h);
    StoredLoads(d, h);
    var s1 := EnsureInit(Booted(d), h);
    if h.lockOk {
      SameGrows(OnDisk(d));
      StoredAlike(d, OnDisk(d), p.name, id);
      MirrorUpdate(s1, FindName(s1.list, p.name).value, p, h);
    }
  }

  /** A disk with records loads. */
  lemma StoredLoads(d: Disk, h: CallFaults)
    requires Healthy(d) && OnDisk(d) != [] && h.init.read.mainReadOk
    ensures EnsureInit(Booted(d), h).inited
  {
    hide DecodeNode, Keyed;
  }

  lemma FirstCallNew(d: Disk, p: Params, u: nat)
    requires Healthy(d) && FindName(OnDisk(d), p.name).None? && CheckProcessInfo(p).Valid?
    requires u < UNIQUE_RANGE && !UniqueIdUsed(OnDisk(d), u)
    ensures Call(Booted(d), p, Drawing(u)).tokenId == NewId(u, p.name == HDC_PROCESS_NAME)
  {
    hide CheckProcessInfo, UpdateExisting, AddNew, CreateId, Keyed, Healthy, OnDisk, UniqueIdUsed;
    var h := Drawing(u);
    assert Mirror(Booted(d));
    MirrorInit(Booted(d), h);
    var s1 := EnsureInit(Booted(d), h);
    assert s1.inited by { CleanStart(d, u); }
    MirrorAdd(s1, p, h);
    assert h.rands == [Some(u)] + [];
    DrawsFirst(s1.list, p.name, u, []);
  }

  lemma CleanStart(d: Disk, u: nat)
    requires Healthy(d)
    ensures EnsureInit(Booted(d), Drawing(u)).inited
  {
    hide DecodeNode, Keyed;
  }

  /** After a restart a name keeps the ID it has in memory, whatever is drawn, exactly when that ID is on disk. (One
      other number must be free, or nothing else could be drawn.) */
  lemma RestartKeepsIdIff(s: Proc, p: Params, id: nat, u: nat)
    requires s.inited && Behind(s) && Has(s.list, p.name, id) && CheckProcessInfo(p).Valid?
    requires u < UNIQUE_RANGE && u != id % UNIQUE_RANGE && !UniqueIdUsed(OnDisk(s.disk), u)
    ensures KeepsId(s.disk, p, id) <==> Has(OnDisk(s.disk), p.name, id)
  {
    hide CheckProcessInfo, Call, Keyed, Healthy, OnDisk, Has, UniqueIdUsed;
    var d := s.disk;
    StoredAlike(d, s.list, p.name, id);
    if Has(OnDisk(d), p.name, id) {
      forall h | Undisturbed(h) ensures Call(Booted(d), p, h).tokenId in {0, id} {
        FirstCallStored(d, p, id, h);
      }
    } else {
      FirstCallNew(d, p, u);
      NewIdMeaning(u, p.name == HDC_PROCESS_NAME);
      assert Undisturbed(Drawing(u));
    }
  }

  /** An ID returned in the current lifetime is still in the list. */
  lemma {:induction false} StillListed(s: Proc, evs: seq<Event>, i: nat)
    requires Behind(s) && AllReadMain(evs) && i < |evs| && Returned(s, evs, i) != 0
    requires forall j :: i <= j < |evs| ==> evs[j].Invoke?
    ensures After(s, evs).inited && Has(After(s, evs).list, evs[i].p.name, Returned(s, evs, i))
    decreases |evs|
  {
    hide Behind, Call, Has;
    var n := |evs| - 1;
    var pre := evs[..n];
    BehindRun(s, pre, n);
    CallBehind(After(s, pre), evs[n].p, evs[n].f);
    if i < n {
      assert pre[..i] == evs[..i];
      StillListed(s, pre, i);
    }
  }

  /** In every run with the main file read undisturbed and writes failing at will: an ID returned in the current
      lifetime survives a restart now, whatever is drawn, exactly when it is on disk. */
  lemma SurvivesRestartIff(s: Proc, evs: seq<Event>, i: nat, p: Params, u: nat)
    requires Behind(s) && AllReadMain(evs) && i < |evs| && Returned(s, evs, i) != 0
    requires forall j :: i <= j < |evs| ==> evs[j].Invoke?
    requires CheckProcessInfo(p).Valid? && p.name == evs[i].p.name
    requires u < UNIQUE_RANGE && u != Returned(s, evs, i) % UNIQUE_RANGE && !UniqueIdUsed(Kept(After(s, evs).disk), u)
    ensures var d := After(s, evs).disk;
      KeepsId(d, p, Returned(s, evs, i)) <==> Has(Kept(d), p.name, Returned(s, evs, i))
  {
    hide After, Returned, CheckProcessInfo, KeepsId, Has, OnDisk, UniqueIdUsed, Healthy, Keyed;
    StillListed(s, evs, i);
    BehindRun(s, evs, |evs|);
    RestartKeepsIdIff(After(s, evs), p, Returned(s, evs, i), u);
  }

  /** The failing family is reachable: a save fails, the retry returns the unsaved ID, and after a restart the same
      name gets a different one. */
  lemma UnsavedIdForgotten(s: Proc, p: Params, f: CallFaults, g: CallFaults, a: nat, b: nat)
    requires s.inited && Behind(s) && s.disk.main.Doc? && CheckProcessInfo(p).Valid? && FindName(s.list, p.name).None?
    requires a < UNIQUE_RANGE && b < UNIQUE_RANGE && a != b && !UniqueIdUsed(s.list, a) && !UniqueIdUsed(s.list, b)
    requires f == Drawing(a).(write := Failed) && g.lockOk
    ensures var second := Call(Call(s, p, f).proc, p, g);
      var third := Call(Step(second.proc, Restart).proc, p, Drawing(b));
      second.tokenId != 0 && third.tokenId != 0 && second.tokenId != third.tokenId
  {
    hide CheckProcessInfo, Call, CreateId, Behind, UniqueIdUsed;
    assert f.rands == [Some(a)] + [];
    DrawsFirst(s.list, p.name, a, []);
    RetryReturnsUnsavedId(s, p, f, g);
    assert Healthy(s.disk) && FindName(OnDisk(s.disk), p.name).None? && !UniqueIdUsed(OnDisk(s.disk), b) by {
      BehindFresh(s, p.name, b);
    }
    FirstCallNew(s.disk, p, b);
    NewIdMeaning(b, p.name == HDC_PROCESS_NAME);
    NewIdMeaning(a, p.name == HDC_PROCESS_NAME);
  }

  lemma BehindFresh(s: Proc, name: string, u: nat)
    requires s.inited && Behind(s) && FindName(s.list, name).None? && !UniqueIdUsed(s.list, u)
    ensures Healthy(s.disk) && FindName(OnDisk(s.disk), name).None? && !UniqueIdUsed(OnDisk(s.disk), u)
  {
    FreshOnDisk(s.disk, s.list, name, u);
  }
}
