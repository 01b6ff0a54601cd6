/** What a call stores, refuses, draws and reads, said in plain values: of the parameters, the disk content and the
    answers of the operating system alone. */
module RegistryAnswers {
  import opened Options
  import opened TokenId
  import opened TokenJson
  import opened TokenRegistry
  import opened RegistryCrash
  import opened RegistryIdentity

  // ---------------------------------------------------------------- what is stored

  /** The level that an APL text stands for. */
  predicate AplNamed(text: string, apl: int) {
    || (text == "system_core" && apl == 3)
    || (text == "system_basic" && apl == 2)
    || (text == "normal" && apl == 1)
  }

  /** The node carries this ID and every parameter in its own field. */
  predicate Carries(n: TokenNode, p: Params, id: nat) {
    && n.name == p.name && n.tokenId == id && n.uid == p.uid
    && n.dcaps == p.dcaps && n.perms == p.perms && n.acls == p.acls && AplNamed(p.aplStr, n.apl)
  }

  predicate Holds(l: seq<TokenNode>, p: Params, id: nat) {
    exists i :: 0 <= i < |l| && Carries(l[i], p, id)
  }

  lemma NodeCarries(p: Params, id: nat)
    requires CheckProcessInfo(p).Valid?
    ensures Carries(NodeFor(p, id), p, id)
  {
  }

  /** A call that returns an ID, whatever fails, leaves in the list a node with that ID and all its parameters. */
  lemma CallStores(s: Proc, p: Params, f: CallFaults)
    ensures Call(s, p, f).tokenId != 0 ==> Holds(Call(s, p, f).proc.list, p, Call(s, p, f).tokenId)
  {
    hide CheckProcessInfo, Carries, CreateId, Save, Update, Init;
    if f.lockOk && EnsureInit(s, f).inited && CheckProcessInfo(p).Valid? {
      var s1 := EnsureInit(s, f);
      match FindName(s1.list, p.name)
      case None =>
        var id := CreateId(s1.list, p.name, f.rands);
        NodeCarries(p, id);
        assert ([NodeFor(p, id)] + s1.list)[0] == NodeFor(p, id);
      case Some(i) =>
        var n := NodeFor(p, s1.list[i].tokenId);
        NodeCarries(p, n.tokenId);
        assert s1.list[i := n][i] == n;
    }
  }

  /** With a committed write the disk holds them too. */
  lemma CallStoresOnDisk(s: Proc, p: Params, f: CallFaults)
    requires Mirror(s) && WritesSucceed(Invoke(p, f)) && Call(s, p, f).tokenId != 0
    ensures Healthy(Call(s, p, f).proc.disk) && Holds(OnDisk(Call(s, p, f).proc.disk), p, Call(s, p, f).tokenId)
  {
    hide Call, Holds, OnDisk, Healthy;
    CallStores(s, p, f);
    MirrorStep(s, Invoke(p, f));
    InitedOnId(s, p, f);
  }

  lemma InitedOnId(s: Proc, p: Params, f: CallFaults)
    ensures Call(s, p, f).tokenId != 0 ==> Call(s, p, f).proc.inited
  {
    hide CheckProcessInfo, CreateId, Save, Update, Init;
  }

  /** A call about one name leaves every other name's record on disk as it is. */
  lemma OthersKept(s: Proc, p: Params, f: CallFaults, q: Params, id: nat)
    requires Mirror(s) && f.read.mainReadOk && f.init.read.mainReadOk && q.name != p.name
    requires Holds(OnDisk(s.disk), q, id)
    ensures Healthy(Call(s, p, f).proc.disk) && Holds(OnDisk(Call(s, p, f).proc.disk), q, id)
  {
    hide CheckProcessInfo, AddNew, UpdateExisting, Init, Keyed, Healthy, OnDisk, Holds;
    CallMirror(s, p, f);
    if f.lockOk {
      MirrorInit(s, f);
      var s1 := EnsureInit(s, f);
      if s1.inited {
        if f.write.Failed? {
          FailedWriteKeepsDisk(s1, p, f);
        } else if CheckProcessInfo(p).Valid? {
          match FindName(s1.list, p.name)
          case None => MirrorAdd(s1, p, f); AddInited(s1, p, f); AddKeepsOthers(s1, p, f, q, id);
          case Some(i) => MirrorUpdate(s1, i, p, f); UpdateInited(s1, i, p, f); UpdateKeepsOthers(s1, i, p, f, q, id);
        }
      }
    }
  }

  lemma AddKeepsOthers(s: Proc, p: Params, f: CallFaults, q: Params, id: nat)
    requires Holds(s.list, q, id)
    ensures Holds(AddNew(s, p, f).proc.list, q, id)
  {
    hide Carries, CreateId, Save;
    var i :| 0 <= i < |s.list| && Carries(s.list[i], q, id);
    var l := AddNew(s, p, f).proc.list;
    assert l == s.list || l[i + 1] == s.list[i];
  }

  lemma UpdateKeepsOthers(s: Proc, i: nat, p: Params, f: CallFaults, q: Params, id: nat)
    requires i < |s.list| && s.list[i].name == p.name && p.name != q.name && Holds(s.list, q, id)
    ensures Holds(UpdateExisting(s, i, p, f).proc.list, q, id)
  {
    hide Update;
    var j :| 0 <= j < |s.list| && Carries(s.list[j], q, id);
    assert UpdateExisting(s, i, p, f).proc.list[j] == s.list[j];
  }

  predicate About(e: Event, name: string) {
    !e.Restart? && e.p.name == name
  }

  /** In every run of calls, restarts and crashes with the writes of completed calls succeeding: the parameters of a
      call that returned an ID are on disk, field by field, until the next call about the same name. */
  lemma {:induction false} ParamsDurable(s: Proc, evs: seq<Event>, i: nat)
    requires Mirror(s) && AllSucceed(evs) && i < |evs| && evs[i].Invoke? && Returned(s, evs, i) != 0
    requires forall j :: i < j < |evs| ==> !About(evs[j], evs[i].p.name)
    ensures Healthy(After(s, evs).disk) && Holds(OnDisk(After(s, evs).disk), evs[i].p, Returned(s, evs, i))
    decreases |evs|
  {
    hide Call, Holds, OnDisk, Healthy, CallSteps;
    var n := |evs| - 1;
    var pre := evs[..n];
    MirrorRun(s, pre, n);
    var t, e := After(s, pre), evs[n];
    if i == n {
      CallStoresOnDisk(t, e.p, e.f);
    } else {
      assert pre[..i] == evs[..i];
      ParamsDurable(s, pre, i);
      if e.Invoke? {
        OthersKept(t, e.p, e.f, evs[i].p, Returned(s, evs, i));
      } else if e.Crash? {
        var f := CrashIsCall(t, e.p, e.f, e.k);
        OthersKept(t, e.p, f, evs[i].p, Returned(s, evs, i));
      }
    }
  }

  // ---------------------------------------------------------------- what is refused

  predicate Sizes(ss: seq<string>, most: nat, longest: nat) {
    |ss| <= most && forall i :: 0 <= i < |ss| ==> 1 <= |ss[i]| <= longest
  }

  /** What the registry accepts of a caller. */
  predicate Acceptable(p: Params) {
    && 1 <= |p.name| <= 256
    && Sizes(p.dcaps, 32, 1024) && Sizes(p.perms, 1024, 256) && Sizes(p.acls, 1024, 256)
    && |p.acls| <= |p.perms|
    && (p.aplStr == "system_core" || p.aplStr == "system_basic" || p.aplStr == "normal")
  }

  lemma CheckedIff(p: Params)
    ensures CheckProcessInfo(p).Valid? <==> Acceptable(p)
  {
  }

  /** Anything else returns 0, and a running process is left as it was. */
  lemma RefusesOthers(s: Proc, p: Params, f: CallFaults)
    requires !Acceptable(p) || !f.lockOk
    ensures Call(s, p, f).tokenId == 0
    ensures s.inited ==> Call(s, p, f).proc == s
  {
    hide CheckProcessInfo, Init;
    CheckedIff(p);
  }

  /** A running process with a healthy disk serves every acceptable caller, if its file can be read and written and
      some draw within the limit is free. */
  lemma ServesAcceptable(s: Proc, p: Params, f: CallFaults, k: nat)
    requires s.inited && Mirror(s) && Acceptable(p) && f.lockOk && f.read.mainReadOk && !f.write.Failed?
    requires FirstFree(s.list, f.rands, k)
    ensures Call(s, p, f).tokenId != 0
    ensures FindName(s.list, p.name).None? ==> Call(s, p, f).tokenId == Drawn(f.rands[k].value, p.name)
  {
    hide CheckProcessInfo, AddNew, UpdateExisting, OnDisk, Healthy, CreateId, FirstFree, Drawn;
    CheckedIff(p);
    match FindName(s.list, p.name)
    case None => MirrorAdd(s, p, f); DrawsFirstFree(s.list, p.name, f.rands, k);
    case Some(i) => MirrorUpdate(s, i, p, f); StoredId(s.disk, i);
  }

  // ---------------------------------------------------------------- what is drawn

  /** Draw `k` is the first whose low 20 bits no listed ID has, and the draws before it were read. */
  predicate FirstFree(l: seq<TokenNode>, rands: seq<Option<nat>>, k: nat) {
    && k < 1000 && k < |rands|
    && (forall j :: 0 <= j <= k ==> rands[j].Some?)
    && (forall j :: 0 <= j < k ==> InUse(l, rands[j].value % 0x10_0000))
    && !InUse(l, rands[k].value % 0x10_0000)
  }

  /** Some listed ID has these low 20 bits. */
  predicate InUse(l: seq<TokenNode>, u: nat) {
    exists i :: 0 <= i < |l| && l[i].tokenId % 0x10_0000 == u
  }

  lemma InUseIff(l: seq<TokenNode>, u: nat)
    ensures InUse(l, u) <==> UniqueIdUsed(l, u)
  {
  }

  /** The ID made of a draw: version 1 in the top three bits, then the type, shell only for the debugging daemon. */
  function Drawn(r: nat, name: string): nat {
    0x2000_0000 + (if name == "hdcd" then 2 else 1) * 0x800_0000 + r % 0x10_0000
  }

  lemma {:induction false} SkipsUsed(l: seq<TokenNode>, rands: seq<Option<nat>>, i: nat, k: nat)
    requires FirstFree(l, rands, k) && i <= k
    ensures FreshUnique(l, rands, i) == Some(rands[k].value % UNIQUE_RANGE)
    decreases k - i
  {
    hide UniqueIdUsed, InUse;
    InUseIff(l, rands[i].value % UNIQUE_RANGE);
    if i < k {
      SkipsUsed(l, rands, i + 1, k);
    }
  }

  /** Used numbers are drawn again, and the ID carries the first free one of at most 1000. */
  lemma DrawsFirstFree(l: seq<TokenNode>, name: string, rands: seq<Option<nat>>, k: nat)
    requires FirstFree(l, rands, k)
    ensures CreateId(l, name, rands) == Drawn(rands[k].value, name) != 0
  {
    SkipsUsed(l, rands, 0, k);
  }

  /** No free draw among those that could be read, or among the first 1000, and there is no ID. */
  lemma {:induction false} DrawsNothing(l: seq<TokenNode>, name: string, rands: seq<Option<nat>>)
    requires forall k :: !FirstFree(l, rands, k)
    ensures CreateId(l, name, rands) == 0
  {
    if FreshUnique(l, rands, 0).Some? {
      var k := SettlesAt(l, rands, 0);
    }
  }

  /** All draws before `i` were read and are used. */
  predicate UsedBefore(l: seq<TokenNode>, rands: seq<Option<nat>>, i: nat) {
    i <= |rands| && forall j :: 0 <= j < i ==> rands[j].Some? && UniqueIdUsed(l, rands[j].value % UNIQUE_RANGE)
  }

  lemma {:induction false} SettlesAt(l: seq<TokenNode>, rands: seq<Option<nat>>, i: nat) returns (k: nat)
    requires FreshUnique(l, rands, i).Some? && UsedBefore(l, rands, i)
    ensures FirstFree(l, rands, k)
    decreases 1000 - i
  {
    hide UniqueIdUsed;
    if UniqueIdUsed(l, rands[i].value % UNIQUE_RANGE) {
      k := SettlesAt(l, rands, i + 1);
    } else {
      k := i;
      FreeAt(l, rands, k);
    }
  }

  lemma FreeAt(l: seq<TokenNode>, rands: seq<Option<nat>>, k: nat)
    requires UsedBefore(l, rands, k) && k < 1000 && k < |rands| && rands[k].Some?
    requires !UniqueIdUsed(l, rands[k].value % UNIQUE_RANGE)
    ensures FirstFree(l, rands, k)
  {
    hide UniqueIdUsed, InUse;
    InUseIff(l, rands[k].value % UNIQUE_RANGE);
    forall j | 0 <= j < k ensures InUse(l, rands[j].value % 0x10_0000) {
      InUseIff(l, rands[j].value % UNIQUE_RANGE);
    }
  }

  // ---------------------------------------------------------------- what is read and cleared

  /** A read takes the main file if it can; a missing or empty one is no document and no error. */
  lemma ReadsMainFirst(d: Disk, f: ReadFaults)
    requires f.mainReadOk
    ensures d.main.Doc? ==> ReadAndParse(d, f) == ReadResult(true, Some(d.main.v), d)
    ensures d.main == Missing || d.main == Empty ==> ReadAndParse(d, f) == ReadResult(true, None, d)
  {
  }

  /** Otherwise it takes the backup and restores the main file from it, as far as the write gets. */
  lemma ReadsBackupNext(d: Disk, f: ReadFaults)
    requires f.bakReadOk && d.bak.Doc?
    requires !f.mainReadOk || d.main == NotRegular || d.main == Unreadable || d.main == Garbled
    ensures var r := ReadAndParse(d, f);
      && r.ok && r.record == Some(d.bak.v) && r.disk.bak == d.bak
      && (f.restore != Failed ==> r.disk.main == Doc(d.bak.v))
      && (f.restore == Failed && d.main == NotRegular && f.removeOk ==> r.disk.main == Missing)
      && (f.restore == Failed && !(d.main == NotRegular && f.removeOk) ==> r.disk.main == d.main)
  {
  }

  /** With neither readable it fails and leaves the disk alone. */
  lemma ReadsNothing(d: Disk, f: ReadFaults)
    requires !f.bakReadOk || !d.bak.Doc?
    requires !f.mainReadOk || d.main == NotRegular || d.main == Unreadable || d.main == Garbled
    ensures ReadAndParse(d, f) == ReadResult(false, None, d)
  {
  }

  /** The document has records, each is readable, and the list has them last first. */
  predicate Listing(cs: seq<Json>, l: seq<TokenNode>) {
    |l| == |cs| > 0 && forall i :: 0 <= i < |cs| ==> DecodeNode(cs[i]) == Some(l[|cs| - 1 - i])
  }

  /** A document loads exactly as such a list. */
  lemma LoadsIff(v: Json, l: seq<TokenNode>)
    ensures LoadList(v) == Some(l) <==> Listing(Children(v), l)
  {
    hide DecodeNode, Listing;
    if LoadList(v) == Some(l) {
      LoadedIsListing(Children(v));
    }
    if Listing(Children(v), l) {
      ListingLoads(Children(v), l);
    }
  }

  lemma LoadedIsListing(cs: seq<Json>)
    requires cs != [] && AllDecode(cs)
    ensures Listing(cs, Reverse(Nodes(cs)))
  {
    hide DecodeNode;
    var l := Reverse(Nodes(cs));
    forall i | 0 <= i < |cs| ensures DecodeNode(cs[i]) == Some(l[|cs| - 1 - i]) {
      assert l[|cs| - 1 - i] == Nodes(cs)[i];
    }
  }

  lemma ListingLoads(cs: seq<Json>, l: seq<TokenNode>)
    requires Listing(cs, l)
    ensures cs != [] && AllDecode(cs) && Reverse(Nodes(cs)) == l
  {
    hide DecodeNode;
    assert AllDecode(cs);
    forall i | 0 <= i < |l| ensures Reverse(Nodes(cs))[i] == l[i] {
      var k := |cs| - 1 - i;
      assert DecodeNode(cs[k]) == Some(l[|cs| - 1 - k]);
    }
  }

  /** Start-up that finds nothing to load comes up empty: it drops the backup and empties the main file, as far as the
      system lets it, and succeeds exactly when the file could be opened and given its owner. */
  lemma StartsEmpty(d: Disk, f: InitFaults)
    requires var r := ReadAndParse(d, f.read); r.record.Some? ==> LoadList(r.record.value).None?
    ensures var r := Init(d, f);
      && r.list == [] && (r.ok <==> f.openOk && f.ownerOk)
      && (f.bakRemoveOk ==> r.disk.bak == Missing)
      && (f.openOk && (f.removeOk || d.main != NotRegular) ==> r.disk.main == Empty)
  {
    hide LoadList;
  }

  /** Start-up that finds a list loads it and succeeds. */
  lemma StartsLoaded(d: Disk, f: InitFaults, l: seq<TokenNode>)
    requires ReadAndParse(d, f.read).record.Some? && LoadList(ReadAndParse(d, f.read).record.value) == Some(l)
    ensures Init(d, f) == InitResult(true, l, ReadAndParse(d, f.read).disk)
  {
  }

  /** A save adds its record behind those of the document that was read, and an unreadable disk is an error. */
  lemma SavesBehind(d: Disk, n: TokenNode, rf: ReadFaults, w: Outcome)
    ensures var r, out := ReadAndParse(d, rf), Save(d, n, rf, w);
      && (out.ok <==> r.ok && w != Failed)
      && (out.ok && r.record.None? ==> out.disk.main == Doc(Arr([EncodeNode(n)])))
      && (out.ok && r.record.Some? && r.record.value.Arr? ==>
            out.disk.main == Doc(Arr(r.record.value.items + [EncodeNode(n)])))
      && (!out.ok ==> out.disk == r.disk)
  {
    hide EncodeNode;
    assert [] + [EncodeNode(n)] == [EncodeNode(n)];
  }
}
