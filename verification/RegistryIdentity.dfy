/** Who keeps which ID: within one process lifetime under arbitrary failures, and across restarts
    when writes succeed. */
module RegistryIdentity {
  import opened Options
  import opened TokenId
  import opened TokenJson
  import opened TokenRegistry
  import opened RegistryCrash

  /** Names are distinct, and so are the low 20 bits of the IDs. */
  predicate Keyed(l: seq<TokenNode>) {
    forall i, j :: 0 <= i < j < |l| ==>
      l[i].name != l[j].name && l[i].tokenId % UNIQUE_RANGE != l[j].tokenId % UNIQUE_RANGE
  }

  predicate Has(l: seq<TokenNode>, name: string, id: nat) {
    exists i :: 0 <= i < |l| && l[i].name == name && l[i].tokenId == id
  }

  /** Every (name, ID) pair is still there. */
  ghost predicate Grows(l: seq<TokenNode>, l': seq<TokenNode>) {
    forall name, id :: Has(l, name, id) ==> Has(l', name, id)
  }

  lemma KeyedPairs(l: seq<TokenNode>, n1: string, id1: nat, n2: string, id2: nat)
    requires Keyed(l) && Has(l, n1, id1) && Has(l, n2, id2)
    ensures n1 == n2 ==> id1 == id2
    ensures n1 != n2 ==> id1 % UNIQUE_RANGE != id2 % UNIQUE_RANGE
  {
  }

  lemma PushKeyed(l: seq<TokenNode>, n: TokenNode)
    requires Keyed(l) && FindName(l, n.name).None? && !UniqueIdUsed(l, n.tokenId % UNIQUE_RANGE)
    ensures Keyed([n] + l) && Grows(l, [n] + l) && Has([n] + l, n.name, n.tokenId)
  {
    var m := [n] + l;
    assert m[0] == n;
    assert forall k :: 0 < k < |m| ==> m[k] == l[k - 1];
    forall name, id | Has(l, name, id) ensures Has(m, name, id) {
      var i :| 0 <= i < |l| && l[i].name == name && l[i].tokenId == id;
      assert m[i + 1] == l[i];
    }
  }

  lemma RewriteKeyed(l: seq<TokenNode>, i: nat, n: TokenNode)
    requires i < |l| && l[i].name == n.name && l[i].tokenId == n.tokenId
    ensures Grows(l, l[i := n]) && Has(l[i := n], n.name, n.tokenId)
    ensures Keyed(l) ==> Keyed(l[i := n])
  {
    forall name, id | Has(l, name, id) ensures Has(l[i := n], name, id) {
      var k :| 0 <= k < |l| && l[k].name == name && l[k].tokenId == id;
      assert l[i := n][k].name == name;
    }
    assert l[i := n][i] == n;
  }

  lemma CreateIdFresh(l: seq<TokenNode>, name: string, rands: seq<Option<nat>>)
    ensures var id := CreateId(l, name, rands);
      id != INVALID_TOKEN_ID ==>
        && !UniqueIdUsed(l, id % UNIQUE_RANGE) && 0 < id <= INT_MAX && NativeKind(id)
        && id == NewId(id % UNIQUE_RANGE, name == HDC_PROCESS_NAME)
  {
    var u := FreshUnique(l, rands, 0);
    if u.Some? {
      NewIdMeaning(u.value, name == HDC_PROCESS_NAME);
    }
  }

  /** One call on an initialised process, whatever fails: the list stays keyed, no pair is lost, and a
      non-zero result is the ID the list holds for that name. */
  lemma ReadyKeepsPairs(s: Proc, p: Params, f: CallFaults)
    requires s.inited && Keyed(s.list)
    ensures var r := CallReady(s, p, f);
      && r.proc.inited && Keyed(r.proc.list) && Grows(s.list, r.proc.list)
      && (r.tokenId != 0 ==> Has(r.proc.list, p.name, r.tokenId))
  {
    match FindName(s.list, p.name)
    case None =>
      CreateIdFresh(s.list, p.name, f.rands);
      var id := CreateId(s.list, p.name, f.rands);
      if id != INVALID_TOKEN_ID {
        PushKeyed(s.list, NodeFor(p, id));
      }
    case Some(i) =>
      RewriteKeyed(s.list, i, NodeFor(p, s.list[i].tokenId));
      assert s.list[i].name == p.name;
      assert Has(s.list, p.name, s.list[i].tokenId);
  }

  // ---------------------------------------------------------------- one process lifetime

  predicate LoadsKeyed(c: Content) {
    c.Doc? && LoadList(c.v).Some? ==> Keyed(LoadList(c.v).value)
  }

  /** The starting condition: whatever could be loaded has distinct names and IDs. */
  predicate Sound(s: Proc) {
    if s.inited then Keyed(s.list) else LoadsKeyed(s.disk.main) && LoadsKeyed(s.disk.bak)
  }

  lemma CallKeepsSound(s: Proc, p: Params, f: CallFaults)
    requires Sound(s)
    ensures var r := Call(s, p, f);
      && Sound(r.proc) && (s.inited ==> r.proc.inited && Grows(s.list, r.proc.list))
      && (r.tokenId != 0 ==> r.proc.inited && Has(r.proc.list, p.name, r.tokenId))
  {
    hide DecodeNode, CallReady;
    if f.lockOk {
      var s1 := EnsureInit(s, f);
      assert Sound(s1);
      if s1.inited {
        ReadyKeepsPairs(s1, p, f);
      }
    }
  }

  predicate NoRestart(evs: seq<Event>) {
    forall i :: 0 <= i < |evs| ==> evs[i].Invoke?
  }

  lemma {:induction false} LifetimeGrows(s: Proc, evs: seq<Event>, k: nat)
    requires Sound(s) && NoRestart(evs) && k <= |evs|
    ensures Sound(After(s, evs))
    ensures var a := After(s, evs[..k]); a.inited ==> After(s, evs).inited && Grows(a.list, After(s, evs).list)
    decreases |evs|
  {
    if k == |evs| && evs == [] {
      assert evs[..k] == [];
    } else {
      var pre := evs[..|evs| - 1];
      LifetimeGrows(s, pre, if k == |evs| then |pre| else k);
      CallKeepsSound(After(s, pre), evs[|evs| - 1].p, evs[|evs| - 1].f);
      if k == |evs| {
        assert evs[..k] == evs;
      } else {
        assert pre[..k] == evs[..k];
      }
    }
  }

  lemma LifetimeResult(s: Proc, evs: seq<Event>, i: nat)
    requires Sound(s) && NoRestart(evs) && i < |evs| && Returned(s, evs, i) != 0
    ensures After(s, evs).inited && Has(After(s, evs).list, evs[i].p.name, Returned(s, evs, i))
  {
    LifetimeGrows(s, evs[..i], i);
    assert evs[..i + 1][..i] == evs[..i];
    CallKeepsSound(After(s, evs[..i]), evs[i].p, evs[i].f);
    LifetimeGrows(s, evs, i + 1);
  }

  /** Within one process lifetime, with reads, writes and locks failing at will: equal names always get
      equal IDs, and different names always get IDs with different low 20 bits. */
  lemma StableWithinLifetime(s: Proc, evs: seq<Event>, i: nat, j: nat)
    requires Sound(s) && NoRestart(evs) && i < |evs| && j < |evs|
    requires Returned(s, evs, i) != 0 && Returned(s, evs, j) != 0
    ensures evs[i].p.name == evs[j].p.name ==> Returned(s, evs, i) == Returned(s, evs, j)
    ensures evs[i].p.name != evs[j].p.name ==>
      Returned(s, evs, i) % UNIQUE_RANGE != Returned(s, evs, j) % UNIQUE_RANGE
  {
    LifetimeResult(s, evs, i);
    LifetimeResult(s, evs, j);
    LifetimeGrows(s, evs, |evs|);
    KeyedPairs(After(s, evs).list, evs[i].p.name, Returned(s, evs, i), evs[j].p.name, Returned(s, evs, j));
  }

  // ---------------------------------------------------------------- the list mirrors the file

  /** A disk this code wrote: blank, or a non-empty array of readable records with distinct names and IDs. */
  predicate Healthy(d: Disk) {
    || Blank(d.main)
    || (&& d.main.Doc? && d.main.v.Arr? && d.main.v.items != []
        && AllDecode(d.main.v.items) && Keyed(Nodes(d.main.v.items)))
  }

  /** The records on disk, newest first. */
  function OnDisk(d: Disk): seq<TokenNode>
    requires Healthy(d)
  {
    if Blank(d.main) then [] else Reverse(Nodes(d.main.v.items))
  }

  predicate Mirror(s: Proc) {
    Healthy(s.disk) && s.list == if s.inited then OnDisk(s.disk) else []
  }

  /** Reads are not disturbed and every completed call commits the main file it tries to write; a crashed call
      may leave it either way. Everything else (locking, random numbers, creating an empty file, the backup)
      may still fail. */
  predicate WritesSucceed(e: Event) {
    match e
    case Invoke(_, f) => f.read.mainReadOk && f.init.read.mainReadOk && !f.write.Failed?
    case Restart => true
    case Crash(_, f, _) => f.read.mainReadOk && f.init.read.mainReadOk
  }

  lemma ReverseKeyed(l: seq<TokenNode>)
    ensures Keyed(Reverse(l)) <==> Keyed(l)
  {
    var r := Reverse(l);
    if Keyed(l) {
      forall i, j | 0 <= i < j < |r|
        ensures r[i].name != r[j].name && r[i].tokenId % UNIQUE_RANGE != r[j].tokenId % UNIQUE_RANGE
      {
        var x, y := |l| - 1 - j, |l| - 1 - i;
        assert l[x].name != l[y].name;
      }
    }
    if Keyed(r) {
      forall i, j | 0 <= i < j < |l|
        ensures l[i].name != l[j].name && l[i].tokenId % UNIQUE_RANGE != l[j].tokenId % UNIQUE_RANGE
      {
        var x, y := |l| - 1 - j, |l| - 1 - i;
        assert r[x] == l[j] && r[y] == l[i];
        assert r[x].name != r[y].name;
      }
    }
  }

  lemma ValidNodeStorable(p: Params, id: nat)
    requires CheckProcessInfo(p).Valid? && 0 < id <= INT_MAX && NativeKind(id)
    ensures Storable(NodeFor(p, id))
  {
  }

  lemma DecodedId(v: Json)
    requires DecodeNode(v).Some?
    ensures var n := DecodeNode(v).value; 0 < n.tokenId <= INT_MAX && NativeKind(n.tokenId) && NamedAs(v, n.name)
  {
    hide GetItem, DecodeStrings;
  }

  lemma DecodeAppended(items: seq<Json>, n: TokenNode)
    requires AllDecode(items) && Storable(n)
    ensures AllDecode(items + [EncodeNode(n)])
    ensures Reverse(Nodes(items + [EncodeNode(n)])) == [n] + Reverse(Nodes(items))
  {
    hide DecodeNode;
    RoundTrip(n);
    var all := items + [EncodeNode(n)];
    assert all[|items|] == EncodeNode(n);
    assert forall i :: 0 <= i < |items| ==> all[i] == items[i];
    assert Nodes(all) == Nodes(items) + [n];
  }

  /** Appending a record does to the file what pushing the node does to the list. */
  lemma AppendMirrored(items: seq<Json>, n: TokenNode)
    requires AllDecode(items) && Keyed(Nodes(items)) && Storable(n)
    requires FindName(Reverse(Nodes(items)), n.name).None?
    requires !UniqueIdUsed(Reverse(Nodes(items)), n.tokenId % UNIQUE_RANGE)
    ensures var out := items + [EncodeNode(n)];
      AllDecode(out) && Keyed(Nodes(out)) && Reverse(Nodes(out)) == [n] + Reverse(Nodes(items))
  {
    hide DecodeNode, EncodeNode, Storable, Keyed, UniqueIdUsed;
    DecodeAppended(items, n);
    ReverseKeyed(Nodes(items));
    PushKeyed(Reverse(Nodes(items)), n);
    ReverseKeyed(Nodes(items + [EncodeNode(n)]));
  }

  /** The records of a healthy disk, oldest first. */
  function Records(d: Disk): (items: seq<Json>)
    requires Healthy(d)
    ensures AllDecode(items) && Keyed(Nodes(items)) && OnDisk(d) == Reverse(Nodes(items))
  {
    if Blank(d.main) then [] else d.main.v.items
  }

  lemma HealthyDoc(d: Disk, items: seq<Json>)
    requires d.main == Doc(Arr(items)) && items != [] && AllDecode(items) && Keyed(Nodes(items))
    ensures Healthy(d) && OnDisk(d) == Reverse(Nodes(items))
  {
  }

  lemma SavedDoc(d: Disk, n: TokenNode, rf: ReadFaults, w: Outcome)
    requires Healthy(d) && rf.mainReadOk
    ensures w.Failed? ==> Save(d, n, rf, w).disk == d
    ensures !w.Failed? ==> Save(d, n, rf, w).ok && Save(d, n, rf, w).disk.main == Doc(Arr(Records(d) + [EncodeNode(n)]))
  {
    hide DecodeNode, EncodeNode, Keyed;
  }

  /** What a save does to the records of a healthy disk that has neither the name nor the low bits yet. */
  lemma SaveOnDisk(d: Disk, n: TokenNode, rf: ReadFaults, w: Outcome)
    requires Healthy(d) && rf.mainReadOk && Storable(n)
    requires FindName(OnDisk(d), n.name).None? && !UniqueIdUsed(OnDisk(d), n.tokenId % UNIQUE_RANGE)
    ensures var d' := Save(d, n, rf, w).disk;
      Healthy(d') && OnDisk(d') == if w.Failed? then OnDisk(d) else [n] + OnDisk(d)
  {
    hide DecodeNode, EncodeNode, Storable, Keyed, UniqueIdUsed, Save, OnDisk, Healthy;
    SavedDoc(d, n, rf, w);
    if !w.Failed? {
      AppendMirrored(Records(d), n);
      HealthyDoc(Save(d, n, rf, w).disk, Records(d) + [EncodeNode(n)]);
    }
  }

  lemma MirrorAdd(s: Proc, p: Params, f: CallFaults)
    requires s.inited && Mirror(s) && f.read.mainReadOk && !f.write.Failed?
    requires CheckProcessInfo(p).Valid? && FindName(s.list, p.name).None?
    ensures Mirror(AddNew(s, p, f).proc)
    ensures AddNew(s, p, f).tokenId == CreateId(s.list, p.name, f.rands)
  {
    hide DecodeNode, EncodeNode, CheckProcessInfo, Save, CreateId, Storable, NativeKind, UniqueIdUsed, OnDisk, Healthy;
    CreateIdFresh(s.list, p.name, f.rands);
    var id := CreateId(s.list, p.name, f.rands);
    if id != INVALID_TOKEN_ID {
      ValidNodeStorable(p, id);
      SaveOnDisk(s.disk, NodeFor(p, id), f.read, f.write);
      SavedDoc(s.disk, NodeFor(p, id), f.read, f.write);
    }
  }

  /** In a keyed file the record found by name is the one at the mirrored position of the list. */
  lemma GoalAt(items: seq<Json>, name: string, i: nat)
    requires AllDecode(items) && Keyed(Nodes(items))
    requires FindName(Reverse(Nodes(items)), name) == Some(i)
    ensures i < |items| && GoalIndex(items, name) == Some(|items| - 1 - i)
  {
    hide DecodeNode;
    var k := |items| - 1 - i;
    var ns := Nodes(items);
    assert Reverse(ns)[i] == ns[k];
    forall x | 0 <= x < |items| ensures Named(items[x]) && (NamedAs(items[x], name) <==> x == k) {
      DecodedId(items[x]);
    }
    assert IsGoal(items, k, name);
    if GoalIndex(items, name).Some? {
      var g := GoalIndex(items, name).value;
      assert NamedAs(items[g], name);
    }
  }

  lemma DecodeUpdated(items: seq<Json>, k: nat, n: TokenNode)
    requires AllDecode(items) && k < |items| && Storable(n)
    requires Nodes(items)[k].name == n.name && Nodes(items)[k].tokenId == n.tokenId
    ensures UpdateItem(items[k], n).Some?
    ensures var out := items[k := UpdateItem(items[k], n).value];
      AllDecode(out) && Reverse(Nodes(out)) == Reverse(Nodes(items))[|items| - 1 - k := n]
  {
    hide DecodeNode, UpdateItem, Storable;
    UpdateRoundTrip(items[k], n);
    var out := items[k := UpdateItem(items[k], n).value];
    assert forall x :: 0 <= x < |items| && x != k ==> out[x] == items[x];
    assert Nodes(out) == Nodes(items)[k := n];
  }

  /** Rewriting the file record of a list node does to the file what rewriting the node does to the list. */
  lemma {:induction false} UpdateMirrored(items: seq<Json>, i: nat, n: TokenNode)
    requires AllDecode(items) && Keyed(Nodes(items)) && Storable(n)
    requires FindName(Reverse(Nodes(items)), n.name) == Some(i)
    requires Reverse(Nodes(items))[i].tokenId == n.tokenId
    ensures UpdateGoal(items, n).Some?
    ensures var out := UpdateGoal(items, n).value;
      |out| == |items| && AllDecode(out) && Keyed(Nodes(out)) && Reverse(Nodes(out)) == Reverse(Nodes(items))[i := n]
  {
    hide DecodeNode, UpdateItem, Storable, Keyed;
    var k := |items| - 1 - i;
    GoalAt(items, n.name, i);
    assert Nodes(items)[k] == Reverse(Nodes(items))[i];
    DecodeUpdated(items, k, n);
    var out := items[k := UpdateItem(items[k], n).value];
    ReverseKeyed(Nodes(items));
    RewriteKeyed(Reverse(Nodes(items)), i, n);
    ReverseKeyed(Nodes(out));
  }

  lemma UpdatedDoc(d: Disk, n: TokenNode, rf: ReadFaults, w: Outcome)
    requires Healthy(d) && rf.mainReadOk
    ensures var goal, r := UpdateGoal(Records(d), n), Update(d, n, rf, w);
      && (goal.None? ==> !r.ok && r.disk == d)
      && (goal.Some? && w.Failed? ==> !r.ok && r.disk == d)
      && (goal.Some? && !w.Failed? ==> r.ok && r.disk.main == Doc(Arr(goal.value)))
  {
    hide DecodeNode, UpdateItem, Keyed;
  }

  lemma {:induction false} NoGoal(items: seq<Json>, name: string)
    requires AllDecode(items) && FindName(Reverse(Nodes(items)), name).None?
    ensures GoalIndex(items, name).None?
  {
    hide DecodeNode;
    forall k | 0 <= k < |items| ensures !NamedAs(items[k], name) {
      DecodedId(items[k]);
      assert Reverse(Nodes(items))[|items| - 1 - k] == Nodes(items)[k];
    }
  }

  /** What an update does to the records of a healthy disk: nothing without a record of that name, else it rewrites
      that record. */
  lemma {:induction false} UpdateOnDisk(d: Disk, n: TokenNode, rf: ReadFaults, w: Outcome)
    requires Healthy(d) && rf.mainReadOk
    requires FindName(OnDisk(d), n.name).Some? ==>
      Storable(n) && OnDisk(d)[FindName(OnDisk(d), n.name).value].tokenId == n.tokenId
    ensures var r := Update(d, n, rf, w);
      && Healthy(r.disk) && (r.ok <==> FindName(OnDisk(d), n.name).Some? && !w.Failed?)
      && OnDisk(r.disk) == if r.ok then OnDisk(d)[FindName(OnDisk(d), n.name).value := n] else OnDisk(d)
  {
    hide DecodeNode, UpdateItem, Storable, Keyed, Update, OnDisk, Healthy;
    UpdatedDoc(d, n, rf, w);
    match FindName(OnDisk(d), n.name)
    case None => NoGoal(Records(d), n.name);
    case Some(i) =>
      UpdateMirrored(Records(d), i, n);
      if !w.Failed? {
        HealthyDoc(Update(d, n, rf, w).disk, UpdateGoal(Records(d), n).value);
      }
  }

  lemma StoredId(d: Disk, i: nat)
    requires Healthy(d) && i < |OnDisk(d)|
    ensures 0 < OnDisk(d)[i].tokenId <= INT_MAX && NativeKind(OnDisk(d)[i].tokenId)
  {
    hide DecodeNode;
    var items := Records(d);
    assert OnDisk(d)[i] == Nodes(items)[|items| - 1 - i];
    DecodedId(items[|items| - 1 - i]);
  }

  lemma MirrorUpdate(s: Proc, i: nat, p: Params, f: CallFaults)
    requires s.inited && Mirror(s) && f.read.mainReadOk && !f.write.Failed?
    requires CheckProcessInfo(p).Valid? && FindName(s.list, p.name) == Some(i)
    ensures Mirror(UpdateExisting(s, i, p, f).proc)
    ensures UpdateExisting(s, i, p, f).tokenId == s.list[i].tokenId
  {
    hide DecodeNode, CheckProcessInfo, Update, NativeKind, Storable, OnDisk, Healthy;
    StoredId(s.disk, i);
    ValidNodeStorable(p, s.list[i].tokenId);
    UpdateOnDisk(s.disk, NodeFor(p, s.list[i].tokenId), f.read, f.write);
  }

  lemma MirrorInit(s: Proc, f: CallFaults)
    requires Mirror(s) && f.init.read.mainReadOk
    ensures var s1 := EnsureInit(s, f);
      Mirror(s1) && OnDisk(s1.disk) == OnDisk(s.disk) && (s1.inited ==> Keyed(s1.list))
  {
    hide DecodeNode;
    if !Blank(s.disk.main) {
      ReverseKeyed(Nodes(s.disk.main.v.items));
    }
  }

  /** A call whose write fails leaves a healthy disk as it was. */
  lemma FailedWriteKeepsDisk(s: Proc, p: Params, f: CallFaults)
    requires Healthy(s.disk) && f.read.mainReadOk && f.write.Failed?
    ensures CallReady(s, p, f).proc.disk == s.disk
  {
    hide DecodeNode, EncodeNode, UpdateGoal, CheckProcessInfo, CreateId, Keyed;
  }

  lemma HealthyKeyed(d: Disk)
    requires Healthy(d)
    ensures Keyed(OnDisk(d))
  {
    if !Blank(d.main) {
      ReverseKeyed(Nodes(d.main.v.items));
    }
  }

  lemma CallMirror(s: Proc, p: Params, f: CallFaults)
    requires Mirror(s) && f.read.mainReadOk && f.init.read.mainReadOk
    ensures var r := Call(s, p, f);
      && Healthy(r.proc.disk) && Grows(OnDisk(s.disk), OnDisk(r.proc.disk))
      && (!f.write.Failed? ==>
            Mirror(r.proc) && (r.tokenId != 0 ==> Has(OnDisk(r.proc.disk), p.name, r.tokenId)))
  {
    hide DecodeNode, CheckProcessInfo, AddNew, UpdateExisting, Has, Keyed, Healthy, OnDisk;
    if f.lockOk {
      MirrorInit(s, f);
      var s1 := EnsureInit(s, f);
      if s1.inited {
        ReadyKeepsPairs(s1, p, f);
        if f.write.Failed? {
          FailedWriteKeepsDisk(s1, p, f);
        } else if CheckProcessInfo(p).Valid? {
          match FindName(s1.list, p.name)
          case None => MirrorAdd(s1, p, f); AddInited(s1, p, f);
          case Some(i) => MirrorUpdate(s1, i, p, f); UpdateInited(s1, i, p, f);
        }
      }
    }
  }

  lemma AddInited(s: Proc, p: Params, f: CallFaults)
    requires s.inited
    ensures AddNew(s, p, f).proc.inited
  {
    hide Save, CreateId;
  }

  lemma UpdateInited(s: Proc, i: nat, p: Params, f: CallFaults)
    requires s.inited && i < |s.list|
    ensures UpdateExisting(s, i, p, f).proc.inited
  {
    hide Update;
  }

  /** One event with successful writes keeps the list equal to the reversed record array, loses no pair,
      and returns what the disk holds. */
  lemma MirrorStep(s: Proc, e: Event)
    requires Mirror(s) && WritesSucceed(e)
    ensures var r := Step(s, e);
      && Mirror(r.proc) && Grows(OnDisk(s.disk), OnDisk(r.proc.disk)) && Keyed(OnDisk(r.proc.disk))
      && (e.Invoke? && r.tokenId != 0 ==> Has(OnDisk(r.proc.disk), e.p.name, r.tokenId))
  {
    hide Call, CallSteps, Keyed, Healthy, OnDisk, Has;
    if e.Invoke? {
      CallMirror(s, e.p, e.f);
    } else if e.Crash? {
      var f := CrashIsCall(s, e.p, e.f, e.k);
      CallMirror(s, e.p, f);
    }
    HealthyKeyed(Step(s, e).proc.disk);
  }

  ghost predicate AllSucceed(evs: seq<Event>) {
    forall i :: 0 <= i < |evs| ==> WritesSucceed(evs[i])
  }

  /** In every run of calls, restarts and crashes, with the writes of completed calls succeeding, from a blank
      disk or one this code wrote, the in-memory list is the reverse of the record array on disk, in all fields. */
  lemma {:induction false} MirrorRun(s: Proc, evs: seq<Event>, k: nat)
    requires Mirror(s) && AllSucceed(evs) && k <= |evs|
    ensures Mirror(After(s, evs))
    ensures Mirror(After(s, evs[..k])) && Grows(OnDisk(After(s, evs[..k]).disk), OnDisk(After(s, evs).disk))
    decreases |evs|
  {
    if evs == [] {
      assert evs[..k] == [];
    } else {
      var pre := evs[..|evs| - 1];
      MirrorRun(s, pre, if k == |evs| then |pre| else k);
      MirrorStep(After(s, pre), evs[|evs| - 1]);
      if k == |evs| {
        assert evs[..k] == evs;
      } else {
        assert pre[..k] == evs[..k];
      }
    }
  }

  lemma DurableResult(s: Proc, evs: seq<Event>, i: nat)
    requires Mirror(s) && AllSucceed(evs) && i < |evs| && evs[i].Invoke? && Returned(s, evs, i) != 0
    ensures Mirror(After(s, evs)) && Has(OnDisk(After(s, evs).disk), evs[i].p.name, Returned(s, evs, i))
  {
    MirrorRun(s, evs[..i], i);
    assert evs[..i + 1][..i] == evs[..i];
    MirrorStep(After(s, evs[..i]), evs[i]);
    MirrorRun(s, evs, i + 1);
  }

  /** Across any number of restarts and crashes in mid-call, with the writes of completed calls succeeding: one
      name, one ID; two names, two IDs. */
  lemma StableAcrossRestarts(s: Proc, evs: seq<Event>, i: nat, j: nat)
    requires Mirror(s) && AllSucceed(evs) && i < |evs| && j < |evs| && evs[i].Invoke? && evs[j].Invoke?
    requires Returned(s, evs, i) != 0 && Returned(s, evs, j) != 0
    ensures evs[i].p.name == evs[j].p.name ==> Returned(s, evs, i) == Returned(s, evs, j)
    ensures evs[i].p.name != evs[j].p.name ==>
      Returned(s, evs, i) % UNIQUE_RANGE != Returned(s, evs, j) % UNIQUE_RANGE
  {
    DurableResult(s, evs, i);
    DurableResult(s, evs, j);
    var d := After(s, evs).disk;
    HealthyKeyed(d);
    KeyedPairs(OnDisk(d), evs[i].p.name, Returned(s, evs, i), evs[j].p.name, Returned(s, evs, j));
  }
}
