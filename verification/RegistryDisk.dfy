/** What the token file and the in-memory list can say about each other when things go wrong:
    start-up from arbitrary disk content, and calls whose writes fail. */
module RegistryDisk {
  import opened Options
  import opened TokenId
  import opened TokenJson
  import opened TokenRegistry
  import opened RegistryCrash
  import opened RegistryIdentity

  /** The document an undisturbed read returns. */
  function Current(d: Disk): Option<Json> {
    if d.main.Doc? then Some(d.main.v)
    else if Blank(d.main) then None
    else if d.bak.Doc? then Some(d.bak.v)
    else None
  }

  /** `Current` is what the reader returns when nothing disturbs it, whatever the restore write does. */
  lemma CurrentIsRead(d: Disk, f: ReadFaults)
    requires f.mainReadOk && f.bakReadOk
    ensures ReadAndParse(d, f).record == Current(d)
    ensures ReadAndParse(d, f).ok <==> Blank(d.main) || d.main.Doc? || d.bak.Doc?
  {
  }

  // ---------------------------------------------------------------- start-up

  /** The list is the reversed record array that a read would now return, or both are empty. */
  predicate Agrees(list: seq<TokenNode>, d: Disk) {
    match Current(d)
    case None => list == [] && Blank(d.main)
    case Some(v) => LoadList(v) == Some(list)
  }

  /** Whether start-up falls back to the backup and loads it. */
  predicate LoadsBackup(d: Disk, f: ReadFaults) {
    FallsBack(d, f) && LoadList(d.bak.v).Some?
  }

  /** The restoring write fails and a main file that a later read would trust is left in its place:
      none at all because the odd node was removed, or one that could not be read at this moment and says
      something else. */
  predicate RestoreLost(d: Disk, f: ReadFaults) {
    var main := RemoveInvalid(d.main, f.removeOk);
    && LoadsBackup(d, f) && f.restore.Failed?
    && (Blank(main) || (main.Doc? && LoadList(main.v) != LoadList(d.bak.v)))
  }

  /** A node that is no regular file stays in the place of the main file although start-up clears it: a link that
      could not be removed but could be opened. */
  predicate LinkKept(d: Disk, f: InitFaults) {
    var r := ReadAndParse(d, f.read);
    !Loads(r) && RemoveInvalid(r.disk.main, f.removeOk).NotRegular?
  }

  /** From any disk content, a successful start-up ends with the list agreeing with the disk, exactly
      unless the restore was lost or a link stays. */
  lemma InitAgrees(d: Disk, f: InitFaults)
    requires Init(d, f).ok
    ensures Agrees(Init(d, f).list, Init(d, f).disk) <==> !RestoreLost(d, f.read) && !LinkKept(d, f)
  {
    hide DecodeNode;
    var r := ReadAndParse(d, f.read);
    if LoadsBackup(d, f.read) {
      assert r.record == Some(d.bak.v);
      assert LoadList(d.bak.v).value != [];
    }
  }

  /** In particular, when any restoring write commits, it agrees exactly unless a link stays. */
  lemma InitAgreesWhenRestored(d: Disk, f: InitFaults)
    requires Init(d, f).ok && !f.read.restore.Failed?
    ensures Agrees(Init(d, f).list, Init(d, f).disk) <==> !LinkKept(d, f)
  {
    InitAgrees(d, f);
  }

  /** The failing family is reachable: a directory at the main path is removed, the restore fails, and the
      list loaded from the backup now faces a missing file. The next added token then commits a file
      that has lost every earlier record. */
  lemma RestoreLossExample(n: TokenNode, p: Params, read: ReadFaults)
    requires Storable(n) && CheckProcessInfo(p).Valid? && p.name != n.name && read.mainReadOk
    ensures var d := Disk(NotRegular, Doc(Arr([EncodeNode(n)])));
      var f := InitFaults(ReadFaults(true, true, true, Failed), true, true, true, true);
      && Init(d, f) == InitResult(true, [n], d.(main := Missing))
      && forall r: nat | r % UNIQUE_RANGE != n.tokenId % UNIQUE_RANGE ::
           var s := AddNew(Proc(true, [n], d.(main := Missing)), p, CallFaults(true, f, [Some(r)], read, Both)).proc;
           exists m :: s.list == [m, n] && s.disk == Disk(Doc(Arr([EncodeNode(m)])), Doc(Arr([EncodeNode(m)])))
  {
    hide DecodeNode, EncodeNode, Storable, CheckProcessInfo;
    RoundTrip(n);
    var items := [EncodeNode(n)];
    assert items[0] == EncodeNode(n) && AllDecode(items);
    assert Reverse(Nodes(items)) == [n];
    var d := Disk(NotRegular, Doc(Arr(items)));
    var f := InitFaults(ReadFaults(true, true, true, Failed), true, true, true, true);
    forall r: nat | r % UNIQUE_RANGE != n.tokenId % UNIQUE_RANGE
      ensures var s := AddNew(Proc(true, [n], d.(main := Missing)), p, CallFaults(true, f, [Some(r)], read, Both)).proc;
              exists m :: s.list == [m, n] && s.disk == Disk(Doc(Arr([EncodeNode(m)])), Doc(Arr([EncodeNode(m)])))
    {
      AddAfterLoss(d.(main := Missing), n, p, CallFaults(true, f, [Some(r)], read, Both), r);
    }
  }

  lemma AddAfterLoss(d: Disk, n: TokenNode, p: Params, f: CallFaults, r: nat)
    requires Blank(d.main) && f.read.mainReadOk && f.rands == [Some(r)] && f.write == Both
    requires r % UNIQUE_RANGE != n.tokenId % UNIQUE_RANGE
    ensures var s := AddNew(Proc(true, [n], d), p, f).proc;
      exists m :: s.list == [m, n] && s.disk == Disk(Doc(Arr([EncodeNode(m)])), Doc(Arr([EncodeNode(m)])))
  {
    hide EncodeNode;
    var u := r % UNIQUE_RANGE;
    assert !UniqueIdUsed([n], u);
    assert FreshUnique([n], f.rands, 0) == Some(u);
    NewIdMeaning(u, p.name == HDC_PROCESS_NAME);
    var m := NodeFor(p, CreateId([n], p.name, f.rands));
    var s := AddNew(Proc(true, [n], d), p, f).proc;
    assert Append(Arr([]), EncodeNode(m)) == Arr([EncodeNode(m)]);
    assert s.list == [m, n];
  }

  // ---------------------------------------------------------------- is the disk ahead of memory?

  /** The record is readable and its (name, ID) pair is in the list. */
  predicate RecordCovered(list: seq<TokenNode>, c: Json) {
    DecodeNode(c).Some? && Has(list, DecodeNode(c).value.name, DecodeNode(c).value.tokenId)
  }

  predicate Covered(list: seq<TokenNode>, v: Json) {
    var cs := Children(v);
    forall i :: 0 <= i < |cs| ==> RecordCovered(list, cs[i])
  }

  /** Every record of the document, if there is one, is in the list. */
  predicate Shows(list: seq<TokenNode>, v: Option<Json>) {
    v.Some? ==> Covered(list, v.value)
  }

  /** Every record that a read would now return is readable and its (name, ID) pair is in the list. */
  predicate NotAhead(s: Proc) {
    s.inited ==> Shows(s.list, Current(s.disk))
  }

  lemma CoveredGrows(l: seq<TokenNode>, l': seq<TokenNode>, v: Json)
    requires Grows(l, l')
    ensures Covered(l, v) ==> Covered(l', v)
  {
    hide DecodeNode, Has;
  }

  /** Reading (with its side effect of restoring the main file) never brings new records forward. */
  lemma ReadKeepsCurrent(d: Disk, f: ReadFaults)
    requires f.mainReadOk
    ensures var r := ReadAndParse(d, f);
      && (Current(r.disk) == Current(d) || Current(r.disk) == None)
      && (r.record.Some? ==> r.record == Current(d))
  {
  }

  lemma CoveredAppend(l: seq<TokenNode>, v: Json, n: TokenNode)
    requires Storable(n) && Has(l, n.name, n.tokenId)
    ensures Covered(l, Append(v, EncodeNode(n))) <==> Covered(l, v)
  {
    hide DecodeNode, EncodeNode, Has, Storable;
    RoundTrip(n);
    var cs, out := Children(v), Children(Append(v, EncodeNode(n)));
    assert forall i :: 0 <= i < |cs| ==> out[i] == cs[i];
  }

  /** Rewriting a readable record keeps it readable and keeps its name and ID, whatever node is written. */
  lemma UpdateKeepsPair(v: Json, n: TokenNode)
    requires DecodeNode(v).Some? && Storable(n)
    ensures UpdateItem(v, n).Some? && DecodeNode(UpdateItem(v, n).value).Some?
    ensures DecodeNode(UpdateItem(v, n).value).value.name == DecodeNode(v).value.name
    ensures DecodeNode(UpdateItem(v, n).value).value.tokenId == DecodeNode(v).value.tokenId
  {
    DecodedId(v);
    var old' := DecodeNode(v).value;
    var m := n.(name := old'.name, tokenId := old'.tokenId);
    assert UpdateItem(v, m) == UpdateItem(v, n);
    assert Storable(m) by {
      assert |old'.name| <= MAX_PROCESS_NAME_LEN;
    }
    UpdateRoundTrip(v, m);
  }

  lemma WithChildrenOf(v: Json, items: seq<Json>)
    requires |items| == |Children(v)|
    ensures Children(WithChildren(v, items)) == items
  {
    if v.Obj? {
      assert Children(WithChildren(v, items)) == items;
    }
  }

  /** The document whose records a read finds after a save or an update, up to the record being written: the main
      file if it was read, the backup if it was read instead and any write landed, else what is left. */
  function Basis(d: Disk, rf: ReadFaults, landed: bool): Option<Json> {
    if FallsBack(d, rf) then
      if landed || !rf.restore.Failed? then Some(d.bak.v)
      else Current(d.(main := RemoveInvalid(d.main, rf.removeOk)))
    else Current(d)
  }

  /** A save leaves the disk covered exactly when its basis is. */
  lemma SaveShows(l: seq<TokenNode>, d: Disk, n: TokenNode, rf: ReadFaults, w: Outcome)
    requires Storable(n) && Has(l, n.name, n.tokenId)
    ensures Shows(l, Current(Save(d, n, rf, w).disk)) <==> Shows(l, Basis(d, rf, !w.Failed?))
  {
    hide DecodeNode, EncodeNode, Has, Storable, Covered;
    var r := ReadAndParse(d, rf);
    EmptyCovered(l);
    CoveredAppend(l, Base(r), n);
  }

  /** A backup that is read in place of a main file which could not be read at this moment. */
  predicate UnreadMain(d: Disk, rf: ReadFaults) {
    !rf.mainReadOk && rf.bakReadOk && d.bak.Doc?
  }

  /** If the list covers the disk, a save breaks this exactly by bringing an uncovered backup forward. */
  lemma SaveNotAhead(l: seq<TokenNode>, d: Disk, n: TokenNode, rf: ReadFaults, w: Outcome)
    requires Storable(n) && Has(l, n.name, n.tokenId) && Shows(l, Current(d))
    ensures Shows(l, Current(Save(d, n, rf, w).disk)) <==>
      !(UnreadMain(d, rf) && !(rf.restore.Failed? && w.Failed?) && !Covered(l, d.bak.v))
  {
    hide EncodeNode, Has, Storable, Covered, Save;
    SaveShows(l, d, n, rf, w);
  }

  lemma EmptyCovered(l: seq<TokenNode>)
    ensures Covered(l, Arr([]))
  {
  }

  /** Name and ID of the record are readable and in the list, whatever its other items are. */
  predicate PairCovered(list: seq<TokenNode>, c: Json) {
    var name, id := DecodeName(GetItem(c, PROCESS_KEY)), DecodeId(GetItem(c, TOKENID_KEY));
    name.Some? && id.Some? && Has(list, name.value, id.value)
  }

  /** All records but number `k` are covered, and of that one at least the pair. */
  predicate CoveredBut(list: seq<TokenNode>, v: Json, k: nat) {
    var cs := Children(v);
    && (forall i :: 0 <= i < |cs| && i != k ==> RecordCovered(list, cs[i]))
    && (k < |cs| ==> PairCovered(list, cs[k]))
  }

  /** With a storable node's other items, a record is readable exactly when its name and ID are. */
  lemma MixedItems(m: TokenNode, name: Option<Json>, id: Option<Json>)
    requires Storable(m)
    ensures var r := DecodeItems(ItemsFor(m).(name := name, tokenId := id));
      && (r.Some? <==> DecodeName(name).Some? && DecodeId(id).Some?)
      && (r.Some? ==> r.value.name == DecodeName(name).value && r.value.tokenId == DecodeId(id).value)
  {
    ItemsBack(m);
    hide Storable, DecodeStrings, DecodeApl, DecodeUid, DecodeName, DecodeId, StrArray;
  }

  /** Rewriting a record makes it readable exactly when its name and ID were. */
  lemma RewrittenCovered(l: seq<TokenNode>, v: Json, n: TokenNode, id: nat)
    requires UpdateItem(v, n).Some? && Storable(n.(tokenId := id))
    ensures RecordCovered(l, UpdateItem(v, n).value) <==> PairCovered(l, v)
  {
    hide Has, Storable, UpdateItem, GetItem, DecodeItems, DecodeName, DecodeId;
    SameUpdate(v, n, id);
    UpdatedItems(v, n.(tokenId := id));
    MixedItems(n.(tokenId := id), ItemsOf(v).name, ItemsOf(v).tokenId);
  }

  /** Whether an update finds its record and commits the rewritten document. */
  predicate Lands(d: Disk, n: TokenNode, rf: ReadFaults, w: Outcome) {
    var r := ReadAndParse(d, rf);
    (r.ok || r.record.Some?) && UpdateGoal(Children(Base(r)), n).Some? && !w.Failed?
  }

  lemma CoveredUpdate(l: seq<TokenNode>, v: Json, n: TokenNode, id: nat)
    requires Storable(n.(tokenId := id)) && UpdateGoal(Children(v), n).Some?
    ensures |UpdateGoal(Children(v), n).value| == |Children(v)|
    ensures Covered(l, WithChildren(v, UpdateGoal(Children(v), n).value)) <==>
      CoveredBut(l, v, GoalIndex(Children(v), n.name).value)
  {
    hide UpdateItem, Storable, RecordCovered, PairCovered;
    var cs := Children(v);
    var k := GoalIndex(cs, n.name).value;
    RewrittenCovered(l, cs[k], n, id);
    var out := UpdateGoal(cs, n).value;
    WithChildrenOf(v, out);
    assert out[k] == UpdateItem(cs[k], n).value;
    forall i | 0 <= i < |cs| && i != k ensures RecordCovered(l, out[i]) <==> RecordCovered(l, cs[i]) {
      assert out[i] == cs[i];
    }
  }

  /** Whether an update leaves the disk covered, told from the disk before it. */
  predicate UpdateShows(l: seq<TokenNode>, d: Disk, n: TokenNode, rf: ReadFaults, w: Outcome) {
    if Lands(d, n, rf, w) then
      var v := Base(ReadAndParse(d, rf));
      CoveredBut(l, v, GoalIndex(Children(v), n.name).value)
    else Shows(l, Basis(d, rf, false))
  }

  lemma UpdateShowsIff(l: seq<TokenNode>, d: Disk, n: TokenNode, id: nat, rf: ReadFaults, w: Outcome)
    requires Storable(n.(tokenId := id))
    ensures Shows(l, Current(Update(d, n, rf, w).disk)) <==> UpdateShows(l, d, n, rf, w)
  {
    hide DecodeNode, UpdateGoal, Storable, Covered, CoveredBut, WithChildren, GoalIndex;
    var r := ReadAndParse(d, rf);
    if Lands(d, n, rf, w) {
      CoveredUpdate(l, Base(r), n, id);
      assert Current(Update(d, n, rf, w).disk)
          == Some(WithChildren(Base(r), UpdateGoal(Children(Base(r)), n).value));
    }
  }

  lemma CoveredIsBut(l: seq<TokenNode>, v: Json, k: nat)
    ensures Covered(l, v) ==> CoveredBut(l, v, k)
  {
    hide Has;
  }

  /** If the list covers the disk, an update breaks this exactly by bringing an uncovered backup forward. */
  lemma UpdateNotAhead(l: seq<TokenNode>, d: Disk, n: TokenNode, id: nat, rf: ReadFaults, w: Outcome)
    requires Storable(n.(tokenId := id)) && Shows(l, Current(d))
    ensures Shows(l, Current(Update(d, n, rf, w).disk)) <==>
      !(UnreadMain(d, rf) &&
        if Lands(d, n, rf, w) then !CoveredBut(l, d.bak.v, GoalIndex(Children(d.bak.v), n.name).value)
        else !rf.restore.Failed? && !Covered(l, d.bak.v))
  {
    hide DecodeNode, UpdateItem, Storable, Covered, CoveredBut, Update, GoalIndex;
    UpdateShowsIff(l, d, n, id, rf, w);
    if Lands(d, n, rf, w) {
      var v := Base(ReadAndParse(d, rf));
      CoveredIsBut(l, v, GoalIndex(Children(v), n.name).value);
      EmptyGoal(n);
    }
  }

  lemma EmptyGoal(n: TokenNode)
    ensures UpdateGoal(Children(Arr([])), n).None?
  {
  }

  /** Whether a call on an initialised process leaves the disk covered, told from the state before it. */
  predicate ReadyShows(s: Proc, p: Params, f: CallFaults) {
    if CheckProcessInfo(p).Invalid? then Shows(s.list, Current(s.disk))
    else match FindName(s.list, p.name)
      case None =>
        var id := CreateId(s.list, p.name, f.rands);
        if id == INVALID_TOKEN_ID then Shows(s.list, Current(s.disk))
        else Shows([NodeFor(p, id)] + s.list, Basis(s.disk, f.read, !f.write.Failed?))
      case Some(i) =>
        var n := NodeFor(p, s.list[i].tokenId);
        if n == s.list[i] then Shows(s.list, Current(s.disk))
        else UpdateShows(s.list, s.disk, n, f.read, f.write)
  }

  lemma SamePairs(l: seq<TokenNode>, i: nat, n: TokenNode, v: Option<Json>)
    requires i < |l| && l[i].name == n.name && l[i].tokenId == n.tokenId
    ensures Shows(l, v) <==> Shows(l[i := n], v)
  {
    hide Has, Covered;
    RewriteKeyed(l, i, n);
    assert l[i := n][i := l[i]] == l;
    RewriteKeyed(l[i := n], i, l[i]);
    if v.Some? {
      CoveredGrows(l, l[i := n], v.value);
      CoveredGrows(l[i := n], l, v.value);
    }
  }

  lemma ReadyNotAhead(s: Proc, p: Params, f: CallFaults)
    requires s.inited
    ensures NotAhead(CallReady(s, p, f).proc) <==> ReadyShows(s, p, f)
  {
    hide DecodeNode, EncodeNode, CheckProcessInfo, Storable, Covered, Save, Update, CreateId, Has, NativeKind,
      UpdateShows, Basis;
    if CheckProcessInfo(p).Valid? {
      match FindName(s.list, p.name)
      case None =>
        var id := CreateId(s.list, p.name, f.rands);
        CreateIdFresh(s.list, p.name, f.rands);
        if id != INVALID_TOKEN_ID {
          var n := NodeFor(p, id);
          ValidNodeStorable(p, id);
          PushGrows(s.list, n);
          SaveShows([n] + s.list, s.disk, n, f.read, f.write);
        }
      case Some(i) =>
        var n := NodeFor(p, s.list[i].tokenId);
        FirstIdNative();
        NewIdMeaning(0, false);
        ValidNodeStorable(p, NewId(0, false));
        SamePairs(s.list, i, n, Current(Update(s.disk, n, f.read, f.write).disk));
        UpdateShowsIff(s.list, s.disk, n, NewId(0, false), f.read, f.write);
    }
  }

  lemma FirstIdNative()
    ensures NativeKind(NewId(0, false))
  {
    NewIdMeaning(0, false);
  }

  lemma PushGrows(l: seq<TokenNode>, n: TokenNode)
    ensures Grows(l, [n] + l) && Has([n] + l, n.name, n.tokenId)
  {
    var m := [n] + l;
    assert m[0] == n;
    forall name, id | Has(l, name, id) ensures Has(m, name, id) {
      var i :| 0 <= i < |l| && l[i].name == name && l[i].tokenId == id;
      assert m[i + 1] == l[i];
    }
  }

  /** Start-up leaves the disk ahead: it loaded an older backup in place of a main file that it could not read and
      could not restore, or it came up empty while a link hides the main file and the backup could not be dropped. */
  predicate InitAhead(d: Disk, f: InitFaults) {
    || (LoadsBackup(d, f.read) && f.read.restore.Failed? && d.main.Doc? && !Covered(LoadList(d.bak.v).value, d.main.v))
    || (LinkKept(d, f) && !f.bakRemoveOk && d.bak.Doc? && Children(d.bak.v) != [])
  }

  lemma InitNotAhead(d: Disk, f: InitFaults)
    requires Init(d, f).ok
    ensures NotAhead(Proc(true, Init(d, f).list, Init(d, f).disk)) <==> !InitAhead(d, f)
  {
    hide DecodeNode, Covered, LoadList;
    var r := ReadAndParse(d, f.read);
    if Loads(r) {
      LoadedCovered(r.record.value);
    } else if d.bak.Doc? {
      NothingCovered(d.bak.v);
    }
  }

  lemma NothingCovered(v: Json)
    ensures Covered([], v) <==> Children(v) == []
  {
    if Children(v) != [] {
      assert !RecordCovered([], Children(v)[0]);
    }
  }

  lemma LoadedCovered(v: Json)
    requires LoadList(v).Some?
    ensures Covered(LoadList(v).value, v)
  {
    hide DecodeNode;
    var cs, l := Children(v), LoadList(v).value;
    forall i | 0 <= i < |cs|
      ensures DecodeNode(cs[i]).Some? && Has(l, DecodeNode(cs[i]).value.name, DecodeNode(cs[i]).value.tokenId)
    {
      assert l[|cs| - 1 - i] == Nodes(cs)[i];
    }
  }

  /** Whether a call on an initialised process gets as far as a file. */
  predicate TouchesFile(s: Proc, p: Params, f: CallFaults) {
    CheckProcessInfo(p).Valid? &&
    match FindName(s.list, p.name)
    case None => CreateId(s.list, p.name, f.rands) != INVALID_TOKEN_ID
    case Some(i) => NodeFor(p, s.list[i].tokenId) != s.list[i]
  }

  /** A call puts a covered disk ahead: it reads the backup in place of a main file that it cannot read at this moment,
      one of its writes lands, and the backup has a record that the list lacks. */
  predicate BringsBackup(s: Proc, p: Params, f: CallFaults) {
    && TouchesFile(s, p, f) && UnreadMain(s.disk, f.read)
    && match FindName(s.list, p.name)
       case None =>
         && !(f.read.restore.Failed? && f.write.Failed?)
         && !Covered([NodeFor(p, CreateId(s.list, p.name, f.rands))] + s.list, s.disk.bak.v)
       case Some(i) =>
         var n := NodeFor(p, s.list[i].tokenId);
         if Lands(s.disk, n, f.read, f.write)
         then !CoveredBut(s.list, s.disk.bak.v, GoalIndex(Children(s.disk.bak.v), n.name).value)
         else !f.read.restore.Failed? && !Covered(s.list, s.disk.bak.v)
  }

  /** From a covered disk these are all the calls that do. */
  lemma ReadyAheadIff(s: Proc, p: Params, f: CallFaults)
    requires s.inited && NotAhead(s)
    ensures ReadyShows(s, p, f) <==> !BringsBackup(s, p, f)
  {
    hide DecodeNode, EncodeNode, Covered, CheckProcessInfo, CreateId, Storable, Has, NativeKind, UpdateShows, Save,
      Update, CoveredBut, GoalIndex;
    if TouchesFile(s, p, f) {
      match FindName(s.list, p.name)
      case None =>
        var id := CreateId(s.list, p.name, f.rands);
        var n := NodeFor(p, id);
        CreateIdFresh(s.list, p.name, f.rands);
        ValidNodeStorable(p, id);
        PushGrows(s.list, n);
        if Current(s.disk).Some? {
          CoveredGrows(s.list, [n] + s.list, Current(s.disk).value);
        }
        SaveNotAhead([n] + s.list, s.disk, n, f.read, f.write);
        SaveShows([n] + s.list, s.disk, n, f.read, f.write);
      case Some(i) =>
        var n := NodeFor(p, s.list[i].tokenId);
        FirstIdNative();
        NewIdMeaning(0, false);
        ValidNodeStorable(p, NewId(0, false));
        UpdateNotAhead(s.list, s.disk, n, NewId(0, false), f.read, f.write);
        UpdateShowsIff(s.list, s.disk, n, NewId(0, false), f.read, f.write);
    }
  }

  /** The event puts the disk ahead of memory: a call that brings a backup forward, or a start-up that leaves the disk
      ahead, unless the same call then writes a document that is covered. */
  predicate GetsAhead(s: Proc, e: Event) {
    && e.Invoke? && e.f.lockOk && EnsureInit(s, e.f).inited
    && var s1 := EnsureInit(s, e.f);
       if s.inited || !InitAhead(s.disk, e.f.init) then BringsBackup(s1, e.p, e.f)
       else TouchesFile(s1, e.p, e.f) ==> !ReadyShows(s1, e.p, e.f)
  }

  /** One event keeps the disk behind memory exactly unless it is of that kind. */
  lemma StepNotAhead(s: Proc, e: Event)
    requires NotAhead(s)
    ensures NotAhead(Step(s, e).proc) <==> !GetsAhead(s, e)
  {
    hide Shows, CallReady, Init, ReadyShows, CallSteps, BringsBackup, InitAhead, TouchesFile;
    if e.Invoke? && e.f.lockOk && EnsureInit(s, e.f).inited {
      var s1 := EnsureInit(s, e.f);
      ReadyNotAhead(s1, e.p, e.f);
      if !s.inited {
        InitNotAhead(s.disk, e.f.init);
      }
      if NotAhead(s1) {
        ReadyAheadIff(s1, e.p, e.f);
      } else {
        UntouchedShows(s1, e.p, e.f);
      }
    }
  }

  lemma UntouchedShows(s: Proc, p: Params, f: CallFaults)
    ensures !TouchesFile(s, p, f) ==> (ReadyShows(s, p, f) <==> Shows(s.list, Current(s.disk)))
  {
    hide CheckProcessInfo, CreateId, Shows, UpdateShows, Basis;
  }

  function Booted(d: Disk): Proc {
    Proc(false, [], d)
  }

  ghost predicate NeverAhead(d: Disk, evs: seq<Event>) {
    forall k :: 0 <= k <= |evs| ==> NotAhead(After(Booted(d), evs[..k]))
  }

  ghost predicate NoneGetsAhead(d: Disk, evs: seq<Event>) {
    forall i :: 0 <= i < |evs| ==> !GetsAhead(After(Booted(d), evs[..i]), evs[i])
  }

  lemma {:induction false} NoneAheadUpTo(d: Disk, evs: seq<Event>, k: nat)
    requires NoneGetsAhead(d, evs) && k <= |evs|
    ensures NotAhead(After(Booted(d), evs[..k]))
    decreases k
  {
    hide NotAhead, GetsAhead, Step;
    assert NotAhead(Booted(d)) by { BootedNotAhead(d); }
    if k > 0 {
      NoneAheadUpTo(d, evs, k - 1);
      assert evs[..k][..k - 1] == evs[..k - 1];
      StepNotAhead(After(Booted(d), evs[..k - 1]), evs[k - 1]);
    }
  }

  lemma BootedNotAhead(d: Disk)
    ensures NotAhead(Booted(d))
  {
  }

  /** In every run of calls, restarts and crashes from any disk content, whatever fails: each (name, ID) pair a read
      would return is in the list at every point exactly when no event puts the disk ahead. */
  lemma DiskNeverAhead(d: Disk, evs: seq<Event>)
    ensures NeverAhead(d, evs) <==> NoneGetsAhead(d, evs)
  {
    hide NotAhead, GetsAhead, Step;
    if NoneGetsAhead(d, evs) {
      forall k | 0 <= k <= |evs| ensures NotAhead(After(Booted(d), evs[..k])) {
        NoneAheadUpTo(d, evs, k);
      }
    }
    if NeverAhead(d, evs) {
      forall i | 0 <= i < |evs| ensures !GetsAhead(After(Booted(d), evs[..i]), evs[i]) {
        assert evs[..i + 1][..i] == evs[..i];
        assert NotAhead(After(Booted(d), evs[..i])) && NotAhead(After(Booted(d), evs[..i + 1]));
        StepNotAhead(After(Booted(d), evs[..i]), evs[i]);
      }
    }
  }

  /** The main file can be read whenever it is there, and an odd node in its place can be removed. Every write,
      restore, lock and random read may fail. */
  predicate MainReadable(e: Event) {
    !e.Restart? ==> e.f.read.mainReadOk && e.f.init.read.mainReadOk && e.f.init.removeOk
  }

  lemma ReadableNeverAhead(s: Proc, e: Event)
    requires NotAhead(s) && MainReadable(e)
    ensures !GetsAhead(s, e)
  {
    hide DecodeNode, Covered, TouchesFile, ReadyShows, LoadList, Lands, CoveredBut, GoalIndex, CreateId;
  }

  /** In particular it stays behind in every run in which the main file is always readable, with writes failing at
      will. */
  lemma {:induction false} BehindWhileReadable(d: Disk, evs: seq<Event>)
    requires forall i :: 0 <= i < |evs| ==> MainReadable(evs[i])
    ensures NotAhead(After(Booted(d), evs))
    decreases |evs|
  {
    hide NotAhead, GetsAhead, Step;
    if evs == [] {
      BootedNotAhead(d);
    } else {
      var pre := evs[..|evs| - 1];
      BehindWhileReadable(d, pre);
      ReadableNeverAhead(After(Booted(d), pre), evs[|evs| - 1]);
      StepNotAhead(After(Booted(d), pre), evs[|evs| - 1]);
    }
  }

  /** Why the main file has to be readable: a start-up that cannot read it at that moment loads an older backup,
      and if the restore fails as well the disk is ahead of the list. */
  lemma UnreadMainAhead(a: TokenNode, b: TokenNode, f: InitFaults)
    requires Storable(a) && Storable(b) && a.name != b.name
    requires !f.read.mainReadOk && f.read.bakReadOk && f.read.restore.Failed?
    ensures var d := Disk(Doc(Arr([EncodeNode(a), EncodeNode(b)])), Doc(Arr([EncodeNode(a)])));
      Init(d, f) == InitResult(true, [a], d) && InitAhead(d, f) && !NotAhead(Proc(true, [a], d))
  {
    hide DecodeNode, EncodeNode, Storable;
    RoundTrip(a);
    RoundTrip(b);
    var one, two := [EncodeNode(a)], [EncodeNode(a), EncodeNode(b)];
    assert one[0] == EncodeNode(a) && AllDecode(one);
    assert Reverse(Nodes(one)) == [a];
    var d := Disk(Doc(Arr(two)), Doc(Arr(one)));
    assert Children(Current(d).value)[1] == EncodeNode(b);
    assert !Has([a], b.name, b.tokenId);
    assert !RecordCovered([a], EncodeNode(b));
    InitNotAhead(d, f);
  }

  /** Why an odd node has to be removable: a link in a directory that cannot be written hides the main file, the
      backup cannot be loaded, restored or dropped, and start-up still succeeds, with an empty list. */
  lemma LinkHidesBackup(a: TokenNode, f: InitFaults)
    requires f == InitFaults(ReadFaults(true, true, false, Failed), false, false, true, true)
    ensures var d := Disk(NotRegular, Doc(Arr([EncodeNode(a), Null])));
      Init(d, f) == InitResult(true, [], d) && InitAhead(d, f) && !NotAhead(Proc(true, [], d))
  {
    hide EncodeNode;
    var d := Disk(NotRegular, Doc(Arr([EncodeNode(a), Null])));
    assert Children(d.bak.v)[1] == Null;
    assert DecodeNode(Null).None?;
    assert LoadList(d.bak.v).None?;
    InitNotAhead(d, f);
  }

  // ---------------------------------------------------------------- memory may be ahead of the disk

  /** The converse is false. When the write of a new token fails, the call reports failure but the node
      stays in the list; repeating the same call then succeeds, with an ID that was never written. */
  lemma RetryReturnsUnsavedId(s: Proc, p: Params, f: CallFaults, g: CallFaults)
    requires s.inited && CheckProcessInfo(p).Valid? && FindName(s.list, p.name).None?
    requires CreateId(s.list, p.name, f.rands) != INVALID_TOKEN_ID
    requires f.lockOk && f.write.Failed? && f.read.mainReadOk && s.disk.main.Doc? && g.lockOk
    ensures var first := Call(s, p, f);
      var second := Call(first.proc, p, g);
      && first.tokenId == INVALID_TOKEN_ID && second.tokenId == CreateId(s.list, p.name, f.rands)
      && second.proc.disk == first.proc.disk == s.disk
  {
    hide CheckProcessInfo, CreateId, EncodeNode;
    var n := NodeFor(p, CreateId(s.list, p.name, f.rands));
    var l := [n] + s.list;
    assert FindName(l, p.name) == Some(0);
    assert Call(s, p, f).proc == Proc(true, l, s.disk);
  }

  predicate RecordAt(items: seq<Json>, k: nat, name: string, id: nat) {
    k < |items| && DecodeNode(items[k]).Some?
    && DecodeNode(items[k]).value.name == name && DecodeNode(items[k]).value.tokenId == id
  }

  /** A record with this name and ID is what a read would find. */
  ghost predicate Stored(d: Disk, name: string, id: nat) {
    Current(d).Some? && exists k :: RecordAt(Children(Current(d).value), k, name, id)
  }

  /** An array or an object; a bare scalar has no room for records. */
  predicate HoldsRecords(d: Disk) {
    Current(d).Some? ==> Current(d).value.Arr? || Current(d).value.Obj?
  }

  /** Whether this call leaves the node of `p` untouched, and so returns without writing. */
  predicate SkipsWrite(s: Proc, p: Params) {
    match FindName(s.list, p.name)
    case None => false
    case Some(i) => s.list[i] == NodeFor(p, s.list[i].tokenId)
  }

  /** When a returned ID is really on disk: exactly when the call wrote it, or it was there already.
      The one way to get an ID that is not stored is the unchanged node whose earlier write failed. */
  lemma ReturnedIdStored(s: Proc, p: Params, f: CallFaults)
    requires s.inited && NotAhead(s) && Keyed(s.list) && f.read.mainReadOk
    requires HoldsRecords(s.disk) && CallReady(s, p, f).tokenId != 0
    ensures var r := CallReady(s, p, f);
      Stored(r.proc.disk, p.name, r.tokenId) <==> !SkipsWrite(s, p) || Stored(s.disk, p.name, r.tokenId)
  {
    hide Stored, EncodeNode, CheckProcessInfo, CreateId, Storable, NativeKind, Keyed, Save, Update;
    match FindName(s.list, p.name)
    case None =>
      CreateIdFresh(s.list, p.name, f.rands);
      var id := CreateId(s.list, p.name, f.rands);
      ValidNodeStorable(p, id);
      SavedIsStored(s.disk, NodeFor(p, id), f.read, f.write);
    case Some(i) =>
      var n := NodeFor(p, s.list[i].tokenId);
      if n != s.list[i] {
        UpdatedIsStored(s, i, n, p, f);
      }
  }

  lemma AppendedRecord(v: Json, n: TokenNode)
    requires Storable(n) && (v.Arr? || v.Obj?)
    ensures RecordAt(Children(Append(v, EncodeNode(n))), |Children(v)|, n.name, n.tokenId)
  {
    hide DecodeNode, EncodeNode, Storable;
    RoundTrip(n);
    assert Children(Append(v, EncodeNode(n)))[|Children(v)|] == EncodeNode(n);
  }

  lemma SavedIsStored(d: Disk, n: TokenNode, rf: ReadFaults, w: Outcome)
    requires rf.mainReadOk && Storable(n) && Save(d, n, rf, w).ok && HoldsRecords(d)
    ensures Stored(Save(d, n, rf, w).disk, n.name, n.tokenId)
  {
    hide RecordAt, EncodeNode, Storable, Append, Children;
    ReadKeepsCurrent(d, rf);
    var r := ReadAndParse(d, rf);
    var base := if r.record.Some? then r.record.value else Arr([]);
    AppendedRecord(base, n);
    assert Current(Save(d, n, rf, w).disk) == Some(Append(base, EncodeNode(n)));
  }

  lemma GoalRecord(l: seq<TokenNode>, v: Json, n: TokenNode, id: nat)
    requires Covered(l, v) && Keyed(l) && Has(l, n.name, n.tokenId) && Storable(n.(tokenId := id))
    requires UpdateGoal(Children(v), n).Some?
    ensures exists k :: RecordAt(UpdateGoal(Children(v), n).value, k, n.name, n.tokenId)
  {
    hide DecodeNode, Storable, UpdateItem, Keyed;
    var cs := Children(v);
    var k := GoalIndex(cs, n.name).value;
    DecodedId(cs[k]);
    KeyedPairs(l, n.name, DecodeNode(cs[k]).value.tokenId, n.name, n.tokenId);
    UpdateKeepsPair(cs[k], n.(tokenId := id));
    SameUpdate(cs[k], n, id);
    assert RecordAt(UpdateGoal(cs, n).value, k, n.name, n.tokenId);
  }

  lemma SameUpdate(v: Json, n: TokenNode, id: nat)
    ensures UpdateItem(v, n) == UpdateItem(v, n.(tokenId := id))
  {
  }

  lemma UpdatedIsStored(s: Proc, i: nat, n: TokenNode, p: Params, f: CallFaults)
    requires NotAhead(s) && s.inited && Keyed(s.list) && f.read.mainReadOk && CheckProcessInfo(p).Valid?
    requires FindName(s.list, p.name) == Some(i) && n == NodeFor(p, s.list[i].tokenId)
    requires Update(s.disk, n, f.read, f.write).ok
    ensures Stored(Update(s.disk, n, f.read, f.write).disk, n.name, n.tokenId)
  {
    hide RecordAt, CheckProcessInfo, Storable, NativeKind, UpdateGoal, Covered, Keyed, WithChildren;
    ReadKeepsCurrent(s.disk, f.read);
    var r := ReadAndParse(s.disk, f.read);
    var v := if r.record.Some? then r.record.value else Arr([]);
    EmptyCovered(s.list);
    NewIdMeaning(0, false);
    FirstIdNative();
    ValidNodeStorable(p, NewId(0, false));
    assert Has(s.list, n.name, n.tokenId);
    GoalRecord(s.list, v, n, NewId(0, false));
    var out := UpdateGoal(Children(v), n).value;
    GoalKeepsLength(Children(v), n);
    WithChildrenOf(v, out);
    assert Current(Update(s.disk, n, f.read, f.write).disk) == Some(WithChildren(v, out));
  }
}
