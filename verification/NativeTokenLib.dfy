/** The registry as the imperative program it is: the list, the flag and the files are updated in place,
    step by step, and every operation is proved equal to the pure transition it implements. */
module NativeTokenLib {
  import opened Options
  import opened TokenId
  import opened TokenJson
  import opened TokenRegistry

  method IsTokenUniqueIdExist(list: seq<TokenNode>, uniqueId: nat) returns (found: bool)
    ensures found <==> UniqueIdUsed(list, uniqueId)
  {
    for i := 0 to |list|
      invariant forall k :: 0 <= k < i ==> list[k].tokenId % UNIQUE_RANGE != uniqueId
    {
      if uniqueId == list[i].tokenId % UNIQUE_RANGE {
        return true;
      }
    }
    return false;
  }

  /** Draws random numbers until one is unused, at most MAX_RETRY_TIMES of them. */
  method CreateNativeTokenId(list: seq<TokenNode>, name: string, rands: seq<Option<nat>>) returns (id: nat)
    ensures id == CreateId(list, name, rands)
  {
    var retry := MAX_RETRY_TIMES;
    var rand := 0;
    while retry > 0
      invariant 0 <= retry <= MAX_RETRY_TIMES
      invariant FreshUnique(list, rands, 0) == FreshUnique(list, rands, MAX_RETRY_TIMES - retry)
    {
      var i := MAX_RETRY_TIMES - retry;
      if i >= |rands| || rands[i].None? {
        return INVALID_TOKEN_ID;
      }
      rand := rands[i].value % UNIQUE_RANGE;
      var used := IsTokenUniqueIdExist(list, rand);
      if !used {
        return NewId(rand, name == HDC_PROCESS_NAME);
      }
      retry := retry - 1;
    }
    return INVALID_TOKEN_ID;
  }

  method SameStrings(a: seq<string>, b: seq<string>) returns (same: bool)
    ensures same <==> a == b
  {
    if |a| != |b| {
      return false;
    }
    for i := 0 to |a|
      invariant forall k :: 0 <= k < i ==> a[k] == b[k]
    {
      if a[i] != b[i] {
        return false;
      }
    }
    return true;
  }

  class Library {
    var inited: bool
    var list: seq<TokenNode>
    var disk: Disk
    ghost var steps: seq<Disk>     // the disks passed through so far

    function State(): Proc
      reads this
    {
      Proc(inited, list, disk)
    }

    constructor (initial: Disk)
      ensures State() == Proc(false, [], initial) && steps == []
    {
      inited, list, disk, steps := false, [], initial, [];
    }

    /** One change of a file. */
    method Change(d: Disk)
      modifies this`disk, this`steps
      ensures disk == d && steps == old(steps) + [d]
    {
      disk := d;
      steps := steps + [d];
    }

    /** The atomic writer: the main file, then the backup, as far as it gets. */
    method AtomicWriteFile(v: Json, o: Outcome)
      modifies this`disk, this`steps
      ensures disk == Commit(old(disk), v, o)
      ensures steps == old(steps) + WriteSteps(old(disk), v, o)
    {
      if o.Failed? {
        return;
      }
      Change(disk.(main := Doc(v)));
      if o.Both? {
        Change(disk.(bak := Doc(v)));
      }
    }

    method TryRemoveInvalidConfigPath(removeOk: bool)
      modifies this`disk, this`steps
      ensures disk == old(disk).(main := RemoveInvalid(old(disk).main, removeOk))
      ensures steps == old(steps) + RemoveSteps(old(disk), removeOk)
    {
      if disk.main.NotRegular? && removeOk {
        Change(disk.(main := Missing));
      }
    }

    /** Pushes every record at the head of the list; a bad record empties the list and fails. */
    method GetTokenList(v: Json) returns (ok: bool)
      requires list == []
      modifies this`list
      ensures ok <==> LoadList(v).Some?
      ensures list == if ok then LoadList(v).value else []
    {
      hide DecodeNode;
      var cs := Children(v);
      if |cs| <= 0 {
        return false;
      }
      for i := 0 to |cs|
        invariant AllDecode(cs[..i]) && list == Reverse(Nodes(cs[..i]))
      {
        var node := DecodeNode(cs[i]);
        if node.None? {
          list := [];
          assert !AllDecode(cs);
          return false;
        }
        list := [node.value] + list;
        assert cs[..i + 1] == cs[..i] + [cs[i]];
        assert Nodes(cs[..i + 1]) == Nodes(cs[..i]) + [node.value];
      }
      assert cs[..|cs|] == cs;
      return true;
    }

    method ReadAndParseFile(f: ReadFaults) returns (ok: bool, record: Option<Json>)
      modifies this`disk, this`steps
      ensures ReadResult(ok, record, disk) == ReadAndParse(old(disk), f)
      ensures steps == old(steps) + ReadSteps(old(disk), f)
    {
      if f.mainReadOk && (disk.main.Missing? || disk.main.Empty?) {
        return true, None;
      }
      if f.mainReadOk && disk.main.Doc? {
        return true, Some(disk.main.v);
      }
      if !f.bakReadOk || !disk.bak.Doc? {
        return false, None;
      }
      record := Some(disk.bak.v);
      TryRemoveInvalidConfigPath(f.removeOk);
      AtomicWriteFile(record.value, f.restore);
      return true, record;
    }

    method ClearOrCreateCfgFile(f: InitFaults) returns (ok: bool)
      modifies this`disk, this`steps
      ensures ClearResult(ok, disk) == ClearOrCreate(old(disk), f)
      ensures steps == old(steps) + ClearSteps(old(disk), f)
    {
      TryRemoveInvalidConfigPath(f.removeOk);
      if f.bakRemoveOk {
        Change(disk.(bak := Missing));
      }
      if !f.openOk {
        return false;
      }
      Change(disk.(main := Emptied(disk.main)));
      return f.ownerOk;
    }

    method AtlibInit(f: InitFaults) returns (ok: bool)
      modifies this
      ensures InitResult(ok, list, disk) == Init(old(disk), f)
      ensures inited == (old(inited) || ok)
      ensures steps == old(steps) + InitSteps(old(disk), f)
    {
      hide DecodeNode, ReadSteps, ClearSteps;
      list := [];
      var parsed, record := ReadAndParseFile(f.read);
      var cleared := false;
      if record.Some? {
        parsed := GetTokenList(record.value);
      }
      if !parsed {
        list := [];
        ok := ClearOrCreateCfgFile(f);
        if !ok {
          return false;
        }
        cleared := true;
      }
      if list == [] && !cleared {
        ok := ClearOrCreateCfgFile(f);
        if !ok {
          return false;
        }
      }
      inited := true;
      return true;
    }

    method SaveTokenIdToCfg(n: TokenNode, rf: ReadFaults, w: Outcome) returns (ok: bool)
      modifies this`disk, this`steps
      ensures FileResult(ok, disk) == Save(old(disk), n, rf, w)
      ensures steps == old(steps) + SaveSteps(old(disk), n, rf, w)
    {
      hide ReadSteps, WriteSteps, ReadAndParse, Append, EncodeNode, DecodeNode, Storable;
      var readOk, record := ReadAndParseFile(rf);
      if record.None? {
        if !readOk {
          return false;
        }
        record := Some(Arr([]));
      }
      var node := CreateNativeTokenJsonObject(n);
      AtomicWriteFile(Append(record.value, node), w);
      return !w.Failed?;
    }

    method UpdateInfoInCfgFile(n: TokenNode, rf: ReadFaults, w: Outcome) returns (ok: bool)
      modifies this`disk, this`steps
      ensures FileResult(ok, disk) == Update(old(disk), n, rf, w)
      ensures steps == old(steps) + UpdateSteps(old(disk), n, rf, w)
    {
      hide UpdateItem, ReadSteps, WriteSteps, ReadAndParse;
      var readOk, record := ReadAndParseFile(rf);
      if record.None? {
        if !readOk {
          return false;
        }
        record := Some(Arr([]));
      }
      var goal := UpdateGoalItemFromRecord(n, Children(record.value));
      if goal.None? {
        return false;
      }
      AtomicWriteFile(WithChildren(record.value, goal.value), w);
      return !w.Failed?;
    }

    method AddNewTokenToListAndFile(p: Params, apl: int, f: CallFaults) returns (tokenId: nat)
      requires inited && apl == AplLevel(p.aplStr)
      modifies this
      ensures CallResult(State(), tokenId) == AddNew(old(State()), p, f) && inited
      ensures var id := CreateId(old(list), p.name, f.rands);
        steps == old(steps)
          + if id == INVALID_TOKEN_ID then [] else SaveSteps(old(disk), NodeFor(p, id), f.read, f.write)
    {
      hide EncodeNode, SaveSteps;
      var id := CreateNativeTokenId(list, p.name, f.rands);
      if id == INVALID_TOKEN_ID {
        return INVALID_TOKEN_ID;
      }
      var node := TokenNode(p.name, id, apl, p.uid, p.dcaps, p.perms, p.acls);
      list := [node] + list;
      var saved := SaveTokenIdToCfg(node, f.read, f.write);
      return if saved then id else INVALID_TOKEN_ID;
    }

    method UpdateNewTokenToListAndFile(p: Params, i: nat, apl: int, f: CallFaults) returns (tokenId: nat)
      requires inited && i < |list| && apl == AplLevel(p.aplStr)
      modifies this
      ensures CallResult(State(), tokenId) == UpdateExisting(old(State()), i, p, f) && inited
      ensures var n := NodeFor(p, old(list)[i].tokenId).(name := old(list)[i].name);
        steps == old(steps) + if n == old(list)[i] then [] else UpdateSteps(old(disk), n, f.read, f.write)
    {
      hide UpdateGoal, UpdateSteps;
      var node := list[i];
      var sameDcaps := SameStrings(node.dcaps, p.dcaps);
      var samePerms := SameStrings(node.perms, p.perms);
      var sameAcls := SameStrings(node.acls, p.acls);
      var updated := true;
      if node.apl != apl || !sameDcaps || !samePerms || !sameAcls || node.uid != p.uid {
        node := node.(apl := apl, uid := p.uid, dcaps := p.dcaps, perms := p.perms, acls := p.acls);
        list := list[i := node];
        updated := UpdateInfoInCfgFile(node, f.read, f.write);
      }
      return if updated then node.tokenId else INVALID_TOKEN_ID;
    }

    /** One call, from locking the file to the returned ID. */
    method GetAccessTokenId(p: Params, f: CallFaults) returns (tokenId: nat)
      requires inited || list == []
      modifies this
      ensures CallResult(State(), tokenId) == Call(old(State()), p, f)
      ensures steps == old(steps) + CallSteps(old(State()), p, f)
      ensures inited || list == []
    {
      hide AddNew, UpdateExisting, Init, CheckProcessInfo, InitSteps, SaveSteps, UpdateSteps;
      if !f.lockOk {
        return INVALID_TOKEN_ID;
      }
      if !inited {
        var ok := AtlibInit(f.init);
        if !ok {
          FailedInitEmpty(old(disk), f.init);
          return INVALID_TOKEN_ID;
        }
      }
      var check := CheckProcessInfo(p);
      if check.Invalid? {
        return INVALID_TOKEN_ID;
      }
      CheckedApl(p);
      var i := 0;
      while i < |list| && list[i].name != p.name
        invariant 0 <= i <= |list|
        invariant forall k :: 0 <= k < i ==> list[k].name != p.name
      {
        i := i + 1;
      }
      if i == |list| {
        tokenId := AddNewTokenToListAndFile(p, check.apl, f);
      } else {
        tokenId := UpdateNewTokenToListAndFile(p, i, check.apl, f);
      }
    }
  }

  lemma FailedInitEmpty(d: Disk, f: InitFaults)
    ensures !Init(d, f).ok ==> Init(d, f).list == []
  {
    hide DecodeNode;
  }

  lemma CheckedApl(p: Params)
    ensures CheckProcessInfo(p).Valid? ==> CheckProcessInfo(p).apl == AplLevel(p.aplStr)
  {
  }
}
