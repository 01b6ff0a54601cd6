/** The native token registry: the in-memory list, the token file and its backup, and the call that
    hands out a token ID per process name. Every answer of the operating system is an input. */
module TokenRegistry {
  import opened Options
  import opened TokenId
  import opened TokenJson

  const MAX_RETRY_TIMES := 1000
  const MAX_DCAPS_NUM := 32
  const MAX_PERM_NUM := 1024
  const HDC_PROCESS_NAME := "hdcd"
  const INVALID_TOKEN_ID := 0

  // ---------------------------------------------------------------- the disk

  /** What a path holds, as the reader sees it. `Unreadable` is a regular file that is too large. */
  datatype Content = Missing | Empty | NotRegular | Unreadable | Garbled | Doc(v: Json)

  datatype Disk = Disk(main: Content, bak: Content)

  /** How far one atomic write got. */
  datatype Outcome = Failed | MainOnly | Both

  function Commit(d: Disk, v: Json, o: Outcome): Disk {
    match o
    case Failed => d
    case MainOnly => d.(main := Doc(v))
    case Both => Disk(Doc(v), Doc(v))
  }

  datatype ReadFaults = ReadFaults(mainReadOk: bool, bakReadOk: bool, removeOk: bool, restore: Outcome)

  datatype ReadResult = ReadResult(ok: bool, record: Option<Json>, disk: Disk)

  function RemoveInvalid(c: Content, ok: bool): Content {
    if c.NotRegular? && ok then Missing else c
  }

  predicate Blank(c: Content) {
    c.Missing? || c.Empty?
  }

  /** Reads the main file; if that cannot be read or parsed, reads the backup and restores the main file. */
  function ReadAndParse(d: Disk, f: ReadFaults): ReadResult {
    if f.mainReadOk && Blank(d.main) then ReadResult(true, None, d)
    else if f.mainReadOk && d.main.Doc? then ReadResult(true, Some(d.main.v), d)
    else if f.bakReadOk && d.bak.Doc? then
      ReadResult(true, Some(d.bak.v),
                 Commit(d.(main := RemoveInvalid(d.main, f.removeOk)), d.bak.v, f.restore))
    else ReadResult(false, None, d)
  }

  datatype InitFaults = InitFaults(read: ReadFaults, removeOk: bool, bakRemoveOk: bool, openOk: bool, ownerOk: bool)

  datatype ClearResult = ClearResult(ok: bool, disk: Disk)

  /** Opening for truncation; through a link that could not be removed it empties the link's target instead. */
  function Emptied(c: Content): Content {
    if c.NotRegular? then c else Empty
  }

  /** Drops the backup and truncates or creates the main file; can fail after truncating. */
  function ClearOrCreate(d: Disk, f: InitFaults): ClearResult {
    var main := RemoveInvalid(d.main, f.removeOk);
    var bak := if f.bakRemoveOk then Missing else d.bak;
    if !f.openOk then ClearResult(false, Disk(main, bak))
    else ClearResult(f.ownerOk, Disk(Emptied(main), bak))
  }

  // ---------------------------------------------------------------- the list

  function Reverse<T>(xs: seq<T>): (r: seq<T>)
    ensures |r| == |xs| && forall i :: 0 <= i < |xs| ==> r[i] == xs[|xs| - 1 - i]
  {
    seq(|xs|, i requires 0 <= i < |xs| => xs[|xs| - 1 - i])
  }

  predicate AllDecode(items: seq<Json>) {
    forall i :: 0 <= i < |items| ==> DecodeNode(items[i]).Some?
  }

  function Nodes(items: seq<Json>): (r: seq<TokenNode>)
    requires AllDecode(items)
    ensures |r| == |items| && forall i :: 0 <= i < |items| ==> DecodeNode(items[i]) == Some(r[i])
  {
    seq(|items|, i requires 0 <= i < |items| => DecodeNode(items[i]).value)
  }

  /** Loading pushes every record at the head; an empty array or one bad record fails the load. */
  function LoadList(v: Json): Option<seq<TokenNode>> {
    var cs := Children(v);
    if cs == [] || !AllDecode(cs) then None else Some(Reverse(Nodes(cs)))
  }

  datatype InitResult = InitResult(ok: bool, list: seq<TokenNode>, disk: Disk)

  /** Whether a read result holds a list that can be loaded. */
  predicate Loads(r: ReadResult) {
    r.record.Some? && LoadList(r.record.value).Some?
  }

  function Init(d: Disk, f: InitFaults): InitResult {
    var r := ReadAndParse(d, f.read);
    if Loads(r) then
      InitResult(true, LoadList(r.record.value).value, r.disk)
    else
      var c := ClearOrCreate(r.disk, f);
      InitResult(c.ok, [], c.disk)
  }

  // ---------------------------------------------------------------- the call

  datatype Params = Params(name: string, dcaps: seq<string>, perms: seq<string>, acls: seq<string>,
                           aplStr: string, uid: Int32)

  datatype CheckError =
    | ProcessNameInvalid | DcapsInvalid | PermsInvalid | AclsInvalid | AclGreaterThanPerms | AplInvalid
  datatype Check = Valid(apl: int) | Invalid(error: CheckError)

  function AplLevel(s: string): int {
    if s == "system_core" then 3 else if s == "system_basic" then 2 else if s == "normal" then 1 else 0
  }

  predicate StrArrayOk(ss: seq<string>, maxNum: nat, maxLen: nat) {
    |ss| <= maxNum && forall i :: 0 <= i < |ss| ==> 0 < |ss[i]| <= maxLen
  }

  function CheckProcessInfo(p: Params): Check {
    if !(0 < |p.name| <= MAX_PROCESS_NAME_LEN) then Invalid(ProcessNameInvalid)
    else if !StrArrayOk(p.dcaps, MAX_DCAPS_NUM, MAX_DCAP_LEN) then Invalid(DcapsInvalid)
    else if !StrArrayOk(p.perms, MAX_PERM_NUM, MAX_PERM_LEN) then Invalid(PermsInvalid)
    else if !StrArrayOk(p.acls, MAX_PERM_NUM, MAX_PERM_LEN) then Invalid(AclsInvalid)
    else if |p.acls| > |p.perms| then Invalid(AclGreaterThanPerms)
    else if AplLevel(p.aplStr) == 0 then Invalid(AplInvalid)
    else Valid(AplLevel(p.aplStr))
  }

  function NodeFor(p: Params, id: nat): TokenNode {
    TokenNode(p.name, id, AplLevel(p.aplStr), p.uid, p.dcaps, p.perms, p.acls)
  }

  predicate UniqueIdUsed(list: seq<TokenNode>, u: nat) {
    exists i :: 0 <= i < |list| && list[i].tokenId % UNIQUE_RANGE == u
  }

  /** The retry loop of ID creation from try `i` on: the first random number whose low 20 bits are unused.
      `rands[i]` is what the i-th read of the random device gave. */
  function FreshUnique(list: seq<TokenNode>, rands: seq<Option<nat>>, i: nat): (r: Option<nat>)
    ensures r.Some? ==> r.value < UNIQUE_RANGE && !UniqueIdUsed(list, r.value)
    decreases MAX_RETRY_TIMES - i
  {
    if i >= MAX_RETRY_TIMES || i >= |rands| || rands[i].None? then None
    else if UniqueIdUsed(list, rands[i].value % UNIQUE_RANGE) then FreshUnique(list, rands, i + 1)
    else Some(rands[i].value % UNIQUE_RANGE)
  }

  function CreateId(list: seq<TokenNode>, name: string, rands: seq<Option<nat>>): nat {
    match FreshUnique(list, rands, 0)
    case None => INVALID_TOKEN_ID
    case Some(u) => NewId(u, name == HDC_PROCESS_NAME)
  }

  predicate Names(list: seq<TokenNode>, i: nat, name: string) {
    i < |list| && list[i].name == name
  }

  /** The first list node with this name. */
  function FindName(list: seq<TokenNode>, name: string): (r: Option<nat>)
    ensures r.Some? ==> Names(list, r.value, name) && forall k :: 0 <= k < r.value ==> list[k].name != name
    ensures r.None? ==> forall k :: 0 <= k < |list| ==> list[k].name != name
  {
    if list == [] then None
    else if list[0].name == name then Some(0)
    else
      var r := FindName(list[1..], name);
      assert r.None? ==> forall k :: 0 < k < |list| ==> list[k] == list[1..][k - 1];
      if r.Some? then Some(r.value + 1) else None
  }

  /** Appending to a parsed document; appending to a scalar leaves what gets printed unchanged. */
  function Append(v: Json, item: Json): Json {
    match v
    case Arr(items) => Arr(items + [item])
    case Obj(fields) => Obj(fields + [Field("", item)])
    case _ => v
  }

  function WithChildren(v: Json, items: seq<Json>): Json
    requires |items| == |Children(v)|
  {
    match v
    case Arr(_) => Arr(items)
    case Obj(fields) => Obj(seq(|fields|, i requires 0 <= i < |fields| => Field(fields[i].key, items[i])))
    case _ => v
  }

  datatype FileResult = FileResult(ok: bool, disk: Disk)

  /** The document that a save or an update starts from. */
  function Base(r: ReadResult): Json {
    if r.record.Some? then r.record.value else Arr([])
  }

  function Save(d: Disk, n: TokenNode, rf: ReadFaults, w: Outcome): FileResult {
    var r := ReadAndParse(d, rf);
    if r.record.None? && !r.ok then FileResult(false, r.disk)
    else
      FileResult(!w.Failed?, Commit(r.disk, Append(Base(r), EncodeNode(n)), w))
  }

  function Update(d: Disk, n: TokenNode, rf: ReadFaults, w: Outcome): FileResult {
    var r := ReadAndParse(d, rf);
    if r.record.None? && !r.ok then FileResult(false, r.disk)
    else
      var goal := UpdateGoal(Children(Base(r)), n);
      if goal.None? then FileResult(false, r.disk)
      else FileResult(!w.Failed?, Commit(r.disk, WithChildren(Base(r), goal.value), w))
  }

  /** A process using the registry. Before initialisation the list is empty. */
  datatype Proc = Proc(inited: bool, list: seq<TokenNode>, disk: Disk)

  datatype CallFaults = CallFaults(lockOk: bool, init: InitFaults, rands: seq<Option<nat>>, read: ReadFaults,
                                   write: Outcome)

  datatype CallResult = CallResult(proc: Proc, tokenId: nat)

  function EnsureInit(s: Proc, f: CallFaults): Proc {
    if s.inited then s
    else
      var r := Init(s.disk, f.init);
      if r.ok then Proc(true, r.list, r.disk) else Proc(false, [], r.disk)
  }

  function AddNew(s: Proc, p: Params, f: CallFaults): CallResult {
    var id := CreateId(s.list, p.name, f.rands);
    if id == INVALID_TOKEN_ID then CallResult(s, INVALID_TOKEN_ID)
    else
      var n := NodeFor(p, id);
      var r := Save(s.disk, n, f.read, f.write);
      CallResult(Proc(true, [n] + s.list, r.disk), if r.ok then id else INVALID_TOKEN_ID)
  }

  function UpdateExisting(s: Proc, i: nat, p: Params, f: CallFaults): CallResult
    requires i < |s.list|
  {
    var n := NodeFor(p, s.list[i].tokenId).(name := s.list[i].name);
    if n == s.list[i] then CallResult(s, n.tokenId)
    else
      var r := Update(s.disk, n, f.read, f.write);
      CallResult(Proc(true, s.list[i := n], r.disk), if r.ok then n.tokenId else INVALID_TOKEN_ID)
  }

  function CallReady(s: Proc, p: Params, f: CallFaults): CallResult {
    if CheckProcessInfo(p).Invalid? then CallResult(s, INVALID_TOKEN_ID)
    else match FindName(s.list, p.name)
      case None => AddNew(s, p, f)
      case Some(i) => UpdateExisting(s, i, p, f)
  }

  /** One GetAccessTokenId call: the new state and the returned ID, 0 on any failure. */
  function Call(s: Proc, p: Params, f: CallFaults): CallResult {
    if !f.lockOk then CallResult(s, INVALID_TOKEN_ID)
    else
      var s1 := EnsureInit(s, f);
      if !s1.inited then CallResult(s1, INVALID_TOKEN_ID) else CallReady(s1, p, f)
  }

  // ---------------------------------------------------------------- the steps of a call

  /** The disks that a write passes through: the main file is committed first, then the backup. */
  function WriteSteps(d: Disk, v: Json, o: Outcome): seq<Disk> {
    match o
    case Failed => []
    case MainOnly => [Commit(d, v, MainOnly)]
    case Both => [Commit(d, v, MainOnly), Commit(d, v, Both)]
  }

  function RemoveSteps(d: Disk, ok: bool): seq<Disk> {
    if d.main.NotRegular? && ok then [d.(main := Missing)] else []
  }

  /** Whether a read turns to the backup and finds a document there. */
  predicate FallsBack(d: Disk, f: ReadFaults) {
    !(f.mainReadOk && (Blank(d.main) || d.main.Doc?)) && f.bakReadOk && d.bak.Doc?
  }

  function ReadSteps(d: Disk, f: ReadFaults): seq<Disk> {
    if !FallsBack(d, f) then []
    else RemoveSteps(d, f.removeOk)
         + WriteSteps(d.(main := RemoveInvalid(d.main, f.removeOk)), d.bak.v, f.restore)
  }

  function ClearSteps(d: Disk, f: InitFaults): seq<Disk> {
    var d1 := d.(main := RemoveInvalid(d.main, f.removeOk));
    var d2 := if f.bakRemoveOk then d1.(bak := Missing) else d1;
    RemoveSteps(d, f.removeOk) + (if f.bakRemoveOk then [d2] else [])
    + (if f.openOk then [d2.(main := Emptied(d2.main))] else [])
  }

  function InitSteps(d: Disk, f: InitFaults): seq<Disk> {
    var r := ReadAndParse(d, f.read);
    ReadSteps(d, f.read) + if Loads(r) then [] else ClearSteps(r.disk, f)
  }

  function SaveSteps(d: Disk, n: TokenNode, rf: ReadFaults, w: Outcome): seq<Disk> {
    var r := ReadAndParse(d, rf);
    ReadSteps(d, rf) + if r.record.None? && !r.ok then [] else WriteSteps(r.disk, Append(Base(r), EncodeNode(n)), w)
  }

  function UpdateSteps(d: Disk, n: TokenNode, rf: ReadFaults, w: Outcome): seq<Disk> {
    var r := ReadAndParse(d, rf);
    var goal := UpdateGoal(Children(Base(r)), n);
    ReadSteps(d, rf)
    + if (r.record.None? && !r.ok) || goal.None? then [] else WriteSteps(r.disk, WithChildren(Base(r), goal.value), w)
  }

  function ReadySteps(s: Proc, p: Params, f: CallFaults): seq<Disk> {
    if CheckProcessInfo(p).Invalid? then []
    else match FindName(s.list, p.name)
      case None =>
        var id := CreateId(s.list, p.name, f.rands);
        if id == INVALID_TOKEN_ID then [] else SaveSteps(s.disk, NodeFor(p, id), f.read, f.write)
      case Some(i) =>
        var n := NodeFor(p, s.list[i].tokenId).(name := s.list[i].name);
        if n == s.list[i] then [] else UpdateSteps(s.disk, n, f.read, f.write)
  }

  /** The disks that one call passes through, in order, one per file-system change. */
  function CallSteps(s: Proc, p: Params, f: CallFaults): seq<Disk> {
    if !f.lockOk then []
    else
      var s1 := EnsureInit(s, f);
      (if s.inited then [] else InitSteps(s.disk, f.init)) + (if s1.inited then ReadySteps(s1, p, f) else [])
  }

  /** The disk after the first `k` of these steps, or all of them. */
  function DiskAfter(d: Disk, steps: seq<Disk>, k: nat): Disk {
    if k == 0 || steps == [] then d
    else if k <= |steps| then steps[k - 1]
    else steps[|steps| - 1]
  }

  // ---------------------------------------------------------------- runs

  /** A call, a restart of the process, or a call cut short by a crash after `k` of its steps: memory is lost and
      the disk is as those steps left it. */
  datatype Event = Invoke(p: Params, f: CallFaults) | Restart | Crash(p: Params, f: CallFaults, k: nat)

  function Step(s: Proc, e: Event): CallResult {
    match e
    case Invoke(p, f) => Call(s, p, f)
    case Restart => CallResult(Proc(false, [], s.disk), INVALID_TOKEN_ID)
    case Crash(p, f, k) => CallResult(Proc(false, [], DiskAfter(s.disk, CallSteps(s, p, f), k)), INVALID_TOKEN_ID)
  }

  function After(s: Proc, evs: seq<Event>): Proc {
    if evs == [] then s else Step(After(s, evs[..|evs| - 1]), evs[|evs| - 1]).proc
  }

  /** The ID returned by event `i` of a run. */
  function Returned(s: Proc, evs: seq<Event>, i: nat): nat
    requires i < |evs|
  {
    Step(After(s, evs[..i]), evs[i]).tokenId
  }
}
