/** Adding permission-use records: validation, the merge cache, the service, and the result the caller sees. */
module PrivacyKit {
  import TokenId
  import opened MergeCache
  import opened RecordKey

  const MAX_DEVICE_NAME_LENGTH := 100
  const MAX_EXTRA_LENGTH := 48 * 1024
  const RET_SUCCESS := 0
  const ERR_PARAM_INVALID := 13100001
  const ERR_PRIVACY_TOGGLE_RESTRICTED := 13100023

  datatype Info = Info(tokenId: nat, permission: string, success: TokenId.Int32, fail: TokenId.Int32,
                       usedType: int, extra: string, identity: string)

  predicate ValidCaller(id: nat) {
    var inner := TokenId.ReadInner(id);
    inner.kind == 0 || inner.kind == 1 || inner.toolFlag == 1
  }

  predicate ValidInfo(i: Info) {
    && i.tokenId != 0 && 0 < |i.permission| <= MAX_LENGTH && i.success >= 0 && i.fail >= 0
    && 0 <= i.usedType < 3 && |i.extra| <= MAX_EXTRA_LENGTH && |i.identity| <= MAX_IDENTITY_LENGTH
    && ValidCaller(i.tokenId)
  }

  /** What the kit refuses of a record: a bad token, permission, count, type, extra text or identity, or a token that is
      neither an application nor a native process nor a tool. */
  predicate Refused(i: Info) {
    || i.tokenId == 0 || |i.permission| == 0 || |i.permission| > 256 || i.success < 0 || i.fail < 0
    || i.usedType < 0 || i.usedType > 2 || |i.extra| > 49152 || |i.identity| > 48
    || ((i.tokenId / 0x800_0000) % 4 != 0 && (i.tokenId / 0x800_0000) % 4 != 1 && (i.tokenId / 0x10_0000) % 2 != 1)
  }

  predicate RefusedRemote(deviceId: string, deviceName: string, permission: string, success: int, fail: int) {
    || |deviceId| == 0 || |deviceId| > 256 || |deviceName| == 0 || |deviceName| > 100
    || |permission| == 0 || |permission| > 256 || success < 0 || fail < 0
  }

  lemma RefusedIff(i: Info)
    ensures Refused(i) <==> !ValidInfo(i)
  {
  }

  function SubjectOf(i: Info): Subject
    requires ValidInfo(i)
  {
    Subject(i.tokenId, i.permission, i.usedType, i.identity)
  }

  /** One valid record as the cache sees it; `service` is the answer of the service if it is asked. */
  function CallOf(i: Info, now: int, service: int): Call
    requires ValidInfo(i)
  {
    Call(Key(SubjectOf(i)), i.success, now, i.extra != "", service == RET_SUCCESS)
  }

  /** A restricted privacy toggle is reported to the caller as success. */
  function Report(res: int): int {
    if res == ERR_PRIVACY_TOGGLE_RESTRICTED then RET_SUCCESS else res
  }

  datatype Timed = Timed(info: Info, now: int, service: int)

  predicate AllValid(run: seq<Timed>) {
    forall i :: 0 <= i < |run| ==> ValidInfo(run[i].info)
  }

  /** No identity of the run absorbs another; in particular when none has an underscore. */
  predicate NoneAbsorbs(run: seq<Timed>) {
    forall i, j :: 0 <= i < |run| && 0 <= j < |run| ==> !Absorbs(run[i].info.identity, run[j].info.identity)
  }

  lemma PlainIdentities(run: seq<Timed>)
    requires forall i :: 0 <= i < |run| ==> '_' !in run[i].info.identity
    ensures NoneAbsorbs(run)
  {
    forall i, j | 0 <= i < |run| && 0 <= j < |run| ensures !Absorbs(run[i].info.identity, run[j].info.identity) {
      AbsorbsNeedsUnderscore(run[i].info.identity, run[j].info.identity);
    }
  }

  function Calls(run: seq<Timed>): (r: seq<Call>)
    requires AllValid(run)
    ensures |r| == |run| && forall i :: 0 <= i < |run| ==> r[i] == CallOf(run[i].info, run[i].now, run[i].service)
  {
    seq(|run|, i requires 0 <= i < |run| => CallOf(run[i].info, run[i].now, run[i].service))
  }

  /** Over a whole run of records whose identities do not absorb each other: a dropped record was preceded, less
      than 200 ms earlier and in the same minute, by a record of the very same token, permission, type and
      identity that the service accepted; a dropped success by an accepted success. */
  lemma DroppedIsCovered(run: seq<Timed>, i: nat) returns (j: nat)
    requires AllValid(run) && NoneAbsorbs(run) && SuppressedAt(true, Calls(run), i)
    ensures j < i < |run| && SubjectOf(run[j].info) == SubjectOf(run[i].info)
    ensures run[j].info.tokenId == run[i].info.tokenId && run[j].info.permission == run[i].info.permission
    ensures run[j].info.usedType == run[i].info.usedType && run[j].info.identity == run[i].info.identity
    ensures run[j].info.extra == "" && run[j].service == RET_SUCCESS && ForwardedAt(true, Calls(run), j)
    ensures Minute(run[j].now) == Minute(run[i].now) && run[i].now - run[j].now < MERGE_TIMESTAMP
    ensures run[i].info.success > 0 ==> run[j].info.success > 0
  {
    hide Key;
    j := SuppressedHasWitness(true, Calls(run), i);
    CollisionShape(SubjectOf(run[j].info), SubjectOf(run[i].info));
  }

  // ---------------------------------------------------------------- when identities absorb each other

  /** A record of the very same token, permission, type and identity was forwarded and accepted before record `k`. */
  ghost predicate CoveredDrop(run: seq<Timed>, k: nat)
    requires AllValid(run) && k < |run|
  {
    exists m :: 0 <= m < k && SubjectOf(run[m].info) == SubjectOf(run[k].info) && run[m].service == RET_SUCCESS
                && ForwardedAt(true, Calls(run), m)
  }

  predicate UsesOnly(run: seq<Timed>, i: string, j: string) {
    forall k :: 0 <= k < |run| ==> run[k].info.identity == i || run[k].info.identity == j
  }

  /** No record with one of these two identities is ever dropped on account of another subject's record. */
  ghost predicate DropsCovered(i: string, j: string) {
    forall run: seq<Timed>, k: nat | AllValid(run) && UsesOnly(run, i, j) && SuppressedAt(true, Calls(run), k) ::
      CoveredDrop(run, k)
  }

  /** A record that the kit admits, with one success, at time zero, accepted if it is forwarded. */
  function Once(s: Subject): Timed {
    Timed(Info(s.tokenId, s.permission, 1, 0, s.usedType, "", s.identity), 0, RET_SUCCESS)
  }

  /** The second of two records that share a key at one instant is dropped, whoever it is about. */
  lemma SecondDropped(r: Subject, s: Subject)
    requires Key(r) == Key(s) && ValidInfo(Once(r).info) && ValidInfo(Once(s).info)
    ensures AllValid([Once(r), Once(s)]) && SuppressedAt(true, Calls([Once(r), Once(s)]), 1)
    ensures r != s ==> !CoveredDrop([Once(r), Once(s)], 1)
  {
    hide Key, ValidInfo, Minute;
    var run := [Once(r), Once(s)];
    var cs := Calls(run);
    assert cs[..1] == [cs[0]] && [cs[0]][..0] == [];
    assert After(true, [cs[0]]) == map[Key(r) := Entry(1, 0)];
    assert cs[1].key == Key(r);
  }

  /** The failing family is reachable: one application's record is dropped on account of another permission's. */
  lemma AbsorbedDropExample()
    ensures var run := [Once(Subject(1, "p", 0, "0_a")), Once(Subject(1, "p_0", 0, "a"))];
      AllValid(run) && SuppressedAt(true, Calls(run), 1) && !CoveredDrop(run, 1)
  {
    var r, s := Subject(1, "p", 0, "0_a"), Subject(1, "p_0", 0, "a");
    assert Decimal(1) == "1" && Decimal(0) == "0";
    assert Key(r) == "1" + "_" + "p" + "_" + "0" + "_" + "0_a" == "1_p_0_0_a";
    assert Key(s) == "1" + "_" + "p_0" + "_" + "0" + "_" + "a" == "1_p_0_0_a";
    SecondDropped(r, s);
  }

  lemma AbsorbingUncovered(longer: string, shorter: string) returns (r: Subject, s: Subject)
    requires Absorbs(longer, shorter) && |longer| <= MAX_IDENTITY_LENGTH
    ensures r != s && r.identity == longer && s.identity == shorter
    ensures var run := [Once(r), Once(s)]; AllValid(run) && SuppressedAt(true, Calls(run), 1) && !CoveredDrop(run, 1)
  {
    hide Key;
    r := Subject(1, "p", 0, longer);
    s := AbsorbingCollides(r, shorter);
    SecondDropped(r, s);
  }

  /** Every dropped record of every valid run with these two identities is covered by a forwarded record of the same
      subject, exactly when neither identity absorbs the other. */
  lemma DropsCoveredIff(i: string, j: string)
    requires |i| <= MAX_IDENTITY_LENGTH && |j| <= MAX_IDENTITY_LENGTH
    ensures DropsCovered(i, j) <==> !Absorbs(i, j) && !Absorbs(j, i)
  {
    hide Key, Suppressed, ForwardedAt, ValidInfo;
    if !Absorbs(i, j) && !Absorbs(j, i) {
      forall run: seq<Timed>, k: nat | AllValid(run) && UsesOnly(run, i, j) && SuppressedAt(true, Calls(run), k)
        ensures CoveredDrop(run, k)
      {
        assert NoneAbsorbs(run);
        var m := DroppedIsCovered(run, k);
      }
    } else if Absorbs(i, j) {
      var r, s := AbsorbingUncovered(i, j);
      assert UsesOnly([Once(r), Once(s)], i, j);
    } else {
      var r, s := AbsorbingUncovered(j, i);
      assert UsesOnly([Once(r), Once(s)], i, j);
    }
  }

  class Kit {
    const local: RecordCache
    const remote: RecordCache

    constructor ()
      ensures fresh(local) && fresh(remote) && local != remote
      ensures local.perMinute && !remote.perMinute && local.entries == map[] && remote.entries == map[]
    {
      local := new RecordCache(true);
      remote := new RecordCache(false);
    }

    /** Rejects invalid input untouched; otherwise runs the record through the local cache. */
    method AddPermissionUsedRecord(info: Info, now: int, service: int) returns (asked: bool, ret: int)
      requires local.perMinute
      modifies local
      ensures !ValidInfo(info) ==> !asked && ret == ERR_PARAM_INVALID && local.entries == old(local.entries)
      ensures ValidInfo(info) ==>
        var c := CallOf(info, now, service);
        && asked == !Suppressed(true, old(local.entries), c)
        && local.entries == Next(true, old(local.entries), c)
        && ret == Report(if asked then service else RET_SUCCESS)
      ensures !Refused(info) ==>
        && (!asked ==> ret == 0)
        && (asked && service == 13100023 ==> ret == 0)
        && (asked && service != 13100023 ==> ret == service)
      ensures Refused(info) <==> !asked && ret == 13100001
    {
      RefusedIff(info);
      if !ValidInfo(info) {
        return false, ERR_PARAM_INVALID;
      }
      var res;
      asked, res := local.Add(Key(SubjectOf(info)), info.success, now, info.extra != "", service);
      ret := Report(res);
    }

    /** The remote counterpart: keyed by device and permission, no extra data, no minute rule. */
    method AddRemotePermissionUsedRecord(deviceId: string, deviceName: string, permission: string,
                                         success: TokenId.Int32, fail: TokenId.Int32, now: int, service: int)
      returns (asked: bool, ret: int)
      requires !remote.perMinute
      modifies remote
      ensures var valid := 0 < |deviceId| <= MAX_LENGTH && 0 < |deviceName| <= MAX_DEVICE_NAME_LENGTH
                && 0 < |permission| <= MAX_LENGTH && success >= 0 && fail >= 0;
        && (!valid ==> !asked && ret == ERR_PARAM_INVALID && remote.entries == old(remote.entries))
        && (valid ==>
              var c := Call(deviceId + "_" + permission, success, now, false, service == RET_SUCCESS);
              && asked == !Suppressed(false, old(remote.entries), c)
              && remote.entries == Next(false, old(remote.entries), c)
              && ret == Report(if asked then service else RET_SUCCESS))
      ensures RefusedRemote(deviceId, deviceName, permission, success, fail) <==> !asked && ret == 13100001
      ensures !RefusedRemote(deviceId, deviceName, permission, success, fail) ==>
        && (!asked ==> ret == 0)
        && (asked && service == 13100023 ==> ret == 0)
        && (asked && service != 13100023 ==> ret == service)
    {
      if !(0 < |deviceId| <= MAX_LENGTH) || !(0 < |deviceName| <= MAX_DEVICE_NAME_LENGTH)
         || !(0 < |permission| <= MAX_LENGTH) || success < 0 || fail < 0 {
        return false, ERR_PARAM_INVALID;
      }
      var res;
      asked, res := remote.Add(deviceId + "_" + permission, success, now, false, service);
      ret := Report(res);
    }
  }
}
