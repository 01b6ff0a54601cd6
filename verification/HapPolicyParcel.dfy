/** The application policy: five collections, one of them a map, written to and read from a parcel. */
module HapPolicyParcel {
  import opened Options
  import opened Parcels

  const MAX_PERMISSION_DEF_SIZE := 2048
  const MAX_PERMLIST_SIZE := 1024
  const MAX_ACL_MAP_SIZE := 512

  datatype PermissionDef = PermissionDef(permissionName: string, bundleName: string, grantMode: Int32,
                                         availableLevel: Int32, provisionEnable: bool, distributedSceneEnable: bool,
                                         descLabel: string, labelId: Int32, description: string, descriptionId: Int32,
                                         availableType: Int32, isKernelEffect: bool, hasValue: bool)

  datatype PermissionStatus = PermissionStatus(tokenId: UInt32, permissionName: string, feature: string,
                                               grantStatus: Int32, grantFlag: UInt32, timestamp: UInt64)

  datatype PreAuthorization = PreAuthorization(permissionName: string, userCancelable: bool)

  datatype HapPolicy = HapPolicy(apl: Int32, domain: string, permList: Vec<PermissionDef>,
                                 permStateList: Vec<PermissionStatus>, aclRequestedList: Vec<string>,
                                 preAuthorization: Vec<PreAuthorization>, checkIgnore: Int32,
                                 aclExtendedMap: map<string, string>, isDebugGrant: bool)

  datatype Pair = Pair(key: string, value: string)

  // ---------------------------------------------------------------- the leaves

  /** The first six fields of a definition, and the remaining seven. */
  datatype DefFront = DefFront(permissionName: string, bundleName: string, grantMode: Int32, availableLevel: Int32,
                               provisionEnable: bool, distributedSceneEnable: bool)
  datatype DefRest = DefRest(descLabel: string, labelId: Int32, description: string, descriptionId: Int32,
                             availableType: Int32, isKernelEffect: bool, hasValue: bool)

  function EncodeFront(d: PermissionDef): seq<Cell> {
    [S(d.permissionName), S(d.bundleName), I32(d.grantMode), I32(d.availableLevel), B(d.provisionEnable),
     B(d.distributedSceneEnable)]
  }

  function EncodeRest(d: PermissionDef): seq<Cell> {
    [S(d.descLabel), I32(d.labelId), S(d.description), I32(d.descriptionId), I32(d.availableType),
     B(d.isKernelEffect), B(d.hasValue)]
  }

  function EncodeDef(d: PermissionDef): seq<Cell> {
    EncodeFront(d) + EncodeRest(d)
  }

  function DefObject(d: PermissionDef): seq<Cell> {
    EncodeObject(EncodeDef, d)
  }

  function DecodeFront(c: seq<Cell>): Got<DefFront> {
    if |c| >= 6 && c[0].S? && c[1].S? && c[2].I32? && c[3].I32? && c[4].B? && c[5].B?
    then Got(DefFront(c[0].s, c[1].s, c[2].i32, c[3].i32, c[4].b, c[5].b), c[6..])
    else Fail
  }

  function DecodeRest(c: seq<Cell>): Got<DefRest> {
    if |c| >= 7 && c[0].S? && c[1].I32? && c[2].S? && c[3].I32? && c[4].I32? && c[5].B? && c[6].B?
    then Got(DefRest(c[0].s, c[1].i32, c[2].s, c[3].i32, c[4].i32, c[5].b, c[6].b), c[7..])
    else Fail
  }

  function Joined(f: DefFront, r: DefRest): PermissionDef {
    PermissionDef(f.permissionName, f.bundleName, f.grantMode, f.availableLevel, f.provisionEnable,
                  f.distributedSceneEnable, r.descLabel, r.labelId, r.description, r.descriptionId, r.availableType,
                  r.isKernelEffect, r.hasValue)
  }

  function DecodeDef(c: seq<Cell>): Got<PermissionDef> {
    match DecodeFront(c)
    case Fail => Fail
    case Got(f, c1) =>
      match DecodeRest(c1)
      case Fail => Fail
      case Got(r, c2) => Got(Joined(f, r), c2)
  }

  function ObjectDef(c: seq<Cell>): Got<PermissionDef> {
    DecodeObject(DecodeDef, c)
  }

  function EncodeStatus(p: PermissionStatus): seq<Cell> {
    [S(p.permissionName), S(p.feature), I32(p.grantStatus), U32(p.grantFlag), U64(p.timestamp)]
  }

  function StatusObject(p: PermissionStatus): seq<Cell> {
    EncodeObject(EncodeStatus, p)
  }

  /** The token is not carried: the reader's object keeps whatever value `junk` it was created with. */
  function DecodeStatus(junk: UInt32, c: seq<Cell>): Got<PermissionStatus> {
    if |c| >= 5 && c[0].S? && c[1].S? && c[2].I32? && c[3].U32? && c[4].U64?
    then Got(PermissionStatus(junk, c[0].s, c[1].s, c[2].i32, c[3].u32, c[4].u64), c[5..])
    else Fail
  }

  function ObjectStatus(junk: UInt32): seq<Cell> -> Got<PermissionStatus> {
    (c: seq<Cell>) => DecodeObject((d: seq<Cell>) => DecodeStatus(junk, d), c)
  }

  function EncodeString(s: string): seq<Cell> {
    [S(s)]
  }

  function DecodeString(c: seq<Cell>): Got<string> {
    if c != [] && c[0].S? then Got(c[0].s, c[1..]) else Fail
  }

  function EncodePre(p: PreAuthorization): seq<Cell> {
    [S(p.permissionName), B(p.userCancelable)]
  }

  function DecodePre(c: seq<Cell>): Got<PreAuthorization> {
    if |c| >= 2 && c[0].S? && c[1].B? then Got(PreAuthorization(c[0].s, c[1].b), c[2..]) else Fail
  }

  function EncodePair(p: Pair): seq<Cell> {
    [S(p.key), S(p.value)]
  }

  function DecodePair(c: seq<Cell>): Got<Pair> {
    if |c| >= 2 && c[0].S? && c[1].S? then Got(Pair(c[0].s, c[1].s), c[2..]) else Fail
  }

  // ---------------------------------------------------------------- the policy

  /** The map's entries in the order in which it is walked. */
  predicate Walks(m: map<string, string>, ps: seq<Pair>) {
    && |ps| == |m| && |ps| < UINT32_RANGE
    && (forall i :: 0 <= i < |ps| ==> ps[i].key in m && m[ps[i].key] == ps[i].value)
    && (forall i, j :: 0 <= i < j < |ps| ==> ps[i].key != ps[j].key)
  }

  /** Inserting entries one after the other. */
  function Inserted(ps: seq<Pair>): map<string, string> {
    if ps == [] then map[] else Inserted(ps[..|ps| - 1])[ps[|ps| - 1].key := ps[|ps| - 1].value]
  }

  /** Everything after the two scalars, split as the reader reads it. */
  function EncodeTail(p: HapPolicy, ps: Vec<Pair>): seq<Cell> {
    EncodeList(EncodePre, p.preAuthorization)
    + ([I32(p.checkIgnore)] + (EncodeList(EncodePair, ps) + [B(p.isDebugGrant)]))
  }

  /** The writer itself refuses a definition list above its cap. */
  function EncodePolicy(p: HapPolicy, ps: seq<Pair>): Option<seq<Cell>>
    requires Walks(p.aclExtendedMap, ps)
  {
    if |p.permList| > MAX_PERMISSION_DEF_SIZE then None
    else Some([I32(p.apl), S(p.domain)]
              + (EncodeList(DefObject, p.permList)
                 + (EncodeList(StatusObject, p.permStateList)
                    + (EncodeList(EncodeString, p.aclRequestedList) + EncodeTail(p, ps)))))
  }

  datatype Tail = Tail(pre: Vec<PreAuthorization>, checkIgnore: Int32, acl: map<string, string>, isDebugGrant: bool)

  function DecodeTail(c: seq<Cell>): Got<Tail> {
    match DecodeList(DecodePre, MAX_PERMLIST_SIZE, c)
    case Fail => Fail
    case Got(pre, c1) =>
      if c1 == [] || !c1[0].I32? then Fail
      else match DecodeList(DecodePair, MAX_ACL_MAP_SIZE, c1[1..])
        case Fail => Fail
        case Got(ps, c2) =>
          if c2 == [] || !c2[0].B? then Fail else Got(Tail(pre, c1[0].i32, Inserted(ps), c2[0].b), c2[1..])
  }

  function DecodePolicy(junk: UInt32, c: seq<Cell>): Got<HapPolicy> {
    if |c| < 2 || !c[0].I32? || !c[1].S? then Fail
    else match DecodeList(ObjectDef, MAX_PERMISSION_DEF_SIZE, c[2..])
      case Fail => Fail
      case Got(defs, c1) => match DecodeList(ObjectStatus(junk), MAX_PERMLIST_SIZE, c1)
        case Fail => Fail
        case Got(states, c2) => match DecodeList(DecodeString, MAX_PERMLIST_SIZE, c2)
          case Fail => Fail
          case Got(acls, c3) => match DecodeTail(c3)
            case Fail => Fail
            case Got(t, rest) =>
              Got(HapPolicy(c[0].i32, c[1].s, defs, states, acls, t.pre, t.checkIgnore, t.acl, t.isDebugGrant), rest)
  }

  // ---------------------------------------------------------------- the round trip

  predicate Any<T>(x: T) { true }
  function Same<T>(x: T): T { x }

  function Forget(junk: UInt32): PermissionStatus -> PermissionStatus {
    (p: PermissionStatus) => p.(tokenId := junk)
  }

  /** The policy as the reader gets it: every status has lost its token. */
  function Received(junk: UInt32, p: HapPolicy): HapPolicy {
    p.(permStateList := MapBack(Forget(junk), p.permStateList))
  }

  predicate TailOk(p: HapPolicy) {
    |p.preAuthorization| <= MAX_PERMLIST_SIZE && |p.aclExtendedMap| <= MAX_ACL_MAP_SIZE
  }

  predicate PolicyOk(p: HapPolicy) {
    && |p.permList| <= MAX_PERMISSION_DEF_SIZE && |p.permStateList| <= MAX_PERMLIST_SIZE
    && |p.aclRequestedList| <= MAX_PERMLIST_SIZE && TailOk(p)
  }

  lemma DefBack(d: PermissionDef, rest: seq<Cell>)
    ensures DecodeDef(EncodeDef(d) + rest) == Got(d, rest)
  {
    var tail := EncodeRest(d) + rest;
    var c := EncodeFront(d) + tail;
    assert EncodeDef(d) + rest == c;
    assert forall i :: 0 <= i < 6 ==> c[i] == EncodeFront(d)[i];
    assert c[6..] == tail && tail[7..] == rest;
    assert forall i :: 0 <= i < 7 ==> tail[i] == EncodeRest(d)[i];
  }

  lemma DefInverse()
    ensures Inverse(DefObject, ObjectDef, Any<PermissionDef>, Same<PermissionDef>)
  {
    hide DecodeDef, EncodeDef;
    forall d: PermissionDef, rest: seq<Cell> ensures ObjectDef(DefObject(d) + rest) == Got(d, rest) {
      assert (DefObject(d) + rest)[1..] == EncodeDef(d) + rest;
      DefBack(d, rest);
    }
  }

  lemma StatusInverse(junk: UInt32)
    ensures Inverse(StatusObject, ObjectStatus(junk), Any<PermissionStatus>, Forget(junk))
  {
    forall p: PermissionStatus, rest: seq<Cell>
      ensures ObjectStatus(junk)(StatusObject(p) + rest) == Got(Forget(junk)(p), rest)
    {
      assert (StatusObject(p) + rest)[1..] == EncodeStatus(p) + rest;
      var c := EncodeStatus(p) + rest;
      assert forall i :: 0 <= i < 5 ==> c[i] == EncodeStatus(p)[i];
      assert c[5..] == rest;
    }
  }

  lemma StringInverse()
    ensures Inverse(EncodeString, DecodeString, Any<string>, Same<string>)
  {
    forall s: string, rest: seq<Cell> ensures DecodeString(EncodeString(s) + rest) == Got(s, rest) {
      assert (EncodeString(s) + rest)[1..] == rest;
    }
  }

  lemma PreInverse()
    ensures Inverse(EncodePre, DecodePre, Any<PreAuthorization>, Same<PreAuthorization>)
  {
    forall p: PreAuthorization, rest: seq<Cell> ensures DecodePre(EncodePre(p) + rest) == Got(p, rest) {
      assert (EncodePre(p) + rest)[2..] == rest;
    }
  }

  lemma PairInverse()
    ensures Inverse(EncodePair, DecodePair, Any<Pair>, Same<Pair>)
  {
    forall p: Pair, rest: seq<Cell> ensures DecodePair(EncodePair(p) + rest) == Got(p, rest) {
      assert (EncodePair(p) + rest)[2..] == rest;
    }
  }

  /** Reading back a plain list. */
  lemma PlainList<T(!new)>(enc: T -> seq<Cell>, dec: seq<Cell> -> Got<T>, cap: nat, xs: Vec<T>, rest: seq<Cell>)
    requires Inverse(enc, dec, Any<T>, Same<T>)
    ensures DecodeList(dec, cap, EncodeList(enc, xs) + rest) == if |xs| <= cap then Got(xs, rest) else Fail
  {
    ListRoundTrip(enc, dec, Any<T>, Same<T>, cap, xs, rest);
    assert MapBack(Same<T>, xs) == xs;
  }

  lemma {:induction false} InsertedMeaning(m: map<string, string>, ps: seq<Pair>)
    requires forall i :: 0 <= i < |ps| ==> ps[i].key in m && m[ps[i].key] == ps[i].value
    ensures forall k :: k in Inserted(ps) <==> exists i :: 0 <= i < |ps| && ps[i].key == k
    ensures forall k :: k in Inserted(ps) ==> k in m && Inserted(ps)[k] == m[k]
    decreases |ps|
  {
    if ps != [] {
      var pre := ps[..|ps| - 1];
      InsertedMeaning(m, pre);
      forall k | k in Inserted(pre) ensures exists i :: 0 <= i < |ps| && ps[i].key == k {
        var i :| 0 <= i < |pre| && pre[i].key == k;
        assert ps[i].key == k;
      }
      forall i | 0 <= i < |pre| ensures ps[i].key in Inserted(pre) {
        assert pre[i].key == ps[i].key;
      }
      assert ps[|ps| - 1].key in Inserted(ps);
    }
  }

  lemma {:induction false} InsertedSize(ps: seq<Pair>)
    requires forall i, j :: 0 <= i < j < |ps| ==> ps[i].key != ps[j].key
    ensures |Inserted(ps)| == |ps|
    ensures forall k :: k in Inserted(ps) ==> exists i :: 0 <= i < |ps| && ps[i].key == k
    decreases |ps|
  {
    if ps != [] {
      var pre, k := ps[..|ps| - 1], ps[|ps| - 1].key;
      InsertedSize(pre);
      assert Inserted(ps).Keys == Inserted(pre).Keys + {k};
      forall x | x in Inserted(pre) ensures exists i :: 0 <= i < |ps| && ps[i].key == x {
        var i :| 0 <= i < |pre| && pre[i].key == x;
        assert ps[i].key == x;
      }
      assert ps[|ps| - 1].key == k;
    }
  }

  /** Inserting a map's entries in any order in which it can be walked rebuilds the map. */
  lemma WalkRebuilds(m: map<string, string>, ps: seq<Pair>)
    requires Walks(m, ps)
    ensures Inserted(ps) == m
  {
    InsertedMeaning(m, ps);
    InsertedSize(ps);
    var r := Inserted(ps);
    assert r.Keys <= m.Keys && |r.Keys| == |m.Keys|;
    if r.Keys != m.Keys {
      var k :| k in m.Keys && k !in r.Keys;
      assert r.Keys <= m.Keys - {k};
      SmallerSet(r.Keys, m.Keys - {k});
    }
  }

  lemma SmallerSet(a: set<string>, b: set<string>)
    requires a <= b
    ensures |a| <= |b|
  {
    assert b == a + (b - a);
  }

  lemma TailBack(p: HapPolicy, ps: Vec<Pair>, rest: seq<Cell>)
    requires Walks(p.aclExtendedMap, ps)
    ensures DecodeTail(EncodeTail(p, ps) + rest) ==
      if TailOk(p) then Got(Tail(p.preAuthorization, p.checkIgnore, p.aclExtendedMap, p.isDebugGrant), rest) else Fail
  {
    hide Inserted, EncodeList, DecodeList, Inverse;
    var pre, pairs := EncodeList(EncodePre, p.preAuthorization), EncodeList(EncodePair, ps);
    var end := [B(p.isDebugGrant)] + rest;
    var middle := [I32(p.checkIgnore)] + (pairs + end);
    assert EncodeTail(p, ps) + rest == pre + middle;
    PreInverse();
    PlainList(EncodePre, DecodePre, MAX_PERMLIST_SIZE, p.preAuthorization, middle);
    assert middle[1..] == pairs + end && end[1..] == rest;
    PairInverse();
    PlainList(EncodePair, DecodePair, MAX_ACL_MAP_SIZE, ps, end);
    WalkRebuilds(p.aclExtendedMap, ps);
  }

  /** Reading a written policy followed by anything gives the same policy, except for the tokens of its statuses,
      and leaves exactly what followed, when all caps are respected; otherwise the writer or the reader
      refuses. It holds for every order in which the map is walked and whatever the fresh tokens held. */
  lemma PolicyRoundTrip(junk: UInt32, p: HapPolicy, ps: Vec<Pair>, rest: seq<Cell>)
    requires Walks(p.aclExtendedMap, ps)
    ensures EncodePolicy(p, ps).None? <==> |p.permList| > MAX_PERMISSION_DEF_SIZE
    ensures EncodePolicy(p, ps).Some? ==>
      DecodePolicy(junk, EncodePolicy(p, ps).value + rest) == if PolicyOk(p) then Got(Received(junk, p), rest) else Fail
  {
    hide DecodeTail, EncodeTail, EncodeList, DecodeList, Inverse, TailOk;
    if EncodePolicy(p, ps).Some? {
      var defs, states := EncodeList(DefObject, p.permList), EncodeList(StatusObject, p.permStateList);
      var acls, tail := EncodeList(EncodeString, p.aclRequestedList), EncodeTail(p, ps);
      var c := EncodePolicy(p, ps).value + rest;
      assert c == [I32(p.apl), S(p.domain)] + (defs + (states + (acls + (tail + rest))));
      assert c[2..] == defs + (states + (acls + (tail + rest)));
      DefInverse();
      PlainList(DefObject, ObjectDef, MAX_PERMISSION_DEF_SIZE, p.permList, states + (acls + (tail + rest)));
      StatusInverse(junk);
      ListRoundTrip(StatusObject, ObjectStatus(junk), Any<PermissionStatus>, Forget(junk), MAX_PERMLIST_SIZE,
                    p.permStateList, acls + (tail + rest));
      StringInverse();
      PlainList(EncodeString, DecodeString, MAX_PERMLIST_SIZE, p.aclRequestedList, tail + rest);
      TailBack(p, ps, rest);
    }
  }

  /** The only thing lost is the token: a policy comes back equal, for every fresh value, exactly when it has no
      statuses. */
  lemma OnlyTokensLost(p: HapPolicy)
    ensures (forall junk: UInt32 :: Received(junk, p) == p) <==> p.permStateList == []
  {
    if p.permStateList != [] {
      var t := p.permStateList[0].tokenId;
      var junk: UInt32 := if t == 0 then 1 else 0;
      assert Received(junk, p).permStateList[0].tokenId == junk;
    } else {
      forall junk: UInt32 ensures Received(junk, p) == p {
        assert MapBack(Forget(junk), p.permStateList) == p.permStateList;
      }
    }
  }

  // ---------------------------------------------------------------- the wire

  /** The sizes that come back. */
  lemma AcceptedSizes(p: HapPolicy)
    ensures PolicyOk(p) <==>
      && |p.permList| <= 2048 && |p.permStateList| <= 1024 && |p.aclRequestedList| <= 1024
      && |p.preAuthorization| <= 1024 && |p.aclExtendedMap| <= 512
  {
  }

  lemma {:induction false} EvenCells<T(!new)>(enc: T -> seq<Cell>, n: nat, xs: seq<T>)
    requires forall x :: |enc(x)| == n
    ensures |EncodeAll(enc, xs)| == n * |xs|
    decreases |xs|
  {
    if xs != [] {
      EvenCells(enc, n, xs[..|xs| - 1]);
      assert n * |xs| == n * (|xs| - 1) + n;
    }
  }

  lemma ListCells(p: HapPolicy, ps: Vec<Pair>)
    ensures |EncodeList(DefObject, p.permList)| == 1 + 14 * |p.permList|
    ensures |EncodeList(StatusObject, p.permStateList)| == 1 + 6 * |p.permStateList|
    ensures |EncodeList(EncodeString, p.aclRequestedList)| == 1 + |p.aclRequestedList|
    ensures |EncodeList(EncodePre, p.preAuthorization)| == 1 + 2 * |p.preAuthorization|
    ensures |EncodeList(EncodePair, ps)| == 1 + 2 * |ps|
  {
    hide EncodeAll;
    EvenCells(DefObject, 14, p.permList);
    EvenCells(StatusObject, 6, p.permStateList);
    EvenCells(EncodeString, 1, p.aclRequestedList);
    EvenCells(EncodePre, 2, p.preAuthorization);
    EvenCells(EncodePair, 2, ps);
  }

  /** Where a reader finds what in a policy: level, domain, the counted definitions of fourteen cells, the counted
      statuses of six, the counted ACL names, the counted pre-authorisations of two, the ignore flag, the counted map
      entries of two, the debug flag. */
  lemma PolicyLayout(p: HapPolicy, ps: Vec<Pair>)
    requires Walks(p.aclExtendedMap, ps) && |p.permList| <= 2048
    ensures EncodePolicy(p, ps).Some?
    ensures var c := EncodePolicy(p, ps).value;
      var states := 3 + 14 * |p.permList|;
      var acls := states + 1 + 6 * |p.permStateList|;
      var pre := acls + 1 + |p.aclRequestedList|;
      var ignore := pre + 1 + 2 * |p.preAuthorization|;
      var debug := ignore + 2 + 2 * |ps|;
      && |c| == debug + 1 && c[0] == I32(p.apl) && c[1] == S(p.domain) && c[2] == U32(|p.permList|)
      && c[states] == U32(|p.permStateList|) && c[acls] == U32(|p.aclRequestedList|)
      && c[pre] == U32(|p.preAuthorization|) && c[ignore] == I32(p.checkIgnore) && c[ignore + 1] == U32(|ps|)
      && c[debug] == B(p.isDebugGrant)
  {
    hide EncodeAll, DefObject, StatusObject;
    ListCells(p, ps);
    var defs, states := EncodeList(DefObject, p.permList), EncodeList(StatusObject, p.permStateList);
    var acls, pre := EncodeList(EncodeString, p.aclRequestedList), EncodeList(EncodePre, p.preAuthorization);
    var pairs := EncodeList(EncodePair, ps);
    FlatPolicy([I32(p.apl), S(p.domain)], defs, states, acls, pre, I32(p.checkIgnore), pairs, B(p.isDebugGrant));
    assert EncodePolicy(p, ps).value == [I32(p.apl), S(p.domain)]
      + (defs + (states + (acls + (pre + ([I32(p.checkIgnore)] + (pairs + [B(p.isDebugGrant)]))))));
  }

  /** Where the parts of a concatenation stand. */
  lemma FlatPolicy(head: seq<Cell>, a: seq<Cell>, b: seq<Cell>, c: seq<Cell>, d: seq<Cell>, x: Cell, e: seq<Cell>,
                   y: Cell)
    requires a != [] && b != [] && c != [] && d != [] && e != []
    ensures var all := head + (a + (b + (c + (d + ([x] + (e + [y]))))));
      var i := |head|;
      var j := i + |a|;
      var k := j + |b|;
      var l := k + |c|;
      var m := l + |d|;
      && |all| == m + 2 + |e| && all[..i] == head
      && all[i] == a[0] && all[j] == b[0] && all[k] == c[0] && all[l] == d[0] && all[m] == x && all[m + 1] == e[0] && all[m + 1 + |e|] == y
  {
  }

  /** Where a reader finds what in a definition and a status. */
  lemma LeafLayouts(d: PermissionDef, s: PermissionStatus, a: PreAuthorization, e: Pair)
    ensures EncodePre(a) == [S(a.permissionName), B(a.userCancelable)] && EncodePair(e) == [S(e.key), S(e.value)]
    ensures EncodeDef(d) ==
      [S(d.permissionName), S(d.bundleName), I32(d.grantMode), I32(d.availableLevel), B(d.provisionEnable),
       B(d.distributedSceneEnable), S(d.descLabel), I32(d.labelId), S(d.description), I32(d.descriptionId),
       I32(d.availableType), B(d.isKernelEffect), B(d.hasValue)]
    ensures StatusObject(s)[1..] ==
      [S(s.permissionName), S(s.feature), I32(s.grantStatus), U32(s.grantFlag), U64(s.timestamp)]
  {
  }
}
