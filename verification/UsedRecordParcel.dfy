/** The permission-use result and its three nested levels, written to and read from a parcel. */
module UsedRecordParcel {
  import opened Parcels

  const MAX_RECORD_SIZE := 1024
  const MAX_ACCESS_RECORD_SIZE := 500

  datatype Detail = Detail(status: Int32, lockScreenStatus: Int32, timestamp: Int64, accessDuration: Int64,
                           count: Int32, usedType: Int32)

  datatype PermissionRecord = PermissionRecord(permissionName: string, enhancedIdentity: string,
                                               accessCount: Int32, secAccessCount: Int32, rejectCount: Int32,
                                               lastAccessTime: Int64, lastRejectTime: Int64, lastAccessDuration: Int64,
                                               accessRecords: Vec<Detail>, rejectRecords: Vec<Detail>)

  datatype BundleRecord = BundleRecord(tokenId: UInt32, isRemote: bool, deviceId: string, deviceName: string,
                                       bundleName: string, permissionRecords: Vec<PermissionRecord>)

  datatype UsedResult = UsedResult(beginTime: Int64, endTime: Int64, bundles: Vec<BundleRecord>)

  /** An enumeration value is carried as an unsigned number. */
  function ToUnsigned(x: Int32): UInt32 {
    if x < 0 then x + UINT32_RANGE else x
  }

  function FromUnsigned(x: UInt32): Int32 {
    if x >= 0x8000_0000 then x - UINT32_RANGE else x
  }

  // ---------------------------------------------------------------- writing

  function EncodeDetail(d: Detail): seq<Cell> {
    [I32(d.status), I32(d.lockScreenStatus), I64(d.timestamp), I64(d.accessDuration), I32(d.count),
     U32(ToUnsigned(d.usedType))]
  }

  function DetailObject(d: Detail): seq<Cell> {
    EncodeObject(EncodeDetail, d)
  }

  function RecordHead(r: PermissionRecord): seq<Cell> {
    [S(r.permissionName), S(r.enhancedIdentity), I32(r.accessCount), I32(r.secAccessCount), I32(r.rejectCount),
     I64(r.lastAccessTime), I64(r.lastRejectTime), I64(r.lastAccessDuration)]
  }

  function EncodeRecord(r: PermissionRecord): seq<Cell> {
    RecordHead(r) + EncodeList(DetailObject, r.accessRecords) + EncodeList(DetailObject, r.rejectRecords)
  }

  function RecordObject(r: PermissionRecord): seq<Cell> {
    EncodeObject(EncodeRecord, r)
  }

  function BundleHead(b: BundleRecord): seq<Cell> {
    [U32(b.tokenId), B(b.isRemote), S(b.deviceId), S(b.deviceName), S(b.bundleName)]
  }

  function EncodeBundle(b: BundleRecord): seq<Cell> {
    BundleHead(b) + EncodeList(RecordObject, b.permissionRecords)
  }

  function BundleObject(b: BundleRecord): seq<Cell> {
    EncodeObject(EncodeBundle, b)
  }

  function EncodeResult(r: UsedResult): seq<Cell> {
    [I64(r.beginTime), I64(r.endTime)] + EncodeList(BundleObject, r.bundles)
  }

  // ---------------------------------------------------------------- reading

  function DecodeDetail(c: seq<Cell>): Got<Detail> {
    if |c| >= 6 && c[0].I32? && c[1].I32? && c[2].I64? && c[3].I64? && c[4].I32? && c[5].U32?
    then Got(Detail(c[0].i32, c[1].i32, c[2].i64, c[3].i64, c[4].i32, FromUnsigned(c[5].u32)), c[6..])
    else Fail
  }

  function ObjectDetail(c: seq<Cell>): Got<Detail> {
    DecodeObject(DecodeDetail, c)
  }

  predicate IsRecordHead(c: seq<Cell>) {
    |c| >= 8 && c[0].S? && c[1].S? && c[2].I32? && c[3].I32? && c[4].I32? && c[5].I64? && c[6].I64? && c[7].I64?
  }

  /** Two counted lists whose lengths share one cap. */
  function DecodeDetails(c: seq<Cell>): Got<(Vec<Detail>, Vec<Detail>)> {
    match DecodeList(ObjectDetail, MAX_ACCESS_RECORD_SIZE, c)
    case Fail => Fail
    case Got(accs, rest) =>
      if rest == [] || !rest[0].U32? || rest[0].u32 > MAX_ACCESS_RECORD_SIZE
         || |accs| + rest[0].u32 > MAX_ACCESS_RECORD_SIZE then Fail
      else match DecodeAll(ObjectDetail, rest[0].u32, rest[1..])
        case Fail => Fail
        case Got(rejs, rest') => Got((accs, rejs), rest')
  }

  function DecodeRecord(c: seq<Cell>): Got<PermissionRecord> {
    if !IsRecordHead(c) then Fail
    else match DecodeDetails(c[8..])
      case Fail => Fail
      case Got((accs, rejs), rest) =>
        Got(PermissionRecord(c[0].s, c[1].s, c[2].i32, c[3].i32, c[4].i32, c[5].i64, c[6].i64, c[7].i64, accs, rejs),
            rest)
  }

  function ObjectRecord(c: seq<Cell>): Got<PermissionRecord> {
    DecodeObject(DecodeRecord, c)
  }

  predicate IsBundleHead(c: seq<Cell>) {
    |c| >= 5 && c[0].U32? && c[1].B? && c[2].S? && c[3].S? && c[4].S?
  }

  function DecodeBundle(c: seq<Cell>): Got<BundleRecord> {
    if !IsBundleHead(c) then Fail
    else match DecodeList(ObjectRecord, MAX_RECORD_SIZE, c[5..])
      case Fail => Fail
      case Got(recs, rest) => Got(BundleRecord(c[0].u32, c[1].b, c[2].s, c[3].s, c[4].s, recs), rest)
  }

  function ObjectBundle(c: seq<Cell>): Got<BundleRecord> {
    DecodeObject(DecodeBundle, c)
  }

  function DecodeResult(c: seq<Cell>): Got<UsedResult> {
    if |c| < 2 || !c[0].I64? || !c[1].I64? then Fail
    else match DecodeList(ObjectBundle, MAX_RECORD_SIZE, c[2..])
      case Fail => Fail
      case Got(bs, rest) => Got(UsedResult(c[0].i64, c[1].i64, bs), rest)
  }

  // ---------------------------------------------------------------- what the reader accepts

  predicate DetailOk(d: Detail) {
    true
  }

  predicate RecordOk(r: PermissionRecord) {
    |r.accessRecords| + |r.rejectRecords| <= MAX_ACCESS_RECORD_SIZE
  }

  predicate BundleOk(b: BundleRecord) {
    |b.permissionRecords| <= MAX_RECORD_SIZE && AllOk(RecordOk, b.permissionRecords)
  }

  /** At most 1024 bundles of at most 1024 records of at most 500 details in all. */
  predicate ResultOk(r: UsedResult) {
    |r.bundles| <= MAX_RECORD_SIZE && AllOk(BundleOk, r.bundles)
  }

  function SameDetail(d: Detail): Detail { d }
  function SameRecord(r: PermissionRecord): PermissionRecord { r }
  function SameBundle(b: BundleRecord): BundleRecord { b }

  lemma DetailBack(d: Detail, rest: seq<Cell>)
    ensures DecodeDetail(EncodeDetail(d) + rest) == Got(d, rest)
  {
    var c := EncodeDetail(d) + rest;
    assert forall i :: 0 <= i < 6 ==> c[i] == EncodeDetail(d)[i];
    assert c[6..] == rest;
  }

  lemma DetailInverse()
    ensures Inverse(DetailObject, ObjectDetail, DetailOk, SameDetail)
  {
    forall d: Detail, rest: seq<Cell>
      ensures ObjectDetail(DetailObject(d) + rest) == if DetailOk(d) then Got(SameDetail(d), rest) else Fail
    {
      assert (DetailObject(d) + rest)[1..] == EncodeDetail(d) + rest;
      DetailBack(d, rest);
    }
  }

  lemma DetailsBack(xs: Vec<Detail>, cap: nat, rest: seq<Cell>)
    ensures DecodeList(ObjectDetail, cap, EncodeList(DetailObject, xs) + rest)
         == if |xs| <= cap then Got(xs, rest) else Fail
    ensures DecodeAll(ObjectDetail, |xs|, EncodeAll(DetailObject, xs) + rest) == Got(xs, rest)
  {
    DetailInverse();
    ListRoundTrip(DetailObject, ObjectDetail, DetailOk, SameDetail, cap, xs, rest);
    AllRoundTrip(DetailObject, ObjectDetail, DetailOk, SameDetail, xs, rest);
    assert MapBack(SameDetail, xs) == xs;
  }

  lemma TwoListsBack(accs: Vec<Detail>, rejs: Vec<Detail>, rest: seq<Cell>)
    ensures DecodeDetails(EncodeList(DetailObject, accs) + (EncodeList(DetailObject, rejs) + rest))
         == if |accs| + |rejs| <= MAX_ACCESS_RECORD_SIZE then Got((accs, rejs), rest) else Fail
  {
    hide DecodeList, EncodeAll, DecodeAll;
    var tail := EncodeList(DetailObject, rejs) + rest;
    DetailsBack(accs, MAX_ACCESS_RECORD_SIZE, tail);
    assert tail[1..] == EncodeAll(DetailObject, rejs) + rest;
    DetailsBack(rejs, MAX_ACCESS_RECORD_SIZE, rest);
  }

  lemma HeadBack(r: PermissionRecord, tail: seq<Cell>)
    ensures var c := RecordHead(r) + tail;
      && IsRecordHead(c) && c[8..] == tail
      && r == PermissionRecord(c[0].s, c[1].s, c[2].i32, c[3].i32, c[4].i32, c[5].i64, c[6].i64, c[7].i64,
                               r.accessRecords, r.rejectRecords)
  {
    assert forall i :: 0 <= i < 8 ==> (RecordHead(r) + tail)[i] == RecordHead(r)[i];
  }

  lemma RecordBack(r: PermissionRecord, rest: seq<Cell>)
    ensures DecodeRecord(EncodeRecord(r) + rest) == if RecordOk(r) then Got(r, rest) else Fail
  {
    hide DecodeDetails, EncodeList, RecordHead, IsRecordHead;
    var accs, rejs := EncodeList(DetailObject, r.accessRecords), EncodeList(DetailObject, r.rejectRecords);
    assert EncodeRecord(r) + rest == RecordHead(r) + (accs + (rejs + rest));
    HeadBack(r, accs + (rejs + rest));
    TwoListsBack(r.accessRecords, r.rejectRecords, rest);
  }

  lemma RecordInverse()
    ensures Inverse(RecordObject, ObjectRecord, RecordOk, SameRecord)
  {
    forall r: PermissionRecord, rest: seq<Cell>
      ensures ObjectRecord(RecordObject(r) + rest) == if RecordOk(r) then Got(SameRecord(r), rest) else Fail
    {
      assert (RecordObject(r) + rest)[1..] == EncodeRecord(r) + rest;
      RecordBack(r, rest);
    }
  }

  lemma BundleBack(b: BundleRecord, rest: seq<Cell>)
    ensures DecodeBundle(EncodeBundle(b) + rest) == if BundleOk(b) then Got(b, rest) else Fail
  {
    hide DecodeList, EncodeList, Inverse;
    RecordInverse();
    var c := EncodeBundle(b) + rest;
    assert forall i :: 0 <= i < 5 ==> c[i] == BundleHead(b)[i];
    assert c[5..] == EncodeList(RecordObject, b.permissionRecords) + rest;
    ListRoundTrip(RecordObject, ObjectRecord, RecordOk, SameRecord, MAX_RECORD_SIZE, b.permissionRecords, rest);
    assert MapBack(SameRecord, b.permissionRecords) == b.permissionRecords;
  }

  lemma BundleInverse()
    ensures Inverse(BundleObject, ObjectBundle, BundleOk, SameBundle)
  {
    forall b: BundleRecord, rest: seq<Cell>
      ensures ObjectBundle(BundleObject(b) + rest) == if BundleOk(b) then Got(SameBundle(b), rest) else Fail
    {
      assert (BundleObject(b) + rest)[1..] == EncodeBundle(b) + rest;
      BundleBack(b, rest);
    }
  }

  /** Reading a written result followed by anything gives the same result and leaves exactly what followed when
      all caps are respected at every level, and nothing otherwise. */
  lemma ResultRoundTrip(r: UsedResult, rest: seq<Cell>)
    ensures DecodeResult(EncodeResult(r) + rest) == if ResultOk(r) then Got(r, rest) else Fail
  {
    BundleInverse();
    var c := EncodeResult(r) + rest;
    assert c[2..] == EncodeList(BundleObject, r.bundles) + rest;
    ListRoundTrip(BundleObject, ObjectBundle, BundleOk, SameBundle, MAX_RECORD_SIZE, r.bundles, rest);
    assert MapBack(SameBundle, r.bundles) == r.bundles;
  }

  // ---------------------------------------------------------------- the wire

  /** The sizes that come back: 1024 bundles, 1024 records each, 500 access and reject details each. */
  lemma AcceptedSizes(r: UsedResult)
    ensures ResultOk(r) <==>
      && |r.bundles| <= 1024
      && forall i :: 0 <= i < |r.bundles| ==>
           && |r.bundles[i].permissionRecords| <= 1024
           && forall k :: 0 <= k < |r.bundles[i].permissionRecords| ==>
                var p := r.bundles[i].permissionRecords[k]; |p.accessRecords| + |p.rejectRecords| <= 500
  {
    if ResultOk(r) {
      forall i | 0 <= i < |r.bundles|
        ensures |r.bundles[i].permissionRecords| <= 1024
        ensures forall k :: 0 <= k < |r.bundles[i].permissionRecords| ==>
                  var p := r.bundles[i].permissionRecords[k]; |p.accessRecords| + |p.rejectRecords| <= 500
      {
        assert BundleOk(r.bundles[i]);
        forall k | 0 <= k < |r.bundles[i].permissionRecords|
          ensures var p := r.bundles[i].permissionRecords[k]; |p.accessRecords| + |p.rejectRecords| <= 500
        {
          assert RecordOk(r.bundles[i].permissionRecords[k]);
        }
      }
    }
  }

  lemma {:induction false} DetailCells(xs: seq<Detail>)
    ensures |EncodeAll(DetailObject, xs)| == 7 * |xs|
    decreases |xs|
  {
    if xs != [] {
      DetailCells(xs[..|xs| - 1]);
      assert |DetailObject(xs[|xs| - 1])| == 7;
    }
  }

  /** Where a reader finds what in a record: eight scalars in this order, the number of access details, seven cells for
      each, the number of reject details, seven cells for each. */
  lemma RecordLayout(r: PermissionRecord)
    ensures var c, n := EncodeRecord(r), |r.accessRecords|;
      && |c| == 10 + 7 * (n + |r.rejectRecords|)
      && c[0] == S(r.permissionName) && c[1] == S(r.enhancedIdentity) && c[2] == I32(r.accessCount)
      && c[3] == I32(r.secAccessCount) && c[4] == I32(r.rejectCount) && c[5] == I64(r.lastAccessTime)
      && c[6] == I64(r.lastRejectTime) && c[7] == I64(r.lastAccessDuration)
      && c[8] == U32(n) && c[9 + 7 * n] == U32(|r.rejectRecords|)
  {
    hide EncodeAll;
    DetailCells(r.accessRecords);
    DetailCells(r.rejectRecords);
    var head := RecordHead(r);
    var accs, rejs := EncodeList(DetailObject, r.accessRecords), EncodeList(DetailObject, r.rejectRecords);
    var c := EncodeRecord(r);
    assert c == head + accs + rejs;
    assert forall i :: 0 <= i < 8 ==> c[i] == head[i];
    assert c[8] == accs[0];
    assert c[9 + 7 * |r.accessRecords|] == rejs[0];
  }

  /** The same for a detail, a bundle and a result. */
  lemma OtherLayouts(d: Detail, b: BundleRecord, r: UsedResult)
    ensures var c := DetailObject(d);
      c[1..6] == [I32(d.status), I32(d.lockScreenStatus), I64(d.timestamp), I64(d.accessDuration), I32(d.count)]
      && (d.usedType >= 0 ==> c[6] == U32(d.usedType))
    ensures var c := EncodeBundle(b);
      c[..6] == [U32(b.tokenId), B(b.isRemote), S(b.deviceId), S(b.deviceName), S(b.bundleName),
                 U32(|b.permissionRecords|)]
    ensures EncodeResult(r)[..3] == [I64(r.beginTime), I64(r.endTime), U32(|r.bundles|)]
  {
    hide EncodeAll;
  }
}
