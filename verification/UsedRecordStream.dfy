/** Marshalling and unmarshalling of the permission-use result, level by level, on a mutable parcel. */
module UsedRecordStream {
  import opened Options
  import opened Parcels
  import opened ParcelStream
  import opened UsedRecordParcel

  method MarshalDetail(out: Parcel, d: Detail)
    modifies out`data
    ensures out.data == old(out.data) + DetailObject(d)
  {
    ghost var before := out.data;
    out.Write(I32(1));
    out.Write(I32(d.status));
    out.Write(I32(d.lockScreenStatus));
    out.Write(I64(d.timestamp));
    out.Write(I64(d.accessDuration));
    out.Write(I32(d.count));
    out.Write(U32(ToUnsigned(d.usedType)));
    assert out.data == before + DetailObject(d);
  }

  method MarshalDetails(out: Parcel, xs: Vec<Detail>)
    modifies out`data
    ensures out.data == old(out.data) + EncodeList(DetailObject, xs)
  {
    hide DetailObject;
    ghost var before := out.data;
    out.Write(U32(|xs|));
    for i := 0 to |xs|
      invariant out.data == before + [U32(|xs|)] + EncodeAll(DetailObject, xs[..i])
    {
      EncodeNext(DetailObject, xs, i);
      MarshalDetail(out, xs[i]);
    }
    assert xs[..|xs|] == xs;
  }

  method MarshalRecordHead(out: Parcel, r: PermissionRecord)
    modifies out`data
    ensures out.data == old(out.data) + ([I32(1)] + RecordHead(r))
  {
    ghost var before := out.data;
    out.Write(I32(1));
    out.Write(S(r.permissionName));
    out.Write(S(r.enhancedIdentity));
    out.Write(I32(r.accessCount));
    out.Write(I32(r.secAccessCount));
    out.Write(I32(r.rejectCount));
    out.Write(I64(r.lastAccessTime));
    out.Write(I64(r.lastRejectTime));
    out.Write(I64(r.lastAccessDuration));
    assert out.data == before + ([I32(1)] + RecordHead(r));
  }

  method MarshalRecord(out: Parcel, r: PermissionRecord)
    modifies out`data
    ensures out.data == old(out.data) + RecordObject(r)
  {
    hide EncodeList, RecordHead;
    ghost var before := out.data;
    MarshalRecordHead(out, r);
    MarshalDetails(out, r.accessRecords);
    MarshalDetails(out, r.rejectRecords);
    assert out.data == before + RecordObject(r);
  }

  method MarshalRecords(out: Parcel, xs: Vec<PermissionRecord>)
    modifies out`data
    ensures out.data == old(out.data) + EncodeList(RecordObject, xs)
  {
    hide RecordObject;
    ghost var before := out.data;
    out.Write(U32(|xs|));
    for i := 0 to |xs|
      invariant out.data == before + [U32(|xs|)] + EncodeAll(RecordObject, xs[..i])
    {
      EncodeNext(RecordObject, xs, i);
      MarshalRecord(out, xs[i]);
    }
    assert xs[..|xs|] == xs;
  }

  method MarshalBundle(out: Parcel, b: BundleRecord)
    modifies out`data
    ensures out.data == old(out.data) + BundleObject(b)
  {
    hide EncodeList;
    ghost var before := out.data;
    out.Write(I32(1));
    out.Write(U32(b.tokenId));
    out.Write(B(b.isRemote));
    out.Write(S(b.deviceId));
    out.Write(S(b.deviceName));
    out.Write(S(b.bundleName));
    assert out.data == before + ([I32(1)] + BundleHead(b));
    MarshalRecords(out, b.permissionRecords);
    assert out.data == before + BundleObject(b);
  }

  method MarshalBundles(out: Parcel, xs: Vec<BundleRecord>)
    modifies out`data
    ensures out.data == old(out.data) + EncodeList(BundleObject, xs)
  {
    hide BundleObject;
    ghost var before := out.data;
    out.Write(U32(|xs|));
    for i := 0 to |xs|
      invariant out.data == before + [U32(|xs|)] + EncodeAll(BundleObject, xs[..i])
    {
      EncodeNext(BundleObject, xs, i);
      MarshalBundle(out, xs[i]);
    }
    assert xs[..|xs|] == xs;
  }

  method Marshal(out: Parcel, r: UsedResult)
    modifies out`data
    ensures out.data == old(out.data) + EncodeResult(r)
  {
    hide EncodeList;
    ghost var before := out.data;
    out.Write(I64(r.beginTime));
    out.Write(I64(r.endTime));
    assert out.data == before + [I64(r.beginTime), I64(r.endTime)];
    MarshalBundles(out, r.bundles);
  }

  method UnmarshalDetail(src: Parcel) returns (r: Option<Detail>)
    requires src.Valid()
    modifies src`pos
    ensures src.Valid() && Agrees(ObjectDetail(old(src.Rest())), r, src.Rest())
  {
    ghost var c := src.Rest();
    var marker := src.ReadInt32();
    if marker.None? || marker.value == 0 { return None; }
    assert c[1..] == src.Rest();
    var status := src.ReadInt32();
    if status.None? { return None; }
    var lock := src.ReadInt32();
    if lock.None? { return None; }
    var timestamp := src.ReadInt64();
    if timestamp.None? { return None; }
    var duration := src.ReadInt64();
    if duration.None? { return None; }
    var count := src.ReadInt32();
    if count.None? { return None; }
    var usedType := src.ReadUint32();
    if usedType.None? { return None; }
    assert c[1..][6..] == src.Rest();
    return Some(Detail(status.value, lock.value, timestamp.value, duration.value, count.value,
                       FromUnsigned(usedType.value)));
  }

  method UnmarshalDetails(src: Parcel, n: UInt32) returns (r: Option<seq<Detail>>)
    requires src.Valid()
    modifies src`pos
    ensures src.Valid() && Agrees(DecodeAll(ObjectDetail, n, old(src.Rest())), r, src.Rest())
  {
    hide ObjectDetail;
    ghost var c := src.Rest();
    var xs: seq<Detail> := [];
    for i := 0 to n
      invariant src.Valid() && DecodeAll(ObjectDetail, i, c) == Got(xs, src.Rest())
    {
      var x := UnmarshalDetail(src);
      if x.None? {
        DecodeStuck(ObjectDetail, i + 1, n, c);
        return None;
      }
      xs := xs + [x.value];
    }
    return Some(xs);
  }

  method UnmarshalRecord(src: Parcel) returns (r: Option<PermissionRecord>)
    requires src.Valid()
    modifies src`pos
    ensures src.Valid() && Agrees(ObjectRecord(old(src.Rest())), r, src.Rest())
  {
    hide DecodeDetails;
    ghost var c := src.Rest();
    var marker := src.ReadInt32();
    if marker.None? || marker.value == 0 { return None; }
    assert c[1..] == src.Rest();
    var name := src.ReadString();
    if name.None? { return None; }
    var identity := src.ReadString();
    if identity.None? { return None; }
    var accessCount := src.ReadInt32();
    if accessCount.None? { return None; }
    var secAccessCount := src.ReadInt32();
    if secAccessCount.None? { return None; }
    var rejectCount := src.ReadInt32();
    if rejectCount.None? { return None; }
    var lastAccess := src.ReadInt64();
    if lastAccess.None? { return None; }
    var lastReject := src.ReadInt64();
    if lastReject.None? { return None; }
    var duration := src.ReadInt64();
    if duration.None? { return None; }
    assert IsRecordHead(c[1..]) && c[1..][8..] == src.Rest();
    var lists := UnmarshalBoth(src);
    if lists.None? { return None; }
    return Some(PermissionRecord(name.value, identity.value, accessCount.value, secAccessCount.value, rejectCount.value,
                                 lastAccess.value, lastReject.value, duration.value, lists.value.0, lists.value.1));
  }

  /** The access list, then the reject list, under their joint cap. */
  method UnmarshalBoth(src: Parcel) returns (r: Option<(Vec<Detail>, Vec<Detail>)>)
    requires src.Valid()
    modifies src`pos
    ensures src.Valid() && Agrees(DecodeDetails(old(src.Rest())), r, src.Rest())
  {
    hide ObjectDetail;
    ghost var c := src.Rest();
    var accSize := src.ReadUint32();
    if accSize.None? || accSize.value > MAX_ACCESS_RECORD_SIZE { return None; }
    assert c[1..] == src.Rest();
    var accs := UnmarshalDetails(src, accSize.value);
    if accs.None? { return None; }
    ghost var c1 := src.Rest();
    var rejSize := src.ReadUint32();
    if rejSize.None? || rejSize.value > MAX_ACCESS_RECORD_SIZE { return None; }
    if accSize.value + rejSize.value > MAX_ACCESS_RECORD_SIZE { return None; }
    assert c1[1..] == src.Rest();
    var rejs := UnmarshalDetails(src, rejSize.value);
    if rejs.None? { return None; }
    return Some((accs.value, rejs.value));
  }

  method UnmarshalBundle(src: Parcel) returns (r: Option<BundleRecord>)
    requires src.Valid()
    modifies src`pos
    ensures src.Valid() && Agrees(ObjectBundle(old(src.Rest())), r, src.Rest())
  {
    hide ObjectRecord;
    ghost var c := src.Rest();
    var marker := src.ReadInt32();
    if marker.None? || marker.value == 0 { return None; }
    assert c[1..] == src.Rest();
    var tokenId := src.ReadUint32();
    if tokenId.None? { return None; }
    var isRemote := src.ReadBool();
    if isRemote.None? { return None; }
    var deviceId := src.ReadString();
    if deviceId.None? { return None; }
    var deviceName := src.ReadString();
    if deviceName.None? { return None; }
    var bundleName := src.ReadString();
    if bundleName.None? { return None; }
    assert IsBundleHead(c[1..]) && c[1..][5..] == src.Rest();
    var recs := UnmarshalRecords(src);
    if recs.None? { return None; }
    return Some(BundleRecord(tokenId.value, isRemote.value, deviceId.value, deviceName.value, bundleName.value,
                             recs.value));
  }

  method UnmarshalRecords(src: Parcel) returns (r: Option<seq<PermissionRecord>>)
    requires src.Valid()
    modifies src`pos
    ensures src.Valid() && Agrees(DecodeList(ObjectRecord, MAX_RECORD_SIZE, old(src.Rest())), r, src.Rest())
    ensures r.Some? ==> |r.value| <= MAX_RECORD_SIZE
  {
    hide ObjectRecord;
    ghost var c := src.Rest();
    var n := src.ReadUint32();
    if n.None? || n.value > MAX_RECORD_SIZE { return None; }
    assert c[1..] == src.Rest();
    var xs: seq<PermissionRecord> := [];
    for i := 0 to n.value
      invariant src.Valid() && DecodeAll(ObjectRecord, i, c[1..]) == Got(xs, src.Rest())
    {
      var x := UnmarshalRecord(src);
      if x.None? {
        DecodeStuck(ObjectRecord, i + 1, n.value, c[1..]);
        return None;
      }
      xs := xs + [x.value];
    }
    return Some(xs);
  }

  /** Reads a whole result: what the codec gives, at the place the codec stops. */
  method Unmarshal(src: Parcel) returns (r: Option<UsedResult>)
    requires src.Valid()
    modifies src`pos
    ensures src.Valid() && Agrees(DecodeResult(old(src.Rest())), r, src.Rest())
  {
    hide ObjectBundle;
    ghost var c := src.Rest();
    var begin := src.ReadInt64();
    if begin.None? { return None; }
    var end := src.ReadInt64();
    if end.None? { return None; }
    assert c[2..] == src.Rest();
    var n := src.ReadUint32();
    if n.None? || n.value > MAX_RECORD_SIZE { return None; }
    ghost var start := src.Rest();
    assert c[2..][1..] == start;
    var xs: seq<BundleRecord> := [];
    for i := 0 to n.value
      invariant src.Valid() && DecodeAll(ObjectBundle, i, start) == Got(xs, src.Rest())
    {
      var x := UnmarshalBundle(src);
      if x.None? {
        DecodeStuck(ObjectBundle, i + 1, n.value, start);
        return None;
      }
      xs := xs + [x.value];
    }
    return Some(UsedResult(begin.value, end.value, xs));
  }

  /** Writing into one parcel and reading from it returns the value exactly when the caps allow it. */
  method SendAndReceive(r: UsedResult) returns (back: Option<UsedResult>)
    ensures back == if ResultOk(r) then Some(r) else None
  {
    hide EncodeResult, DecodeResult;
    var p := new Parcel();
    Marshal(p, r);
    ResultRoundTrip(r, []);
    assert p.Rest() == EncodeResult(r) + [];
    back := Unmarshal(p);
  }
}
