/** Marshalling and unmarshalling of the application policy on a mutable parcel. */
module HapPolicyStream {
  import opened Options
  import opened Parcels
  import opened ParcelStream
  import opened HapPolicyParcel

  method MarshalFront(out: Parcel, x: PermissionDef)
    modifies out`data
    ensures out.data == old(out.data) + ([I32(1)] + EncodeFront(x))
  {
    ghost var before := out.data;
    out.Write(I32(1));
    out.Write(S(x.permissionName));
    out.Write(S(x.bundleName));
    out.Write(I32(x.grantMode));
    out.Write(I32(x.availableLevel));
    out.Write(B(x.provisionEnable));
    out.Write(B(x.distributedSceneEnable));
    assert out.data == before + ([I32(1)] + EncodeFront(x));
  }

  method MarshalRest(out: Parcel, x: PermissionDef)
    modifies out`data
    ensures out.data == old(out.data) + EncodeRest(x)
  {
    ghost var before := out.data;
    out.Write(S(x.descLabel));
    out.Write(I32(x.labelId));
    out.Write(S(x.description));
    out.Write(I32(x.descriptionId));
    out.Write(I32(x.availableType));
    out.Write(B(x.isKernelEffect));
    out.Write(B(x.hasValue));
    assert out.data == before + EncodeRest(x);
  }

  method MarshalDef(out: Parcel, x: PermissionDef)
    modifies out`data
    ensures out.data == old(out.data) + DefObject(x)
  {
    hide EncodeFront, EncodeRest;
    ghost var before := out.data;
    MarshalFront(out, x);
    MarshalRest(out, x);
    assert out.data == before + DefObject(x);
  }

  method MarshalDefs(out: Parcel, xs: Vec<PermissionDef>)
    modifies out`data
    ensures out.data == old(out.data) + EncodeList(DefObject, xs)
  {
    hide DefObject;
    ghost var before := out.data;
    out.Write(U32(|xs|));
    for i := 0 to |xs|
      invariant out.data == before + [U32(|xs|)] + EncodeAll(DefObject, xs[..i])
    {
      EncodeNext(DefObject, xs, i);
      MarshalDef(out, xs[i]);
    }
    assert xs[..|xs|] == xs;
  }

  method MarshalStatus(out: Parcel, x: PermissionStatus)
    modifies out`data
    ensures out.data == old(out.data) + StatusObject(x)
  {
    ghost var before := out.data;
    out.Write(I32(1));
    out.Write(S(x.permissionName));
    out.Write(S(x.feature));
    out.Write(I32(x.grantStatus));
    out.Write(U32(x.grantFlag));
    out.Write(U64(x.timestamp));
    assert out.data == before + StatusObject(x);
  }

  method MarshalStatuses(out: Parcel, xs: Vec<PermissionStatus>)
    modifies out`data
    ensures out.data == old(out.data) + EncodeList(StatusObject, xs)
  {
    hide StatusObject;
    ghost var before := out.data;
    out.Write(U32(|xs|));
    for i := 0 to |xs|
      invariant out.data == before + [U32(|xs|)] + EncodeAll(StatusObject, xs[..i])
    {
      EncodeNext(StatusObject, xs, i);
      MarshalStatus(out, xs[i]);
    }
    assert xs[..|xs|] == xs;
  }

  method MarshalStrings(out: Parcel, xs: Vec<string>)
    modifies out`data
    ensures out.data == old(out.data) + EncodeList(EncodeString, xs)
  {
    ghost var before := out.data;
    out.Write(U32(|xs|));
    for i := 0 to |xs|
      invariant out.data == before + [U32(|xs|)] + EncodeAll(EncodeString, xs[..i])
    {
      EncodeNext(EncodeString, xs, i);
      out.Write(S(xs[i]));
    }
    assert xs[..|xs|] == xs;
  }

  method MarshalPres(out: Parcel, xs: Vec<PreAuthorization>)
    modifies out`data
    ensures out.data == old(out.data) + EncodeList(EncodePre, xs)
  {
    ghost var before := out.data;
    out.Write(U32(|xs|));
    for i := 0 to |xs|
      invariant out.data == before + [U32(|xs|)] + EncodeAll(EncodePre, xs[..i])
    {
      EncodeNext(EncodePre, xs, i);
      out.Write(S(xs[i].permissionName));
      out.Write(B(xs[i].userCancelable));
    }
    assert xs[..|xs|] == xs;
  }

  method MarshalPairs(out: Parcel, xs: Vec<Pair>)
    modifies out`data
    ensures out.data == old(out.data) + EncodeList(EncodePair, xs)
  {
    ghost var before := out.data;
    out.Write(U32(|xs|));
    for i := 0 to |xs|
      invariant out.data == before + [U32(|xs|)] + EncodeAll(EncodePair, xs[..i])
    {
      EncodeNext(EncodePair, xs, i);
      out.Write(S(xs[i].key));
      out.Write(S(xs[i].value));
    }
    assert xs[..|xs|] == xs;
  }

  method MarshalTail(out: Parcel, p: HapPolicy, ps: Vec<Pair>)
    modifies out`data
    ensures out.data == old(out.data) + EncodeTail(p, ps)
  {
    hide EncodeList;
    ghost var before := out.data;
    MarshalPres(out, p.preAuthorization);
    out.Write(I32(p.checkIgnore));
    MarshalPairs(out, ps);
    out.Write(B(p.isDebugGrant));
    assert out.data == before + EncodeTail(p, ps);
  }

  /** Writes the policy, walking the map in the order `ps`; gives up on an oversized definition list. */
  method Marshal(out: Parcel, p: HapPolicy, ps: Vec<Pair>) returns (ok: bool)
    requires Walks(p.aclExtendedMap, ps)
    modifies out`data
    ensures ok <==> EncodePolicy(p, ps).Some?
    ensures ok ==> out.data == old(out.data) + EncodePolicy(p, ps).value
  {
    hide EncodeList, EncodeTail, Walks;
    ghost var before := out.data;
    out.Write(I32(p.apl));
    out.Write(S(p.domain));
    assert out.data == before + [I32(p.apl), S(p.domain)];
    if |p.permList| > MAX_PERMISSION_DEF_SIZE {
      return false;
    }
    MarshalDefs(out, p.permList);
    MarshalStatuses(out, p.permStateList);
    MarshalStrings(out, p.aclRequestedList);
    MarshalTail(out, p, ps);
    assert out.data == before + EncodePolicy(p, ps).value;
    return true;
  }

  method UnmarshalFront(src: Parcel) returns (r: Option<DefFront>)
    requires src.Valid()
    modifies src`pos
    ensures src.Valid() && Agrees(DecodeFront(old(src.Rest())), r, src.Rest())
  {
    ghost var c := src.Rest();
    var name := src.ReadString();
    if name.None? { return None; }
    var bundle := src.ReadString();
    if bundle.None? { return None; }
    var grantMode := src.ReadInt32();
    if grantMode.None? { return None; }
    var level := src.ReadInt32();
    if level.None? { return None; }
    var provision := src.ReadBool();
    if provision.None? { return None; }
    var distributed := src.ReadBool();
    if distributed.None? { return None; }
    assert c[6..] == src.Rest();
    return Some(DefFront(name.value, bundle.value, grantMode.value, level.value, provision.value, distributed.value));
  }

  method UnmarshalRest(src: Parcel) returns (r: Option<DefRest>)
    requires src.Valid()
    modifies src`pos
    ensures src.Valid() && Agrees(DecodeRest(old(src.Rest())), r, src.Rest())
  {
    ghost var c := src.Rest();
    var descLabel := src.ReadString();
    if descLabel.None? { return None; }
    var labelId := src.ReadInt32();
    if labelId.None? { return None; }
    var description := src.ReadString();
    if description.None? { return None; }
    var descriptionId := src.ReadInt32();
    if descriptionId.None? { return None; }
    var availableType := src.ReadInt32();
    if availableType.None? { return None; }
    var kernelEffect := src.ReadBool();
    if kernelEffect.None? { return None; }
    var hasValue := src.ReadBool();
    if hasValue.None? { return None; }
    assert c[7..] == src.Rest();
    return Some(DefRest(descLabel.value, labelId.value, description.value, descriptionId.value, availableType.value,
                        kernelEffect.value, hasValue.value));
  }

  method UnmarshalDef(src: Parcel) returns (r: Option<PermissionDef>)
    requires src.Valid()
    modifies src`pos
    ensures src.Valid() && Agrees(ObjectDef(old(src.Rest())), r, src.Rest())
  {
    hide DecodeFront, DecodeRest;
    ghost var c := src.Rest();
    var marker := src.ReadInt32();
    if marker.None? || marker.value == 0 { return None; }
    assert c[1..] == src.Rest();
    var front := UnmarshalFront(src);
    if front.None? { return None; }
    var rest := UnmarshalRest(src);
    if rest.None? { return None; }
    return Some(Joined(front.value, rest.value));
  }

  method UnmarshalDefs(src: Parcel) returns (r: Option<seq<PermissionDef>>)
    requires src.Valid()
    modifies src`pos
    ensures src.Valid() && Agrees(DecodeList(ObjectDef, MAX_PERMISSION_DEF_SIZE, old(src.Rest())), r, src.Rest())
    ensures r.Some? ==> |r.value| <= MAX_PERMISSION_DEF_SIZE
  {
    hide ObjectDef;
    ghost var c := src.Rest();
    var n := src.ReadUint32();
    if n.None? || n.value > MAX_PERMISSION_DEF_SIZE { return None; }
    assert c[1..] == src.Rest();
    var xs: seq<PermissionDef> := [];
    for i := 0 to n.value
      invariant src.Valid() && DecodeAll(ObjectDef, i, c[1..]) == Got(xs, src.Rest())
    {
      var x := UnmarshalDef(src);
      if x.None? {
        DecodeStuck(ObjectDef, i + 1, n.value, c[1..]);
        return None;
      }
      xs := xs + [x.value];
    }
    return Some(xs);
  }

  method UnmarshalStatus(src: Parcel, junk: UInt32) returns (r: Option<PermissionStatus>)
    requires src.Valid()
    modifies src`pos
    ensures src.Valid() && Agrees(ObjectStatus(junk)(old(src.Rest())), r, src.Rest())
  {
    ghost var c := src.Rest();
    var marker := src.ReadInt32();
    if marker.None? || marker.value == 0 { return None; }
    assert c[1..] == src.Rest();
    var name := src.ReadString();
    if name.None? { return None; }
    var feature := src.ReadString();
    if feature.None? { return None; }
    var grantStatus := src.ReadInt32();
    if grantStatus.None? { return None; }
    var grantFlag := src.ReadUint32();
    if grantFlag.None? { return None; }
    var timestamp := src.ReadUint64();
    if timestamp.None? { return None; }
    assert c[1..][5..] == src.Rest();
    return Some(PermissionStatus(junk, name.value, feature.value, grantStatus.value, grantFlag.value, timestamp.value));
  }

  method UnmarshalStatuses(src: Parcel, junk: UInt32) returns (r: Option<seq<PermissionStatus>>)
    requires src.Valid()
    modifies src`pos
    ensures src.Valid() && Agrees(DecodeList(ObjectStatus(junk), MAX_PERMLIST_SIZE, old(src.Rest())), r, src.Rest())
    ensures r.Some? ==> |r.value| <= MAX_PERMLIST_SIZE
  {
    hide ObjectStatus;
    ghost var c := src.Rest();
    var n := src.ReadUint32();
    if n.None? || n.value > MAX_PERMLIST_SIZE { return None; }
    assert c[1..] == src.Rest();
    var xs: seq<PermissionStatus> := [];
    for i := 0 to n.value
      invariant src.Valid() && DecodeAll(ObjectStatus(junk), i, c[1..]) == Got(xs, src.Rest())
    {
      var x := UnmarshalStatus(src, junk);
      if x.None? {
        DecodeStuck(ObjectStatus(junk), i + 1, n.value, c[1..]);
        return None;
      }
      xs := xs + [x.value];
    }
    return Some(xs);
  }

  method UnmarshalString(src: Parcel) returns (r: Option<string>)
    requires src.Valid()
    modifies src`pos
    ensures src.Valid() && Agrees(DecodeString(old(src.Rest())), r, src.Rest())
  {
    ghost var c := src.Rest();
    var s := src.ReadString();
    if s.None? { return None; }
    assert c[1..] == src.Rest();
    return Some(s.value);
  }

  method UnmarshalStrings(src: Parcel) returns (r: Option<seq<string>>)
    requires src.Valid()
    modifies src`pos
    ensures src.Valid() && Agrees(DecodeList(DecodeString, MAX_PERMLIST_SIZE, old(src.Rest())), r, src.Rest())
    ensures r.Some? ==> |r.value| <= MAX_PERMLIST_SIZE
  {
    hide DecodeString;
    ghost var c := src.Rest();
    var n := src.ReadUint32();
    if n.None? || n.value > MAX_PERMLIST_SIZE { return None; }
    assert c[1..] == src.Rest();
    var xs: seq<string> := [];
    for i := 0 to n.value
      invariant src.Valid() && DecodeAll(DecodeString, i, c[1..]) == Got(xs, src.Rest())
    {
      var x := UnmarshalString(src);
      if x.None? {
        DecodeStuck(DecodeString, i + 1, n.value, c[1..]);
        return None;
      }
      xs := xs + [x.value];
    }
    return Some(xs);
  }

  method UnmarshalPre(src: Parcel) returns (r: Option<PreAuthorization>)
    requires src.Valid()
    modifies src`pos
    ensures src.Valid() && Agrees(DecodePre(old(src.Rest())), r, src.Rest())
  {
    ghost var c := src.Rest();
    var name := src.ReadString();
    if name.None? { return None; }
    var cancelable := src.ReadBool();
    if cancelable.None? { return None; }
    assert c[2..] == src.Rest();
    return Some(PreAuthorization(name.value, cancelable.value));
  }

  method UnmarshalPres(src: Parcel) returns (r: Option<seq<PreAuthorization>>)
    requires src.Valid()
    modifies src`pos
    ensures src.Valid() && Agrees(DecodeList(DecodePre, MAX_PERMLIST_SIZE, old(src.Rest())), r, src.Rest())
    ensures r.Some? ==> |r.value| <= MAX_PERMLIST_SIZE
  {
    hide DecodePre;
    ghost var c := src.Rest();
    var n := src.ReadUint32();
    if n.None? || n.value > MAX_PERMLIST_SIZE { return None; }
    assert c[1..] == src.Rest();
    var xs: seq<PreAuthorization> := [];
    for i := 0 to n.value
      invariant src.Valid() && DecodeAll(DecodePre, i, c[1..]) == Got(xs, src.Rest())
    {
      var x := UnmarshalPre(src);
      if x.None? {
        DecodeStuck(DecodePre, i + 1, n.value, c[1..]);
        return None;
      }
      xs := xs + [x.value];
    }
    return Some(xs);
  }

  method UnmarshalPair(src: Parcel) returns (r: Option<Pair>)
    requires src.Valid()
    modifies src`pos
    ensures src.Valid() && Agrees(DecodePair(old(src.Rest())), r, src.Rest())
  {
    ghost var c := src.Rest();
    var key := src.ReadString();
    if key.None? { return None; }
    var value := src.ReadString();
    if value.None? { return None; }
    assert c[2..] == src.Rest();
    return Some(Pair(key.value, value.value));
  }

  /** The map's entries are inserted as they are read. */
  method UnmarshalMap(src: Parcel) returns (r: Option<map<string, string>>, ghost ps: seq<Pair>)
    requires src.Valid()
    modifies src`pos
    ensures src.Valid()
    ensures Agrees(DecodeList(DecodePair, MAX_ACL_MAP_SIZE, old(src.Rest())),
                   if r.Some? then Some(ps) else None, src.Rest())
    ensures r.Some? ==> r.value == Inserted(ps)
  {
    hide DecodePair;
    ghost var c := src.Rest();
    ps := [];
    var n := src.ReadUint32();
    if n.None? || n.value > MAX_ACL_MAP_SIZE { return None, ps; }
    assert c[1..] == src.Rest();
    var m: map<string, string> := map[];
    for i := 0 to n.value
      invariant src.Valid() && DecodeAll(DecodePair, i, c[1..]) == Got(ps, src.Rest()) && m == Inserted(ps)
    {
      var x := UnmarshalPair(src);
      if x.None? {
        DecodeStuck(DecodePair, i + 1, n.value, c[1..]);
        return None, ps;
      }
      m := m[x.value.key := x.value.value];
      assert (ps + [x.value])[..|ps|] == ps;
      ps := ps + [x.value];
    }
    return Some(m), ps;
  }

  method UnmarshalTail(src: Parcel) returns (r: Option<Tail>)
    requires src.Valid()
    modifies src`pos
    ensures src.Valid() && Agrees(DecodeTail(old(src.Rest())), r, src.Rest())
  {
    hide DecodeList, Inserted;
    var pre := UnmarshalPres(src);
    if pre.None? { return None; }
    ghost var c1 := src.Rest();
    var checkIgnore := src.ReadInt32();
    if checkIgnore.None? { return None; }
    assert c1[1..] == src.Rest();
    var acl, ps := UnmarshalMap(src);
    if acl.None? { return None; }
    ghost var c2 := src.Rest();
    var debug := src.ReadBool();
    if debug.None? { return None; }
    assert c2[1..] == src.Rest();
    return Some(Tail(pre.value, checkIgnore.value, acl.value, debug.value));
  }

  /** Reads a whole policy; `junk` is what the token of a freshly created status happens to hold. */
  method Unmarshal(src: Parcel, junk: UInt32) returns (r: Option<HapPolicy>)
    requires src.Valid()
    modifies src`pos
    ensures src.Valid() && Agrees(DecodePolicy(junk, old(src.Rest())), r, src.Rest())
  {
    hide DecodeList, DecodeTail, ObjectStatus;
    ghost var c := src.Rest();
    var apl := src.ReadInt32();
    if apl.None? { return None; }
    var domain := src.ReadString();
    if domain.None? { return None; }
    assert c[2..] == src.Rest();
    var defs := UnmarshalDefs(src);
    if defs.None? { return None; }
    var states := UnmarshalStatuses(src, junk);
    if states.None? { return None; }
    var acls := UnmarshalStrings(src);
    if acls.None? { return None; }
    var t := UnmarshalTail(src);
    if t.None? { return None; }
    return Some(HapPolicy(apl.value, domain.value, defs.value, states.value, acls.value, t.value.pre,
                          t.value.checkIgnore, t.value.acl, t.value.isDebugGrant));
  }

  /** Writing into one parcel and reading from it returns the policy without its statuses' tokens exactly when
      the caps allow it, whatever the order in which the map is walked. */
  method SendAndReceive(p: HapPolicy, ps: Vec<Pair>, junk: UInt32) returns (back: Option<HapPolicy>)
    requires Walks(p.aclExtendedMap, ps)
    ensures back == if PolicyOk(p) then Some(Received(junk, p)) else None
  {
    hide EncodePolicy, DecodePolicy, Walks, Received, TailOk;
    var parcel := new Parcel();
    var ok := Marshal(parcel, p, ps);
    PolicyRoundTrip(junk, p, ps, []);
    if !ok {
      return None;
    }
    assert parcel.Rest() == EncodePolicy(p, ps).value + [];
    back := Unmarshal(parcel, junk);
  }
}
