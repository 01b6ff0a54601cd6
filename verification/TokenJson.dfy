/** One record of the token file: how a list node is written as a JSON object, read back, and
    rewritten in place. JSON text itself is not modelled: printing and parsing are inverse on values. */
module TokenJson {
  import opened Options
  import opened TokenId

  datatype Field = Field(key: string, value: Json)

  datatype Json =
    | Null
    | Bool(b: bool)
    | Num(n: real)
    | Str(s: string)
    | Arr(items: seq<Json>)
    | Obj(fields: seq<Field>)

  const PROCESS_KEY := "processName"
  const APL_KEY := "APL"
  const VERSION_KEY := "version"
  const TOKENID_KEY := "tokenId"
  const TOKEN_ATTR_KEY := "tokenAttr"
  const UID_KEY := "uid"
  const DCAPS_KEY := "dcaps"
  const PERMS_KEY := "permissions"
  const ACLS_KEY := "nativeAcls"

  const MAX_PROCESS_NAME_LEN := 256
  const MAX_DCAP_LEN := 1024
  const MAX_PERM_LEN := 256
  const MAX_MALLOC_SIZE := 8192
  const SYSTEM_CORE := 3

  datatype TokenNode = TokenNode(name: string, tokenId: nat, apl: int, uid: int,
                                 dcaps: seq<string>, perms: seq<string>, acls: seq<string>)

  // ---------------------------------------------------------------- the JSON library's accessors

  function Lower(c: char): char {
    if 'A' <= c <= 'Z' then (c as int + 32) as char else c
  }

  /** Object keys are compared without regard to ASCII case. */
  function Norm(s: string): string {
    seq(|s|, i requires 0 <= i < |s| => Lower(s[i]))
  }

  /** Position of the first field with this key, or the number of fields. */
  function FindKey(fields: seq<Field>, key: string): (r: nat)
    ensures r <= |fields|
    ensures r < |fields| ==> Norm(fields[r].key) == Norm(key)
    ensures forall k :: 0 <= k < r ==> Norm(fields[k].key) != Norm(key)
  {
    if fields == [] || Norm(fields[0].key) == Norm(key) then 0
    else 1 + FindKey(fields[1..], key)
  }

  function GetItem(v: Json, key: string): Option<Json> {
    if v.Obj? && FindKey(v.fields, key) < |v.fields| then Some(v.fields[FindKey(v.fields, key)].value) else None
  }

  function AddItem(v: Json, key: string, item: Json): Json
    requires v.Obj?
  {
    Obj(v.fields + [Field(key, item)])
  }

  function ReplaceItem(v: Json, key: string, item: Json): Option<Json> {
    if GetItem(v, key).None? then None
    else Some(Obj(v.fields[FindKey(v.fields, key) := Field(key, item)]))
  }

  /** Array access also walks the members of an object; scalars have no children. */
  function Children(v: Json): seq<Json> {
    match v
    case Arr(items) => items
    case Obj(fields) => seq(|fields|, i requires 0 <= i < |fields| => fields[i].value)
    case _ => []
  }

  function Trunc(n: real): int {
    if n >= 0.0 then n.Floor else -((-n).Floor)
  }

  /** The saturating integer view of a number. */
  function ValueInt(n: real): int {
    if n >= INT_MAX as real then INT_MAX
    else if n <= INT_MIN as real then INT_MIN
    else Trunc(n)
  }

  // ---------------------------------------------------------------- writing a node

  function StrArray(ss: seq<string>): Json {
    Arr(seq(|ss|, i requires 0 <= i < |ss| => Str(ss[i])))
  }

  function EncodeNode(n: TokenNode): Json {
    Obj([Field(PROCESS_KEY, Str(n.name)),
         Field(APL_KEY, Num(n.apl as real)),
         Field(VERSION_KEY, Num(1.0)),
         Field(TOKENID_KEY, Num(n.tokenId as real)),
         Field(TOKEN_ATTR_KEY, Num(0.0)),
         Field(UID_KEY, Num(n.uid as real)),
         Field(DCAPS_KEY, StrArray(n.dcaps)),
         Field(PERMS_KEY, StrArray(n.perms)),
         Field(ACLS_KEY, StrArray(n.acls))])
  }

  // ---------------------------------------------------------------- reading a node

  /** The seven items of a record that the reader looks at. */
  datatype Items = Items(name: Option<Json>, tokenId: Option<Json>, apl: Option<Json>, uid: Option<Json>,
                         dcaps: Option<Json>, perms: Option<Json>, acls: Option<Json>)

  function ItemsOf(v: Json): Items {
    Items(GetItem(v, PROCESS_KEY), GetItem(v, TOKENID_KEY), GetItem(v, APL_KEY), GetItem(v, UID_KEY),
          GetItem(v, DCAPS_KEY), GetItem(v, PERMS_KEY), GetItem(v, ACLS_KEY))
  }

  function DecodeName(v: Option<Json>): Option<string> {
    match v
    case Some(Str(s)) => if |s| <= MAX_PROCESS_NAME_LEN then Some(s) else None
    case _ => None
  }

  predicate NativeKind(id: nat) {
    Unpack(id).kind == TOKEN_NATIVE_TYPE || Unpack(id).kind == TOKEN_SHELL_TYPE
  }

  function DecodeId(v: Option<Json>): Option<nat> {
    match v
    case Some(Num(n)) => if n > 0.0 && NativeKind(ValueInt(n)) then Some(ValueInt(n)) else None
    case _ => None
  }

  function DecodeApl(v: Option<Json>): Option<int> {
    match v
    case Some(Num(n)) => if 0 < ValueInt(n) <= SYSTEM_CORE then Some(ValueInt(n)) else None
    case _ => None
  }

  function DecodeUid(v: Option<Json>): Option<int> {
    match v
    case None => Some(-1)
    case Some(Num(n)) => Some(ValueInt(n))
    case _ => None
  }

  predicate AllShort(cs: seq<Json>, maxLen: nat) {
    forall i :: 0 <= i < |cs| ==> cs[i].Str? && |cs[i].s| <= maxLen
  }

  function Texts(cs: seq<Json>): seq<string>
    requires forall i :: 0 <= i < |cs| ==> cs[i].Str?
  {
    seq(|cs|, i requires 0 <= i < |cs| => cs[i].s)
  }

  /** A missing array reads as empty. */
  function Elements(v: Option<Json>): seq<Json> {
    if v.Some? then Children(v.value) else []
  }

  function DecodeStrings(v: Option<Json>, maxLen: nat): Option<seq<string>> {
    if |Elements(v)| <= MAX_MALLOC_SIZE && AllShort(Elements(v), maxLen) then Some(Texts(Elements(v))) else None
  }

  function DecodeItems(m: Items): Option<TokenNode> {
    match (DecodeName(m.name), DecodeId(m.tokenId), DecodeApl(m.apl), DecodeUid(m.uid),
           DecodeStrings(m.dcaps, MAX_DCAP_LEN), DecodeStrings(m.perms, MAX_PERM_LEN),
           DecodeStrings(m.acls, MAX_PERM_LEN))
    case (Some(name), Some(id), Some(apl), Some(uid), Some(dcaps), Some(perms), Some(acls)) =>
      Some(TokenNode(name, id, apl, uid, dcaps, perms, acls))
    case _ => None
  }

  function DecodeNode(v: Json): Option<TokenNode> {
    DecodeItems(ItemsOf(v))
  }

  // ---------------------------------------------------------------- rewriting a record in place

  function SetItem(v: Json, key: string, item: Json): Json
    requires v.Obj?
  {
    if GetItem(v, key).Some? then ReplaceItem(v, key, item).value else AddItem(v, key, item)
  }

  /** Replaces the mutable fields; fails when the record has no APL. Name and ID are kept. */
  function UpdateItem(v: Json, n: TokenNode): Option<Json> {
    if GetItem(v, APL_KEY).None? then None
    else
      var v1 := SetItem(v, APL_KEY, Num(n.apl as real));
      var v2 := SetItem(v1, UID_KEY, Num(n.uid as real));
      var v3 := SetItem(v2, DCAPS_KEY, StrArray(n.dcaps));
      var v4 := SetItem(v3, PERMS_KEY, StrArray(n.perms));
      Some(SetItem(v4, ACLS_KEY, StrArray(n.acls)))
  }

  predicate Named(v: Json) {
    GetItem(v, PROCESS_KEY).Some? && GetItem(v, PROCESS_KEY).value.Str?
  }

  predicate NamedAs(v: Json, name: string) {
    Named(v) && GetItem(v, PROCESS_KEY).value.s == name
  }

  /** Record `i` is the first one called `name`, and every record before it has a usable name. */
  predicate IsGoal(items: seq<Json>, i: nat, name: string) {
    i < |items| && NamedAs(items[i], name) && forall k :: 0 <= k < i ==> Named(items[k]) && !NamedAs(items[k], name)
  }

  function GoalIndex(items: seq<Json>, name: string): (r: Option<nat>)
    ensures r.Some? ==> IsGoal(items, r.value, name)
    ensures r.None? ==> forall i :: !IsGoal(items, i, name)
  {
    if items == [] || !Named(items[0]) then None
    else if NamedAs(items[0], name) then Some(0)
    else
      var r := GoalIndex(items[1..], name);
      assert forall i :: i > 0 && IsGoal(items, i, name) ==> IsGoal(items[1..], i - 1, name);
      if r.Some? then Some(r.value + 1) else None
  }

  /** Updates the first record whose process name matches; fails on a record without a usable name. */
  function UpdateGoal(items: seq<Json>, n: TokenNode): Option<seq<Json>> {
    var i := GoalIndex(items, n.name);
    if i.None? || UpdateItem(items[i.value], n).None? then None
    else Some(items[i.value := UpdateItem(items[i.value], n).value])
  }

  // ---------------------------------------------------------------- properties of the accessors

  /** No two record keys are confused by the case-insensitive comparison. */
  lemma KeysDistinct()
    ensures Norm(APL_KEY) != Norm(UID_KEY)
    ensures Norm(VERSION_KEY) != Norm(TOKENID_KEY)
    ensures Norm(PROCESS_KEY) != Norm(PERMS_KEY)
    ensures |Norm(APL_KEY)| == 3 && |Norm(UID_KEY)| == 3 && |Norm(DCAPS_KEY)| == 5
    ensures |Norm(VERSION_KEY)| == 7 && |Norm(TOKENID_KEY)| == 7 && |Norm(TOKEN_ATTR_KEY)| == 9
    ensures |Norm(ACLS_KEY)| == 10 && |Norm(PROCESS_KEY)| == 11 && |Norm(PERMS_KEY)| == 11
  {
    assert Norm(APL_KEY)[0] == 'a' && Norm(UID_KEY)[0] == 'u';
    assert Norm(VERSION_KEY)[0] == 'v' && Norm(TOKENID_KEY)[0] == 't';
    assert Norm(PROCESS_KEY)[1] == 'r' && Norm(PERMS_KEY)[1] == 'e';
  }

  lemma FindKeyIs(fields: seq<Field>, key: string, r: nat)
    requires r <= |fields| && (r < |fields| ==> Norm(fields[r].key) == Norm(key))
    requires forall k :: 0 <= k < r ==> Norm(fields[k].key) != Norm(key)
    ensures FindKey(fields, key) == r
  {
  }

  lemma GetAfterAdd(v: Json, key: string, item: Json, k: string)
    requires v.Obj?
    requires GetItem(v, key).None? || Norm(k) != Norm(key)
    ensures GetItem(AddItem(v, key, item), k) == if Norm(k) == Norm(key) then Some(item) else GetItem(v, k)
  {
    var fields := AddItem(v, key, item).fields;
    var i := FindKey(v.fields, k);
    assert forall x :: 0 <= x < |v.fields| ==> fields[x] == v.fields[x];
    FindKeyIs(fields, k, if i == |v.fields| && Norm(k) != Norm(key) then i + 1 else i);
  }

  lemma GetAfterReplace(v: Json, key: string, item: Json, k: string)
    requires GetItem(v, key).Some?
    ensures GetItem(ReplaceItem(v, key, item).value, k)
         == if Norm(k) == Norm(key) then Some(item) else GetItem(v, k)
  {
    var fields := ReplaceItem(v, key, item).value.fields;
    assert forall x :: 0 <= x < |v.fields| && x != FindKey(v.fields, key) ==> fields[x] == v.fields[x];
    assert Norm(fields[FindKey(v.fields, key)].key) == Norm(key);
    FindKeyIs(fields, k, FindKey(v.fields, k));
  }

  lemma GetAfterSet(v: Json, key: string, item: Json, k: string)
    requires v.Obj?
    ensures GetItem(SetItem(v, key, item), k) == if Norm(k) == Norm(key) then Some(item) else GetItem(v, k)
  {
    if GetItem(v, key).Some? {
      GetAfterReplace(v, key, item, k);
    } else {
      GetAfterAdd(v, key, item, k);
    }
  }

  /** The items a node is written as. */
  function ItemsFor(n: TokenNode): Items {
    Items(Some(Str(n.name)), Some(Num(n.tokenId as real)), Some(Num(n.apl as real)), Some(Num(n.uid as real)),
          Some(StrArray(n.dcaps)), Some(StrArray(n.perms)), Some(StrArray(n.acls)))
  }

  /** The keys of a written record, in order. */
  const RECORD_KEYS := [PROCESS_KEY, APL_KEY, VERSION_KEY, TOKENID_KEY, TOKEN_ATTR_KEY, UID_KEY,
                        DCAPS_KEY, PERMS_KEY, ACLS_KEY]

  lemma RecordKeysDistinct(j: nat, k: nat)
    requires j < k < 9
    ensures Norm(RECORD_KEYS[j]) != Norm(RECORD_KEYS[k])
  {
    KeysDistinct();
  }

  /** Every field of a written node is found again under its own key. */
  lemma EncodedField(n: TokenNode, i: nat)
    requires i < 9
    ensures FindKey(EncodeNode(n).fields, RECORD_KEYS[i]) == i
  {
    var fs := EncodeNode(n).fields;
    forall k | 0 <= k < i ensures Norm(fs[k].key) != Norm(RECORD_KEYS[i]) {
      RecordKeysDistinct(k, i);
      assert fs[k].key == RECORD_KEYS[k];
    }
    assert fs[i].key == RECORD_KEYS[i];
    FindKeyIs(fs, RECORD_KEYS[i], i);
  }

  lemma EncodedItems(n: TokenNode)
    ensures ItemsOf(EncodeNode(n)) == ItemsFor(n)
  {
    EncodedField(n, 0);
    EncodedField(n, 1);
    EncodedField(n, 3);
    EncodedField(n, 5);
    EncodedField(n, 6);
    EncodedField(n, 7);
    EncodedField(n, 8);
  }

  lemma SetOne(v: Json, key: string, item: Json)
    requires v.Obj?
    ensures var m, w := ItemsOf(v), ItemsOf(SetItem(v, key, item));
      && (key == APL_KEY ==> w == m.(apl := Some(item)))
      && (key == UID_KEY ==> w == m.(uid := Some(item)))
      && (key == DCAPS_KEY ==> w == m.(dcaps := Some(item)))
      && (key == PERMS_KEY ==> w == m.(perms := Some(item)))
      && (key == ACLS_KEY ==> w == m.(acls := Some(item)))
  {
    KeysDistinct();
    GetAfterSet(v, key, item, PROCESS_KEY);
    GetAfterSet(v, key, item, TOKENID_KEY);
    GetAfterSet(v, key, item, APL_KEY);
    GetAfterSet(v, key, item, UID_KEY);
    GetAfterSet(v, key, item, DCAPS_KEY);
    GetAfterSet(v, key, item, PERMS_KEY);
    GetAfterSet(v, key, item, ACLS_KEY);
  }

  /** Rewriting a record changes exactly the five mutable items; name and ID stay. */
  lemma UpdatedItems(v: Json, n: TokenNode)
    requires UpdateItem(v, n).Some?
    ensures ItemsOf(UpdateItem(v, n).value)
         == ItemsFor(n).(name := ItemsOf(v).name, tokenId := ItemsOf(v).tokenId)
  {
    var v1 := SetItem(v, APL_KEY, Num(n.apl as real));
    var v2 := SetItem(v1, UID_KEY, Num(n.uid as real));
    var v3 := SetItem(v2, DCAPS_KEY, StrArray(n.dcaps));
    var v4 := SetItem(v3, PERMS_KEY, StrArray(n.perms));
    SetOne(v, APL_KEY, Num(n.apl as real));
    SetOne(v1, UID_KEY, Num(n.uid as real));
    SetOne(v2, DCAPS_KEY, StrArray(n.dcaps));
    SetOne(v3, PERMS_KEY, StrArray(n.perms));
    SetOne(v4, ACLS_KEY, StrArray(n.acls));
  }

  // ---------------------------------------------------------------- the round trip

  predicate ShortStrings(ss: seq<string>, maxLen: nat) {
    |ss| <= MAX_MALLOC_SIZE && forall i :: 0 <= i < |ss| ==> |ss[i]| <= maxLen
  }

  /** What a node must satisfy to survive being written and read back. */
  predicate Storable(n: TokenNode) {
    && |n.name| <= MAX_PROCESS_NAME_LEN
    && 0 < n.tokenId <= INT_MAX && NativeKind(n.tokenId)
    && 0 < n.apl <= SYSTEM_CORE
    && INT_MIN <= n.uid <= INT_MAX
    && ShortStrings(n.dcaps, MAX_DCAP_LEN)
    && ShortStrings(n.perms, MAX_PERM_LEN)
    && ShortStrings(n.acls, MAX_PERM_LEN)
  }

  lemma ValueIntOfInt(x: int)
    ensures ValueInt(x as real) == if x > INT_MAX then INT_MAX else if x < INT_MIN then INT_MIN else x
  {
    if x < 0 {
      assert -(x as real) == (-x) as real;
    }
  }

  lemma StringsBack(ss: seq<string>, maxLen: nat)
    ensures DecodeStrings(Some(StrArray(ss)), maxLen) == if ShortStrings(ss, maxLen) then Some(ss) else None
  {
    var cs := Children(StrArray(ss));
    assert forall i :: 0 <= i < |ss| ==> cs[i] == Str(ss[i]);
    if ShortStrings(ss, maxLen) {
      assert Texts(cs) == ss;
    } else if AllShort(cs, maxLen) {
      forall i | 0 <= i < |ss| ensures |ss[i]| <= maxLen {
        assert cs[i].Str?;
      }
    }
  }

  lemma ItemsBack(n: TokenNode)
    ensures DecodeItems(ItemsFor(n)) == Some(n) <==> Storable(n)
  {
    ValueIntOfInt(n.tokenId);
    ValueIntOfInt(n.apl);
    ValueIntOfInt(n.uid);
    StringsBack(n.dcaps, MAX_DCAP_LEN);
    StringsBack(n.perms, MAX_PERM_LEN);
    StringsBack(n.acls, MAX_PERM_LEN);
  }

  /** Reading back what was written gives the same node, in all fields, exactly for storable nodes. */
  lemma RoundTrip(n: TokenNode)
    ensures DecodeNode(EncodeNode(n)) == Some(n) <==> Storable(n)
  {
    EncodedItems(n);
    ItemsBack(n);
  }

  /** Rewriting a readable record in place makes it read back as exactly the updated node. */
  lemma UpdateRoundTrip(v: Json, n: TokenNode)
    requires DecodeNode(v).Some? && Storable(n)
    requires DecodeNode(v).value.name == n.name && DecodeNode(v).value.tokenId == n.tokenId
    ensures UpdateItem(v, n).Some? && DecodeNode(UpdateItem(v, n).value) == Some(n)
  {
    UpdatedItems(v, n);
    ItemsBack(n);
    var m := ItemsOf(v);
    assert DecodeName(m.name) == Some(n.name) && DecodeId(m.tokenId) == Some(n.tokenId);
  }

  // ---------------------------------------------------------------- the loops of the source

  method AddStrArrayInfo(obj: Json, strArray: seq<string>, key: string) returns (r: Json)
    requires obj.Obj?
    ensures r == AddItem(obj, key, StrArray(strArray))
  {
    var items: seq<Json> := [];
    for i := 0 to |strArray|
      invariant items == StrArray(strArray[..i]).items
    {
      items := items + [Str(strArray[i])];
    }
    assert strArray[..|strArray|] == strArray;
    r := AddItem(obj, key, Arr(items));
  }

  method CreateNativeTokenJsonObject(curr: TokenNode) returns (obj: Json)
    ensures obj == EncodeNode(curr)
    ensures DecodeNode(obj) == Some(curr) <==> Storable(curr)
  {
    obj := Obj([]);
    obj := AddItem(obj, PROCESS_KEY, Str(curr.name));
    obj := AddItem(obj, APL_KEY, Num(curr.apl as real));
    obj := AddItem(obj, VERSION_KEY, Num(1.0));
    obj := AddItem(obj, TOKENID_KEY, Num(curr.tokenId as real));
    obj := AddItem(obj, TOKEN_ATTR_KEY, Num(0.0));
    obj := AddItem(obj, UID_KEY, Num(curr.uid as real));
    obj := AddStrArrayInfo(obj, curr.dcaps, DCAPS_KEY);
    obj := AddStrArrayInfo(obj, curr.perms, PERMS_KEY);
    obj := AddStrArrayInfo(obj, curr.acls, ACLS_KEY);
    assert obj.fields == EncodeNode(curr).fields;
    RoundTrip(curr);
  }

  method GetInfoArrFromJson(item: Json, key: string, maxLen: nat) returns (r: Option<seq<string>>)
    ensures r == DecodeStrings(GetItem(item, key), maxLen)
  {
    var node := GetItem(item, key);
    var cs := if node.Some? then Children(node.value) else [];
    if |cs| > MAX_MALLOC_SIZE {
      return None;
    }
    var strs: seq<string> := [];
    for i := 0 to |cs|
      invariant |strs| == i
      invariant forall k :: 0 <= k < i ==> cs[k].Str? && |cs[k].s| <= maxLen && strs[k] == cs[k].s
    {
      if !cs[i].Str? || |cs[i].s| > maxLen {
        assert !AllShort(cs, maxLen);
        return None;
      }
      strs := strs + [cs[i].s];
    }
    assert AllShort(cs, maxLen);
    assert strs == Texts(cs);
    r := Some(strs);
  }

  method UpdateGoalItemFromRecord(n: TokenNode, items: seq<Json>) returns (r: Option<seq<Json>>)
    ensures r == UpdateGoal(items, n)
  {
    hide GetItem, UpdateItem;
    for i := 0 to |items|
      invariant forall k :: 0 <= k < i ==> Named(items[k]) && !NamedAs(items[k], n.name)
    {
      var name := GetItem(items[i], PROCESS_KEY);
      if name.None? || !name.value.Str? {
        assert !Named(items[i]);
        return None;
      }
      if name.value.s == n.name {
        assert IsGoal(items, i, n.name);
        assert GoalIndex(items, n.name) == Some(i);
        var updated := UpdateItem(items[i], n);
        if updated.None? {
          return None;
        }
        return Some(items[i := updated.value]);
      }
    }
    return None;
  }

  // ---------------------------------------------------------------- the file format

  /** The texts of a JSON string array. */
  predicate IsTexts(v: Option<Json>, ss: seq<string>) {
    v.Some? && v.value.Arr? && |v.value.items| == |ss| && forall i :: 0 <= i < |ss| ==> v.value.items[i] == Str(ss[i])
  }

  lemma TextsOf(ss: seq<string>)
    ensures IsTexts(Some(StrArray(ss)), ss)
  {
  }

  /** A node is written under these keys. */
  lemma WrittenFormat(n: TokenNode)
    ensures var v := EncodeNode(n);
      && GetItem(v, "processName") == Some(Str(n.name)) && GetItem(v, "tokenId") == Some(Num(n.tokenId as real))
      && GetItem(v, "APL") == Some(Num(n.apl as real)) && GetItem(v, "uid") == Some(Num(n.uid as real))
      && IsTexts(GetItem(v, "dcaps"), n.dcaps) && IsTexts(GetItem(v, "permissions"), n.perms)
      && IsTexts(GetItem(v, "nativeAcls"), n.acls)
  {
    hide EncodeNode, GetItem, StrArray, IsTexts;
    EncodedItems(n);
    TextsOf(n.dcaps);
    TextsOf(n.perms);
    TextsOf(n.acls);
  }

  /** And with version 1 and no attributes. */
  lemma WrittenVersion(n: TokenNode)
    ensures GetItem(EncodeNode(n), "version") == Some(Num(1.0)) && GetItem(EncodeNode(n), "tokenAttr") == Some(Num(0.0))
  {
    hide StrArray, FindKey;
    EncodedField(n, 2);
    EncodedField(n, 4);
  }

  /** What a readable record has under these keys: integers are cut off and saturate, a missing uid is -1 and a missing
      array is empty. */
  lemma ReadFormat(v: Json, n: TokenNode)
    requires DecodeNode(v) == Some(n)
    ensures GetItem(v, "processName") == Some(Str(n.name)) && |n.name| <= 256
    ensures var id := GetItem(v, "tokenId");
      id.Some? && id.value.Num? && id.value.n > 0.0 && n.tokenId == ValueInt(id.value.n)
    ensures (n.tokenId / 0x800_0000) % 4 == 1 || (n.tokenId / 0x800_0000) % 4 == 2
    ensures var apl := GetItem(v, "APL");
      apl.Some? && apl.value.Num? && n.apl == ValueInt(apl.value.n) && 1 <= n.apl <= 3
    ensures var uid := GetItem(v, "uid");
      (uid.None? && n.uid == -1) || (uid.Some? && uid.value.Num? && n.uid == ValueInt(uid.value.n))
    ensures ReadsArray(GetItem(v, "dcaps"), n.dcaps, 1024)
    ensures ReadsArray(GetItem(v, "permissions"), n.perms, 256) && ReadsArray(GetItem(v, "nativeAcls"), n.acls, 256)
  {
    hide GetItem;
  }

  /** The texts of a JSON value's elements, each within its length, at most 8192 of them; none when it is missing. */
  predicate ReadsArray(v: Option<Json>, ss: seq<string>, longest: nat) {
    var cs := if v.Some? then Children(v.value) else [];
    |cs| == |ss| <= 8192 && forall i :: 0 <= i < |cs| ==> cs[i] == Str(ss[i]) && |ss[i]| <= longest
  }

  /** A record can be rewritten exactly when it has an APL. */
  lemma RewritableIff(v: Json, n: TokenNode)
    ensures UpdateItem(v, n).Some? <==> GetItem(v, "APL").Some?
  {
    hide SetItem, GetItem, StrArray;
  }

  /** Then only the five mutable keys change. */
  lemma RewrittenFormat(v: Json, n: TokenNode)
    requires UpdateItem(v, n).Some?
    ensures var w := UpdateItem(v, n).value;
      && GetItem(w, "processName") == GetItem(v, "processName") && GetItem(w, "tokenId") == GetItem(v, "tokenId")
      && GetItem(w, "APL") == Some(Num(n.apl as real)) && GetItem(w, "uid") == Some(Num(n.uid as real))
      && IsTexts(GetItem(w, "dcaps"), n.dcaps) && IsTexts(GetItem(w, "permissions"), n.perms)
      && IsTexts(GetItem(w, "nativeAcls"), n.acls)
  {
    hide UpdateItem, GetItem, StrArray, IsTexts;
    UpdatedItems(v, n);
    TextsOf(n.dcaps);
    TextsOf(n.perms);
    TextsOf(n.acls);
  }

  /** Which nodes survive being written and read back. */
  lemma StorableLimits(n: TokenNode)
    ensures Storable(n) <==>
      && |n.name| <= 256 && 0 < n.tokenId <= 2147483647
      && ((n.tokenId / 0x800_0000) % 4 == 1 || (n.tokenId / 0x800_0000) % 4 == 2)
      && 1 <= n.apl <= 3 && -2147483648 <= n.uid <= 2147483647
      && |n.dcaps| <= 8192 && (forall i :: 0 <= i < |n.dcaps| ==> |n.dcaps[i]| <= 1024)
      && |n.perms| <= 8192 && (forall i :: 0 <= i < |n.perms| ==> |n.perms[i]| <= 256)
      && |n.acls| <= 8192 && (forall i :: 0 <= i < |n.acls| ==> |n.acls[i]| <= 256)
  {
  }

  /** Numbers are cut off toward zero and saturate at the 32-bit limits. */
  lemma IntegerView(x: real)
    ensures x >= 2147483647.0 ==> ValueInt(x) == 2147483647
    ensures x <= -2147483648.0 ==> ValueInt(x) == -2147483648
    ensures 0.0 <= x < 2147483647.0 ==> ValueInt(x) as real <= x < ValueInt(x) as real + 1.0
    ensures -2147483648.0 < x <= 0.0 ==> ValueInt(x) as real - 1.0 < x <= ValueInt(x) as real
  {
  }
}
