/** The permission table: generated codes, the name index, enabling and disabling, and the bitmap of a
    native process's permissions that is handed to the kernel. */
module PermissionTable {
  import opened Options

  const MAX_DEFINITIONS := 1800
  const WORDS := 64
  const WORD_BITS := 32
  const WORD_RANGE := 0x1_0000_0000

  // ---------------------------------------------------------------- the generator

  /** One generated row; `code` is the row's number. */
  datatype Definition = Definition(name: string, code: nat)

  const EXTEND_PERM := "ohos.permission.KERNEL_ATM_SELF_USE"
  const MANUAL_PERM := "ohos.permission.MANUAL_ATM_SELF_USE"

  /** Numbers the defined permissions in order and appends the two built-in ones. */
  method ParseJson(names: seq<string>) returns (defs: seq<Definition>)
    ensures |defs| == |names| + 2
    ensures forall i :: 0 <= i < |defs| ==> defs[i].code == i
    ensures forall i :: 0 <= i < |names| ==> defs[i].name == names[i]
    ensures defs[|names|].name == "ohos.permission.KERNEL_ATM_SELF_USE"
    ensures defs[|names| + 1].name == "ohos.permission.MANUAL_ATM_SELF_USE"
  {
    defs := [];
    var index := 0;
    for i := 0 to |names|
      invariant index == i && |defs| == i
      invariant forall k :: 0 <= k < i ==> defs[k] == Definition(names[k], k)
    {
      defs := defs + [Definition(names[i], index)];
      index := index + 1;
    }
    defs := defs + [Definition(EXTEND_PERM, index)];
    index := index + 1;
    defs := defs + [Definition(MANUAL_PERM, index)];
  }

  // ---------------------------------------------------------------- the name index

  datatype Brief = Brief(name: string, enabled: bool)

  predicate DistinctNames(table: seq<Brief>) {
    forall i, j :: 0 <= i < j < |table| ==> table[i].name != table[j].name
  }

  /** A row with this name and no later one: the row a later insertion leaves in the index. */
  predicate LastRow(table: seq<Brief>, i: nat, name: string) {
    i < |table| && table[i].name == name && forall k :: i < k < |table| ==> table[k].name != name
  }

  /** The index agrees with a scan of the table. */
  ghost predicate IsIndex(index: map<string, nat>, table: seq<Brief>) {
    && (forall name :: name in index ==> LastRow(table, index[name], name))
    && (forall i :: 0 <= i < |table| ==> table[i].name in index)
  }

  lemma IndexUnique(index: map<string, nat>, other: map<string, nat>, table: seq<Brief>)
    requires IsIndex(index, table) && IsIndex(other, table)
    ensures index == other
  {
    forall name | name in index ensures name in other && other[name] == index[name] {
      assert table[index[name]].name == name;
      assert LastRow(table, other[name], name) && LastRow(table, index[name], name);
    }
    forall name | name in other ensures name in index {
      assert table[other[name]].name == name;
    }
  }

  /** Name-to-opcode undoes opcode-to-name for every row exactly when the names are distinct; the other way
      round it always does. */
  lemma OpcodeRoundTrip(index: map<string, nat>, table: seq<Brief>)
    requires IsIndex(index, table)
    ensures (forall c :: 0 <= c < |table| ==> index[table[c].name] == c) <==> DistinctNames(table)
    ensures forall name :: name in index ==> index[name] < |table| && table[index[name]].name == name
  {
    if DistinctNames(table) {
      forall c | 0 <= c < |table| ensures index[table[c].name] == c {
        assert LastRow(table, index[table[c].name], table[c].name);
      }
    }
    if forall c :: 0 <= c < |table| ==> index[table[c].name] == c {
      forall i, j | 0 <= i < j < |table| ensures table[i].name != table[j].name {
        assert index[table[i].name] == i && index[table[j].name] == j;
      }
    }
  }

  datatype Toggle = Toggle(name: string, enable: bool)

  /** The table after a series of enable/disable calls; unknown names change nothing. */
  function Toggled(table: seq<Brief>, index: map<string, nat>, ts: seq<Toggle>): (r: seq<Brief>)
    ensures |r| == |table| && forall i :: 0 <= i < |table| ==> r[i].name == table[i].name
  {
    if ts == [] then table
    else
      var before, t := Toggled(table, index, ts[..|ts| - 1]), ts[|ts| - 1];
      if t.name in index && index[t.name] < |before|
      then before[index[t.name] := before[index[t.name]].(enabled := t.enable)] else before
  }

  /** The last call about a name. */
  function LastToggle(ts: seq<Toggle>, name: string): Option<bool> {
    if ts == [] then None
    else if ts[|ts| - 1].name == name then Some(ts[|ts| - 1].enable)
    else LastToggle(ts[..|ts| - 1], name)
  }

  /** After any series of calls the same index is still right, and a permission is enabled as the last call
      about its name said, or as it was defined. */
  lemma {:induction false} TogglesMeaning(table: seq<Brief>, index: map<string, nat>, ts: seq<Toggle>, i: nat)
    requires IsIndex(index, table) && DistinctNames(table) && i < |table|
    ensures IsIndex(index, Toggled(table, index, ts))
    ensures Toggled(table, index, ts)[i].enabled ==
      match LastToggle(ts, table[i].name) { case Some(b) => b case None => table[i].enabled }
    decreases |ts|
  {
    OpcodeRoundTrip(index, table);
    var out := Toggled(table, index, ts);
    forall name | name in index ensures LastRow(out, index[name], name) {
      assert LastRow(table, index[name], name);
    }
    if ts != [] {
      TogglesMeaning(table, index, ts[..|ts| - 1], i);
      assert index[table[i].name] == i;
    }
  }

  class PermissionMap {
    var table: seq<Brief>
    var index: map<string, nat>
    var inited: bool

    ghost predicate Valid()
      reads this
    {
      inited ==> IsIndex(index, table)
    }

    constructor (table: seq<Brief>)
      ensures Valid() && this.table == table && !inited
    {
      this.table, index, inited := table, map[], false;
    }

    method InitMap()
      requires Valid()
      modifies this`index, this`inited
      ensures Valid() && inited && IsIndex(index, table)
    {
      if inited {
        return;
      }
      index := map[];
      for i := 0 to |table|
        invariant forall name :: name in index ==> LastRow(table[..i], index[name], name)
        invariant forall k :: 0 <= k < i ==> table[k].name in index
        modifies this`index
      {
        index := index[table[i].name := i];
      }
      assert table[..|table|] == table;
      inited := true;
    }

    method TransferPermissionToOpcode(name: string) returns (code: Option<nat>)
      requires Valid()
      modifies this`index, this`inited
      ensures Valid() && inited
      ensures code.Some? ==> LastRow(table, code.value, name)
      ensures code.None? ==> forall i :: 0 <= i < |table| ==> table[i].name != name
    {
      if !inited {
        InitMap();
      }
      return if name in index then Some(index[name]) else None;
    }

    /** The name leads back to the opcode exactly when no later row has it; beyond the table there is none. */
    method TransferOpcodeToPermission(code: nat) returns (name: string)
      requires Valid()
      ensures code < |table| ==> table[code].name == name
      ensures code >= |table| ==> name == ""
      ensures inited && code < |table| ==> name in index && (index[name] == code <==> LastRow(table, code, name))
      ensures inited && code < |table| && DistinctNames(table) ==> index[name] == code
    {
      return if code >= |table| then "" else table[code].name;
    }

    method SetPermissionBriefEnabled(name: string, enable: bool) returns (found: bool)
      requires Valid()
      modifies this
      ensures Valid() && inited && IsIndex(index, old(table))
      ensures found <==> exists i :: 0 <= i < |old(table)| && old(table)[i].name == name
      ensures table == Toggled(old(table), index, [Toggle(name, enable)])
    {
      if !inited {
        InitMap();
      }
      assert [Toggle(name, enable)][..0] == [];
      if name !in index {
        return false;
      }
      assert LastRow(table, index[name], name);
      ghost var before := table;
      table := table[index[name] := table[index[name]].(enabled := enable)];
      forall n | n in index ensures LastRow(table, index[n], n) {
        assert LastRow(before, index[n], n);
      }
      return true;
    }
  }

  // ---------------------------------------------------------------- unsigned words

  predicate Bit(w: nat, k: nat) {
    if k == 0 then w % 2 == 1 else Bit(w / 2, k - 1)
  }

  /** Bitwise or. */
  function Or(a: nat, b: nat): nat
    decreases a + b
  {
    if a == 0 && b == 0 then 0
    else (if a % 2 == 1 || b % 2 == 1 then 1 else 0) + 2 * Or(a / 2, b / 2)
  }

  /** One shifted left. */
  function Shifted(k: nat): (r: nat)
    ensures r > 0
  {
    if k == 0 then 1 else 2 * Shifted(k - 1)
  }

  lemma {:induction false} OrHalves(a: nat, b: nat)
    ensures Or(a, b) / 2 == Or(a / 2, b / 2)
    ensures Or(a, b) % 2 == 1 <==> a % 2 == 1 || b % 2 == 1
  {
  }

  lemma {:induction false} OrBits(a: nat, b: nat, k: nat)
    ensures Bit(Or(a, b), k) <==> Bit(a, k) || Bit(b, k)
    decreases k
  {
    OrHalves(a, b);
    if k > 0 {
      OrBits(a / 2, b / 2, k - 1);
    }
  }

  lemma {:induction false} ShiftedBits(k: nat, j: nat)
    ensures Bit(Shifted(k), j) <==> j == k
    decreases k
  {
    if k > 0 && j > 0 {
      ShiftedBits(k - 1, j - 1);
    } else if k == 0 && j > 0 {
      ZeroBits(j - 1);
    }
  }

  lemma {:induction false} ZeroBits(j: nat)
    ensures !Bit(0, j)
    decreases j
  {
    if j > 0 {
      ZeroBits(j - 1);
    }
  }

  lemma {:induction false} OrFits(a: nat, b: nat, n: nat)
    requires a < Shifted(n) && b < Shifted(n)
    ensures Or(a, b) < Shifted(n)
    decreases n
  {
    if n > 0 {
      OrFits(a / 2, b / 2, n - 1);
    }
  }

  // ---------------------------------------------------------------- the permission bitmap

  /** Bit `c` of a sequence of words. */
  predicate BitAt(words: seq<nat>, c: nat)
    requires c / WORD_BITS < |words|
  {
    Bit(words[c / WORD_BITS], c % WORD_BITS)
  }

  /** Some listed permission has opcode `c`. */
  ghost predicate Listed(perms: seq<string>, opcode: string -> Option<nat>, c: nat) {
    exists i :: 0 <= i < |perms| && opcode(perms[i]) == Some(c)
  }

  /** Sets, in freshly cleared words, exactly the bits of the listed defined permissions that fit. */
  method BuildSpmPerms(perms: seq<string>, opcode: string -> Option<nat>, words: array<nat>)
    requires words.Length == WORDS
    modifies words
    ensures forall c: nat :: c < WORDS * WORD_BITS ==> (BitAt(words[..], c) <==> Listed(perms, opcode, c))
    ensures forall k :: 0 <= k < WORDS ==> words[k] < WORD_RANGE
  {
    for i := 0 to WORDS
      invariant forall k :: 0 <= k < i ==> words[k] == 0
    {
      words[i] := 0;
    }
    forall c: nat | c < WORDS * WORD_BITS ensures !BitAt(words[..], c) {
      ZeroBits(c % WORD_BITS);
    }
    for i := 0 to |perms|
      invariant forall c: nat :: c < WORDS * WORD_BITS ==> (BitAt(words[..], c) <==> Listed(perms[..i], opcode, c))
      invariant forall k :: 0 <= k < WORDS ==> words[k] < WORD_RANGE
    {
      var code := opcode(perms[i]);
      ListedNext(perms, opcode, i);
      if code.None? {
        continue;
      }
      var index := code.value / WORD_BITS;
      if index >= WORDS {
        continue;
      }
      ghost var before := words[..];
      WordStays32(words[index], code.value % WORD_BITS);
      words[index] := Or(words[index], Shifted(code.value % WORD_BITS));
      forall c: nat | c < WORDS * WORD_BITS ensures BitAt(words[..], c) <==> BitAt(before, c) || c == code.value {
        OrBits(before[index], Shifted(code.value % WORD_BITS), c % WORD_BITS);
        ShiftedBits(code.value % WORD_BITS, c % WORD_BITS);
      }
    }
    assert perms[..|perms|] == perms;
  }

  lemma ListedNext(perms: seq<string>, opcode: string -> Option<nat>, i: nat)
    requires i < |perms|
    ensures forall c: nat ::
      Listed(perms[..i + 1], opcode, c) <==> Listed(perms[..i], opcode, c) || opcode(perms[i]) == Some(c)
  {
    var p := perms[..i + 1];
    assert p[i] == perms[i];
    forall c: nat | Listed(perms[..i], opcode, c) ensures Listed(p, opcode, c) {
      var k :| 0 <= k < i && opcode(perms[..i][k]) == Some(c);
      assert p[k] == perms[..i][k];
    }
    forall c: nat | Listed(p, opcode, c) && opcode(perms[i]) != Some(c) ensures Listed(perms[..i], opcode, c) {
      var k :| 0 <= k <= i && opcode(p[k]) == Some(c);
      assert p[k] == perms[..i][k];
    }
  }

  /** Words stay 32-bit: or-ing a bit below 32 into a 32-bit word gives a 32-bit word. */
  lemma WordStays32(w: nat, k: nat)
    requires w < WORD_RANGE && k < WORD_BITS
    ensures Or(w, Shifted(k)) < WORD_RANGE
  {
    ShiftedGrows(k, 31);
    Shifted32();
    OrFits(w, Shifted(k), 32);
  }

  lemma {:induction false} ShiftedGrows(k: nat, n: nat)
    requires k <= n
    ensures Shifted(k) < Shifted(n + 1)
    decreases n
  {
    if k < n {
      ShiftedGrows(k, n - 1);
    }
  }

  lemma Shifted32()
    ensures Shifted(32) == WORD_RANGE
  {
    assert Shifted(4) == 0x10;
    assert Shifted(8) == 0x100;
    assert Shifted(12) == 0x1000;
    assert Shifted(16) == 0x1_0000;
    assert Shifted(20) == 0x10_0000;
    assert Shifted(24) == 0x100_0000;
    assert Shifted(28) == 0x1000_0000;
  }

  /** No listed permission is lost for range: the generator refuses more definitions than the bitmap holds. */
  lemma NoneOutOfRange(table: seq<Brief>, index: map<string, nat>, perms: seq<string>, i: nat)
    requires IsIndex(index, table) && |table| <= MAX_DEFINITIONS && i < |perms| && perms[i] in index
    ensures index[perms[i]] < WORDS * WORD_BITS
    ensures Listed(perms, name => if name in index then Some(index[name]) else None, index[perms[i]])
  {
    assert LastRow(table, index[perms[i]], perms[i]);
  }

  /** The rows of a generated table, in order. */
  function RowNames(names: seq<string>): seq<string> {
    names + [EXTEND_PERM, MANUAL_PERM]
  }

  /** Row `c` has this name and no later row does. */
  predicate LastNamed(rows: seq<string>, c: nat, name: string) {
    c < |rows| && rows[c] == name && forall k :: c < k < |rows| ==> rows[k] != name
  }

  lemma {:induction false} LastNamedExists(rows: seq<string>, name: string) returns (c: nat)
    requires name in rows
    ensures LastNamed(rows, c, name)
    decreases |rows|
  {
    c := |rows| - 1;
    if rows[c] != name {
      c := LastNamedExists(rows[..c], name);
    }
  }

  /** From the permission definitions to the bitmap of a process: the generator numbers the rows and refuses too many,
      the index finds the opcodes, and the bitmap has exactly the bits of the listed permissions. None is lost for
      range: every listed permission that is defined has its bit. */
  method BitmapFromDefinitions(names: seq<string>, perms: seq<string>) returns (ok: bool, words: seq<nat>)
    ensures ok <==> |names| + 2 <= 1800
    ensures ok ==> |words| == 64 && forall c: nat :: c < 2048 ==>
      (BitAt(words, c) <==> exists i :: 0 <= i < |perms| && LastNamed(RowNames(names), c, perms[i]))
    ensures ok ==> forall i :: 0 <= i < |perms| && perms[i] in RowNames(names) ==>
      exists c: nat :: c < 2048 && LastNamed(RowNames(names), c, perms[i]) && BitAt(words, c)
  {
    var defs := ParseJson(names);
    if |defs| > MAX_DEFINITIONS {
      return false, [];
    }
    var table := seq(|defs|, i requires 0 <= i < |defs| => Brief(defs[i].name, true));
    var permissions := new PermissionMap(table);
    permissions.InitMap();
    var index := permissions.index;
    var opcode := (name: string) => if name in index then Some(index[name]) else None;
    var bits := new nat[WORDS];
    BuildSpmPerms(perms, opcode, bits);
    ok, words := true, bits[..];
    forall c: nat, i | 0 <= i < |perms|
      ensures opcode(perms[i]) == Some(c) <==> LastNamed(RowNames(names), c, perms[i])
    {
      RowsIndexed(table, index, RowNames(names), perms[i], c);
    }
    forall i | 0 <= i < |perms| && perms[i] in RowNames(names)
      ensures exists c: nat :: c < WORDS * WORD_BITS && LastNamed(RowNames(names), c, perms[i]) && BitAt(words, c)
    {
      var c := LastNamedExists(RowNames(names), perms[i]);
      assert opcode(perms[i]) == Some(c);
      assert Listed(perms, opcode, c);
    }
  }

  lemma RowsIndexed(table: seq<Brief>, index: map<string, nat>, rows: seq<string>, name: string, c: nat)
    requires IsIndex(index, table) && |rows| == |table| && forall i :: 0 <= i < |rows| ==> rows[i] == table[i].name
    ensures name in index && index[name] == c <==> LastNamed(rows, c, name)
  {
    if name in index {
      assert LastRow(table, index[name], name);
    }
    if LastNamed(rows, c, name) {
      assert table[c].name == name;
    }
  }
}
