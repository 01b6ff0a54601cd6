/** The packed 32-bit token ID, as written by the native token registry and as read by the kit. */
module TokenId {
  const UNIQUE_RANGE := 0x10_0000       // 20 bits
  const KIND_UNIT := 0x800_0000         // bit 27
  const VERSION_UNIT := 0x2000_0000     // bit 29
  const UINT32_RANGE := 0x1_0000_0000
  const INT_MAX := 0x7fff_ffff
  const INT_MIN := -0x8000_0000

  const TOKEN_NATIVE_TYPE := 1
  const TOKEN_SHELL_TYPE := 2

  type Int32 = x: int | INT_MIN <= x <= INT_MAX

  /** The writer's bit fields (AtInnerInfo). */
  datatype Fields = Fields(uniqueId: nat, reserved: nat, kind: nat, version: nat) {
    predicate Fits() {
      uniqueId < UNIQUE_RANGE && reserved < 0x80 && kind < 4 && version < 8
    }
  }

  function Pack(f: Fields): nat {
    f.uniqueId + f.reserved * UNIQUE_RANGE + f.kind * KIND_UNIT + f.version * VERSION_UNIT
  }

  function Unpack(id: nat): Fields {
    Fields(id % UNIQUE_RANGE, (id / UNIQUE_RANGE) % 0x80, (id / KIND_UNIT) % 4, (id / VERSION_UNIT) % 8)
  }

  /** The reader's bit fields (AccessTokenIDInner): the seven reserved bits are flags there. */
  datatype Inner = Inner(uniqueId: nat, toolFlag: nat, res: nat, typeExt: nat, cloneFlag: nat,
                         renderFlag: nat, dlpFlag: nat, kind: nat, version: nat)

  function ReadInner(id: nat): Inner {
    Inner(id % UNIQUE_RANGE, (id / UNIQUE_RANGE) % 2, (id / 0x20_0000) % 4, (id / 0x80_0000) % 2,
          (id / 0x100_0000) % 2, (id / 0x200_0000) % 2, (id / 0x400_0000) % 2,
          (id / KIND_UNIT) % 4, (id / VERSION_UNIT) % 8)
  }

  /** Packing and unpacking undo each other on all field values and all 32-bit IDs. */
  lemma PackUnpack(f: Fields)
    requires f.Fits()
    ensures Pack(f) < UINT32_RANGE && Unpack(Pack(f)) == f
  {
    var id := Pack(f);
    assert id / UNIQUE_RANGE == f.reserved + 0x80 * (f.kind + 4 * f.version);
    assert id / KIND_UNIT == f.kind + 4 * f.version;
    assert id / VERSION_UNIT == f.version;
  }

  lemma UnpackPack(id: nat)
    requires id < UINT32_RANGE
    ensures Unpack(id).Fits() && Pack(Unpack(id)) == id
  {
    var a, b, c := id / UNIQUE_RANGE, id / KIND_UNIT, id / VERSION_UNIT;
    assert a / 0x80 == b && b / 4 == c && c < 8;
  }

  /** The ID handed to a new native process. */
  function NewId(uniqueId: nat, shell: bool): nat {
    Pack(Fields(uniqueId, 0, if shell then TOKEN_SHELL_TYPE else TOKEN_NATIVE_TYPE, 1))
  }

  /** A new ID is never the invalid ID, survives a signed 32-bit reading, and carries its own 20 bits. The
      reader sees the same type with every flag clear: in particular it is not a render process. */
  lemma NewIdMeaning(uniqueId: nat, shell: bool)
    requires uniqueId < UNIQUE_RANGE
    ensures var id := NewId(uniqueId, shell);
      && VERSION_UNIT < id < 0x4000_0000 <= INT_MAX
      && id % UNIQUE_RANGE == uniqueId
      && Unpack(id).kind == (if shell then TOKEN_SHELL_TYPE else TOKEN_NATIVE_TYPE)
      && ReadInner(id) == Inner(uniqueId, 0, 0, 0, 0, 0, 0, if shell then 2 else 1, 1)
  {
    PackUnpack(Fields(uniqueId, 0, if shell then TOKEN_SHELL_TYPE else TOKEN_NATIVE_TYPE, 1));
  }

  /** The twelve bits above the number, from the lowest up. */
  lemma UpperBits(tool: nat, res: nat, ext: nat, clone: nat, render: nat, dlp: nat, kind: nat, version: nat)
    requires tool < 2 && res < 4 && ext < 2 && clone < 2 && render < 2 && dlp < 2 && kind < 4 && version < 8
    ensures var h := tool + 2 * res + 8 * ext + 16 * clone + 32 * render + 64 * dlp + 128 * kind + 512 * version;
      && h % 2 == tool && (h / 2) % 4 == res && (h / 8) % 2 == ext && (h / 16) % 2 == clone
      && (h / 32) % 2 == render && (h / 64) % 2 == dlp && (h / 128) % 4 == kind && (h / 512) % 8 == version
  {
    var h := tool + 2 * res + 8 * ext + 16 * clone + 32 * render + 64 * dlp + 128 * kind + 512 * version;
    assert h / 512 == version;
    assert h / 128 == kind + 4 * version;
    assert h / 64 == dlp + 2 * (h / 128);
    assert h / 32 == render + 2 * (h / 64);
    assert h / 16 == clone + 2 * (h / 32);
    assert h / 8 == ext + 2 * (h / 16);
    assert h / 2 == res + 4 * (h / 8);
  }

  lemma AboveNumber(u: nat, h: nat)
    requires u < 0x10_0000
    ensures var id := u + 0x10_0000 * h;
      && id % 0x10_0000 == u && id / 0x10_0000 == h && id / 0x20_0000 == h / 2 && id / 0x80_0000 == h / 8
      && id / 0x100_0000 == h / 16 && id / 0x200_0000 == h / 32 && id / 0x400_0000 == h / 64
      && id / 0x800_0000 == h / 128 && id / 0x2000_0000 == h / 512
  {
  }

  /** The reading side finds each field at its own bits: 20 of number, 1 tool, 2 reserved, 1 extended type, 1 clone,
      1 render, 1 DLP, 2 type, 3 version. */
  lemma InnerBits(u: nat, tool: nat, res: nat, ext: nat, clone: nat, render: nat, dlp: nat, kind: nat, version: nat)
    requires u < 0x10_0000 && tool < 2 && res < 4 && ext < 2 && clone < 2 && render < 2 && dlp < 2
    requires kind < 4 && version < 8
    ensures var id := u + tool * 0x10_0000 + res * 0x20_0000 + ext * 0x80_0000 + clone * 0x100_0000
                      + render * 0x200_0000 + dlp * 0x400_0000 + kind * 0x800_0000 + version * 0x2000_0000;
      ReadInner(id) == Inner(u, tool, res, ext, clone, render, dlp, kind, version)
  {
    var h := tool + 2 * res + 8 * ext + 16 * clone + 32 * render + 64 * dlp + 128 * kind + 512 * version;
    UpperBits(tool, res, ext, clone, render, dlp, kind, version);
    AboveNumber(u, h);
  }
}
