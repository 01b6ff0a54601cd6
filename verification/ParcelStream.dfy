/** A parcel as a mutable buffer with a read cursor. */
module ParcelStream {
  import opened Options
  import opened Parcels

  class Parcel {
    var data: seq<Cell>
    var pos: nat

    ghost predicate Valid()
      reads this
    {
      pos <= |data|
    }

    /** What a reader has still before it. */
    function Rest(): seq<Cell>
      requires Valid()
      reads this
    {
      data[pos..]
    }

    constructor ()
      ensures Valid() && data == [] && pos == 0
    {
      data, pos := [], 0;
    }

    method Write(c: Cell)
      modifies this`data
      ensures data == old(data) + [c]
    {
      data := data + [c];
    }

    method Read() returns (c: Option<Cell>)
      requires Valid()
      modifies this`pos
      ensures Valid()
      ensures old(pos) < |data| ==> c == Some(data[old(pos)]) && pos == old(pos) + 1
      ensures old(pos) >= |data| ==> c == None && pos == old(pos)
    {
      if pos >= |data| {
        return None;
      }
      c := Some(data[pos]);
      pos := pos + 1;
    }

    method ReadInt32() returns (r: Option<Int32>)
      requires Valid()
      modifies this`pos
      ensures Valid() && (r.Some? <==> old(pos) < |data| && data[old(pos)].I32?)
      ensures r.Some? ==> r.value == data[old(pos)].i32 && pos == old(pos) + 1
    {
      var c := Read();
      return if c.Some? && c.value.I32? then Some(c.value.i32) else None;
    }

    method ReadUint32() returns (r: Option<UInt32>)
      requires Valid()
      modifies this`pos
      ensures Valid() && (r.Some? <==> old(pos) < |data| && data[old(pos)].U32?)
      ensures r.Some? ==> r.value == data[old(pos)].u32 && pos == old(pos) + 1
    {
      var c := Read();
      return if c.Some? && c.value.U32? then Some(c.value.u32) else None;
    }

    method ReadInt64() returns (r: Option<Int64>)
      requires Valid()
      modifies this`pos
      ensures Valid() && (r.Some? <==> old(pos) < |data| && data[old(pos)].I64?)
      ensures r.Some? ==> r.value == data[old(pos)].i64 && pos == old(pos) + 1
    {
      var c := Read();
      return if c.Some? && c.value.I64? then Some(c.value.i64) else None;
    }

    method ReadUint64() returns (r: Option<UInt64>)
      requires Valid()
      modifies this`pos
      ensures Valid() && (r.Some? <==> old(pos) < |data| && data[old(pos)].U64?)
      ensures r.Some? ==> r.value == data[old(pos)].u64 && pos == old(pos) + 1
    {
      var c := Read();
      return if c.Some? && c.value.U64? then Some(c.value.u64) else None;
    }

    method ReadBool() returns (r: Option<bool>)
      requires Valid()
      modifies this`pos
      ensures Valid() && (r.Some? <==> old(pos) < |data| && data[old(pos)].B?)
      ensures r.Some? ==> r.value == data[old(pos)].b && pos == old(pos) + 1
    {
      var c := Read();
      return if c.Some? && c.value.B? then Some(c.value.b) else None;
    }

    method ReadString() returns (r: Option<string>)
      requires Valid()
      modifies this`pos
      ensures Valid() && (r.Some? <==> old(pos) < |data| && data[old(pos)].S?)
      ensures r.Some? ==> r.value == data[old(pos)].s && pos == old(pos) + 1
    {
      var c := Read();
      return if c.Some? && c.value.S? then Some(c.value.s) else None;
    }
  }

  /** The reader found what the codec says it should, and stands right behind it. */
  ghost predicate Agrees<T>(g: Got<T>, r: Option<T>, rest: seq<Cell>) {
    match g
    case Fail => r.None?
    case Got(v, after) => r == Some(v) && rest == after
  }

  lemma {:induction false} EncodeNext<T>(enc: T -> seq<Cell>, xs: seq<T>, i: nat)
    requires i < |xs|
    ensures EncodeAll(enc, xs[..i + 1]) == EncodeAll(enc, xs[..i]) + enc(xs[i])
  {
    assert xs[..i + 1][..i] == xs[..i];
  }

  lemma {:induction false} DecodeStuck<T>(dec: seq<Cell> -> Got<T>, i: nat, n: nat, cells: seq<Cell>)
    requires i <= n && DecodeAll(dec, i, cells) == Fail
    ensures DecodeAll(dec, n, cells) == Fail
    decreases n
  {
    if i < n {
      DecodeStuck(dec, i, n - 1, cells);
    }
  }
}
