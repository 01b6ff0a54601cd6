/** Parcels as sequences of typed cells, and the counted lists that all the nested codecs are built from. */
module Parcels {
  const UINT32_RANGE := 0x1_0000_0000

  type Int32 = x: int | -0x8000_0000 <= x < 0x8000_0000
  type UInt32 = x: int | 0 <= x < UINT32_RANGE
  type Int64 = x: int | -0x8000_0000_0000_0000 <= x < 0x8000_0000_0000_0000
  type UInt64 = x: int | 0 <= x < 0x1_0000_0000_0000_0000

  datatype Cell = I32(i32: Int32) | U32(u32: UInt32) | I64(i64: Int64) | U64(u64: UInt64) | B(b: bool) | S(s: string)

  /** The outcome of reading a value: nothing, or the value and what is left. */
  datatype Got<+T> = Fail | Got(value: T, rest: seq<Cell>)

  /** A list whose length fits the 32-bit count it is written with. */
  type Vec<T> = s: seq<T> | |s| < UINT32_RANGE witness []

  // ---------------------------------------------------------------- nested objects

  /** A nested object is preceded by a presence marker. */
  function EncodeObject<T>(enc: T -> seq<Cell>, x: T): seq<Cell> {
    [I32(1)] + enc(x)
  }

  function DecodeObject<T>(dec: seq<Cell> -> Got<T>, cells: seq<Cell>): Got<T> {
    if cells == [] || !cells[0].I32? || cells[0].i32 == 0 then Fail else dec(cells[1..])
  }

  function EncodeAll<T>(enc: T -> seq<Cell>, xs: seq<T>): seq<Cell> {
    if xs == [] then [] else EncodeAll(enc, xs[..|xs| - 1]) + enc(xs[|xs| - 1])
  }

  function DecodeAll<T>(dec: seq<Cell> -> Got<T>, n: nat, cells: seq<Cell>): (r: Got<seq<T>>)
    ensures r.Got? ==> |r.value| == n
  {
    if n == 0 then Got([], cells)
    else match DecodeAll(dec, n - 1, cells)
      case Fail => Fail
      case Got(xs, rest) =>
        match dec(rest)
        case Fail => Fail
        case Got(x, rest') => Got(xs + [x], rest')
  }

  /** A count followed by that many elements; the reader refuses counts above its cap. */
  function EncodeList<T>(enc: T -> seq<Cell>, xs: Vec<T>): seq<Cell> {
    [U32(|xs|)] + EncodeAll(enc, xs)
  }

  function DecodeList<T>(dec: seq<Cell> -> Got<T>, cap: nat, cells: seq<Cell>): (r: Got<seq<T>>)
    ensures r.Got? ==> |r.value| <= cap
  {
    if cells == [] || !cells[0].U32? || cells[0].u32 > cap then Fail else DecodeAll(dec, cells[0].u32, cells[1..])
  }

  // ---------------------------------------------------------------- lists undo each other

  /** The codec reads back `back(x)` from what it wrote for `x`, if `ok(x)`, and refuses it otherwise, leaving
      whatever follows. */
  ghost predicate Inverse<T(!new)>(enc: T -> seq<Cell>, dec: seq<Cell> -> Got<T>, ok: T -> bool, back: T -> T) {
    forall x, rest :: dec(enc(x) + rest) == if ok(x) then Got(back(x), rest) else Fail
  }

  predicate AllOk<T>(ok: T -> bool, xs: seq<T>) {
    forall i :: 0 <= i < |xs| ==> ok(xs[i])
  }

  function MapBack<T>(back: T -> T, xs: seq<T>): (r: seq<T>)
    ensures |r| == |xs| && forall i :: 0 <= i < |xs| ==> r[i] == back(xs[i])
  {
    seq(|xs|, i requires 0 <= i < |xs| => back(xs[i]))
  }

  lemma {:induction false} AllRoundTrip<T(!new)>(enc: T -> seq<Cell>, dec: seq<Cell> -> Got<T>, ok: T -> bool,
                                                 back: T -> T, xs: seq<T>, rest: seq<Cell>)
    requires Inverse(enc, dec, ok, back)
    ensures DecodeAll(dec, |xs|, EncodeAll(enc, xs) + rest)
         == if AllOk(ok, xs) then Got(MapBack(back, xs), rest) else Fail
    decreases |xs|
  {
    if xs == [] {
      assert EncodeAll(enc, xs) + rest == rest;
      assert MapBack(back, xs) == [];
    } else {
      var pre, x := xs[..|xs| - 1], xs[|xs| - 1];
      assert EncodeAll(enc, xs) + rest == EncodeAll(enc, pre) + (enc(x) + rest);
      AllRoundTrip(enc, dec, ok, back, pre, enc(x) + rest);
      assert AllOk(ok, xs) <==> AllOk(ok, pre) && ok(x);
      assert MapBack(back, xs) == MapBack(back, pre) + [back(x)];
    }
  }

  /** A counted list of a codec is a codec: exact within the cap when every element is, refused otherwise. */
  lemma ListRoundTrip<T(!new)>(enc: T -> seq<Cell>, dec: seq<Cell> -> Got<T>, ok: T -> bool, back: T -> T, cap: nat,
                         xs: Vec<T>, rest: seq<Cell>)
    requires Inverse(enc, dec, ok, back)
    ensures DecodeList(dec, cap, EncodeList(enc, xs) + rest)
         == if |xs| <= cap && AllOk(ok, xs) then Got(MapBack(back, xs), rest) else Fail
  {
    var cells := EncodeList(enc, xs) + rest;
    assert cells[1..] == EncodeAll(enc, xs) + rest;
    AllRoundTrip(enc, dec, ok, back, xs, rest);
  }
}
