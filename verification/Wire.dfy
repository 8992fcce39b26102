/**
 The wire format: fixed-width big-endian fields, written and read by a cursor that moves through a buffer.
 A frame is a list of field widths; the three messages are three such lists.
*/
module Wire {
  import opened Types
  import Cursors

  type byte = b: nat | b < 256

  /** 256 to the power of `n`: the number of values of an n-byte field. */
  function Span(n: nat): (r: nat)
    ensures r > 0
  {
    if n == 0 then 1 else 256 * Span(n - 1)
  }

  /** The `n` bytes of a value, most significant first. */
  function BigEndian(v: nat, n: nat): (r: seq<byte>)
    ensures |r| == n
  {
    if n == 0 then [] else BigEndian(v / 256, n - 1) + [v % 256]
  }

  function Value(b: seq<byte>): nat {
    if b == [] then 0 else Value(b[..|b| - 1]) * 256 + b[|b| - 1]
  }

  lemma {:induction false} ValueOfBytes(v: nat, n: nat)
    requires v < Span(n)
    ensures Value(BigEndian(v, n)) == v
  {
    if n > 0 {
      ValueOfBytes(v / 256, n - 1);
      assert BigEndian(v, n)[..n - 1] == BigEndian(v / 256, n - 1);
    }
  }

  lemma {:induction false} BytesOfValue(b: seq<byte>)
    ensures Value(b) < Span(|b|) && BigEndian(Value(b), |b|) == b
  {
    if b != [] {
      BytesOfValue(b[..|b| - 1]);
      assert Value(b) / 256 == Value(b[..|b| - 1]) && Value(b) % 256 == b[|b| - 1];
      assert b == b[..|b| - 1] + [b[|b| - 1]];
    }
  }

  /** Byte `k` from the top is what shifting the value right brings down. */
  lemma {:induction false} ByteAt(v: nat, n: nat, k: nat)
    requires k < n
    ensures BigEndian(v, n)[k] == v / Span(n - 1 - k) % 256
    decreases n
  {
    if k < n - 1 {
      ByteAt(v / 256, n - 1, k);
      DivTwice(v, Span(n - 2 - k));
    }
  }

  lemma DivTwice(v: nat, m: nat)
    requires m > 0
    ensures v / 256 / m == v / (256 * m)
  {
    var q, r := v / 256 / m, v / 256 % m;
    var b := v % 256;
    assert v == 256 * (q * m + r) + b;
    assert 256 * (q * m) == q * (256 * m);
    assert 0 <= v - q * (256 * m) < 256 * m;
    DivIs(v, q, 256 * m);
  }

  lemma DivIs(v: nat, q: nat, m: nat)
    requires m > 0 && 0 <= v - q * m < m
    ensures v / m == q
  {
    var d := v / m - q;
    assert d * m == (v / m) * m - q * m;
    assert v == (v / m) * m + v % m;
    Cursors.Multiples(d, m);
  }

  /** One field: its width in bytes, and whether it is two's complement. */
  datatype Field = Field(width: nat, signed: bool)

  predicate Fits(f: Field, v: int) {
    if f.signed then f.width > 0 && 0 - Span(f.width) <= 2 * v < Span(f.width) else 0 <= v < Span(f.width)
  }

  /** The bit pattern of a value, as an unsigned number. */
  function Bits(f: Field, v: int): nat { v % Span(f.width) }

  function FromBits(f: Field, u: nat): int {
    if f.signed && 2 * u >= Span(f.width) then u - Span(f.width) else u
  }

  lemma ModWithin(v: int, m: nat)
    requires 0 < m && 0 - m <= v < m
    ensures v % m == if v < 0 then v + m else v
  {
    assert v == (v / m) * m + v % m;
  }

  lemma BitsRound(f: Field, v: int)
    requires Fits(f, v)
    ensures Bits(f, v) < Span(f.width) && FromBits(f, Bits(f, v)) == v
  {
    hide Span;
    ModWithin(v, Span(f.width));
  }

  lemma FromBitsRound(f: Field, u: nat)
    requires u < Span(f.width) && f.width > 0
    ensures Fits(f, FromBits(f, u)) && Bits(f, FromBits(f, u)) == u
  {
    hide Span;
    ModWithin(FromBits(f, u), Span(f.width));
  }

  // ------------------------------------------------------------------ frames

  type Format = seq<Field>

  function SizeOf(f: Format): nat { if f == [] then 0 else f[0].width + SizeOf(f[1..]) }

  predicate AllFit(f: Format, vs: seq<int>) {
    |vs| == |f| && forall i :: 0 <= i < |f| ==> f[i].width > 0 && Fits(f[i], vs[i])
  }

  function Encode(f: Format, vs: seq<int>): (r: seq<byte>)
    requires |vs| == |f|
    ensures |r| == SizeOf(f)
    decreases |f|
  {
    if f == [] then [] else BigEndian(Bits(f[0], vs[0]), f[0].width) + Encode(f[1..], vs[1..])
  }

  function Decode(f: Format, b: seq<byte>): (r: seq<int>)
    requires |b| == SizeOf(f)
    ensures |r| == |f|
    decreases |f|
  {
    if f == [] then []
    else [FromBits(f[0], Value(b[..f[0].width]))] + Decode(f[1..], b[f[0].width..])
  }

  /** Every message survives the wire. */
  lemma {:induction false} DecodeEncode(f: Format, vs: seq<int>)
    requires AllFit(f, vs)
    ensures Decode(f, Encode(f, vs)) == vs
    decreases |f|
  {
    if f != [] {
      var first, rest := BigEndian(Bits(f[0], vs[0]), f[0].width), Encode(f[1..], vs[1..]);
      assert (first + rest)[..f[0].width] == first && (first + rest)[f[0].width..] == rest;
      BitsRound(f[0], vs[0]);
      ValueOfBytes(Bits(f[0], vs[0]), f[0].width);
      DecodeEncode(f[1..], vs[1..]);
    }
  }

  /** No two byte strings mean the same message: decoding loses nothing. */
  lemma {:induction false} EncodeDecode(f: Format, b: seq<byte>)
    requires |b| == SizeOf(f) && forall i :: 0 <= i < |f| ==> f[i].width > 0
    ensures AllFit(f, Decode(f, b)) && Encode(f, Decode(f, b)) == b
    decreases |f|
  {
    if f != [] {
      var w := f[0].width;
      BytesOfValue(b[..w]);
      FromBitsRound(f[0], Value(b[..w]));
      EncodeDecode(f[1..], b[w..]);
      assert Decode(f, b)[1..] == Decode(f[1..], b[w..]);
      assert b == b[..w] + b[w..];
    }
  }

  const U8 := Field(1, false)
  const U32 := Field(4, false)
  const U64 := Field(8, false)
  const I8 := Field(1, true)
  const I64 := Field(8, true)

  /** Magic, version and kind; then sequence number and session epoch, or the market frame's four counters. */
  const REQUEST: Format := [U8, U8, U8, U8, U64, U64, U8, U32, U32, U64, I8, I64, U32]
  const RESPONSE: Format := [U8, U8, U8, U8, U64, U64, U8, U32, U32, U64, U64, I8, I64, U32, U32, U8, U64, I64]
  const MARKET: Format := [U8, U8, U8, U8, U64, U64, U64, U64, U8, U64, U32, I8, I64, U32, U64]

  lemma SizeTail(f: Format, i: nat)
    requires i < |f|
    ensures SizeOf(f[i..]) == f[i].width + SizeOf(f[i + 1..])
  {
    assert f[i..][1..] == f[i + 1..];
  }

  /** `totals` are the running sums of the widths. */
  ghost predicate Totals(f: Format, totals: seq<nat>) {
    |totals| == |f| + 1 && totals[0] == 0 && forall i :: 0 <= i < |f| ==> TotalAt(f, totals, i)
  }

  predicate TotalAt(f: Format, totals: seq<nat>, i: nat)
    requires i < |f| && |totals| == |f| + 1
  {
    totals[i + 1] == totals[i] + f[i].width
  }

  /** The size of a format is the sum of its widths. */
  lemma {:induction false} SizeIsTotal(f: Format, totals: seq<nat>, i: nat)
    requires Totals(f, totals) && i <= |f|
    ensures SizeOf(f) == totals[i] + SizeOf(f[i..])
  {
    if i == 0 {
      assert f[0..] == f;
    } else {
      SizeIsTotal(f, totals, i - 1);
      SizeTail(f, i - 1);
      assert TotalAt(f, totals, i - 1);
    }
  }

  lemma RequestSize()
    ensures SizeOf(REQUEST) == 50
  {
    SizeIsTotal(REQUEST, [0, 1, 2, 3, 4, 12, 20, 21, 25, 29, 37, 38, 46, 50], 13);
  }

  lemma ResponseSize()
    ensures SizeOf(RESPONSE) == 79
  {
    SizeIsTotal(RESPONSE, [0, 1, 2, 3, 4, 12, 20, 21, 25, 29, 37, 45, 46, 54, 58, 62, 63, 71, 79], 18);
  }

  lemma MarketSize()
    ensures SizeOf(MARKET) == 70
  {
    SizeIsTotal(MARKET, [0, 1, 2, 3, 4, 12, 20, 28, 36, 37, 45, 49, 50, 58, 62, 70], 15);
  }

  /** The frame lengths the source declares. */
  lemma Sizes()
    ensures SizeOf(REQUEST) == 50 && SizeOf(RESPONSE) == 79 && SizeOf(MARKET) == 70
  {
    hide SizeOf;
    RequestSize();
    ResponseSize();
    MarketSize();
  }

  const VERSION: int := 1

  /** A frame: magic, version, kind, then the fields. */
  function Frame(f: Format, kind: int, vs: seq<int>): seq<byte>
    requires |f| == |vs| + 4
  {
    Encode(f, ['T' as int, 'S' as int, VERSION, kind] + vs)
  }

  /** Its fields, if the header is that of the kind asked for. */
  function Parse(f: Format, kind: int, b: seq<byte>): Option<seq<int>>
    requires |b| == SizeOf(f) && |f| >= 4
  {
    var vs := Decode(f, b);
    if vs[0] == 'T' as int && vs[1] == 'S' as int && vs[2] == VERSION && vs[3] == kind then Some(vs[4..]) else None
  }

  predicate Headed(f: Format) { |f| >= 4 && f[0] == f[1] == f[2] == f[3] == U8 }

  lemma FrameFits(f: Format, kind: int, vs: seq<int>)
    requires Headed(f) && 0 <= kind < 256 && AllFit(f[4..], vs)
    ensures AllFit(f, ['T' as int, 'S' as int, VERSION, kind] + vs)
  {
    var all := ['T' as int, 'S' as int, VERSION, kind] + vs;
    forall i | 0 <= i < |f| ensures f[i].width > 0 && Fits(f[i], all[i]) {
      if i >= 4 { assert f[i] == f[4..][i - 4] && all[i] == vs[i - 4]; } else { assert Span(1) == 256 * Span(0); }
    }
  }

  lemma FrameParses(f: Format, kind: int, vs: seq<int>)
    requires Headed(f) && 0 <= kind < 256 && AllFit(f[4..], vs)
    ensures Parse(f, kind, Frame(f, kind, vs)) == Some(vs)
  {
    hide Encode, Decode, SizeOf, Fits;
    var all := ['T' as int, 'S' as int, VERSION, kind] + vs;
    FrameFits(f, kind, vs);
    DecodeEncode(f, all);
    assert all[4..] == vs;
  }

  lemma ParsedIsFrame(f: Format, kind: int, b: seq<byte>, vs: seq<int>)
    requires Headed(f) && |b| == SizeOf(f) && |f| == |vs| + 4
    requires forall i :: 0 <= i < |f| ==> f[i].width > 0
    requires Parse(f, kind, b) == Some(vs)
    ensures AllFit(f[4..], vs) && b == Frame(f, kind, vs)
  {
    hide Encode, Decode, SizeOf, Fits;
    EncodeDecode(f, b);
    var all := ['T' as int, 'S' as int, VERSION, kind] + vs;
    assert Decode(f, b) == all;
    forall i | 0 <= i < |f[4..]| ensures f[4..][i].width > 0 && Fits(f[4..][i], vs[i]) {
      assert f[4..][i] == f[i + 4] && vs[i] == all[i + 4];
    }
  }

  /** A frame parses to exactly its fields, and a string that parses is exactly that frame. */
  lemma ParseExactly(f: Format, kind: int, b: seq<byte>, vs: seq<int>)
    requires Headed(f) && 0 <= kind < 256 && |b| == SizeOf(f) && |f| == |vs| + 4
    requires forall i :: 0 <= i < |f| ==> f[i].width > 0
    ensures Parse(f, kind, b) == Some(vs) <==> AllFit(f[4..], vs) && b == Frame(f, kind, vs)
  {
    hide Parse, Frame, AllFit, SizeOf;
    if AllFit(f[4..], vs) && b == Frame(f, kind, vs) { FrameParses(f, kind, vs); }
    if Parse(f, kind, b) == Some(vs) { ParsedIsFrame(f, kind, b, vs); }
  }

  // ------------------------------------------------------------------ the cursor

  /** `put` and `get`: a buffer and the position of the next field. */
  class ByteCursor {
    const buffer: array<byte>
    var at: nat

    ghost predicate Valid()
      reads this
    {
      at <= buffer.Length
    }

    constructor (size: nat)
      ensures Valid() && at == 0 && buffer.Length == size && fresh(buffer)
    {
      buffer := new byte[size](i => 0);
      at := 0;
    }

    /** Writes the low `n` bytes of a bit pattern, most significant first, and moves past them. */
    method Put(bits: nat, n: nat)
      requires Valid() && at + n <= buffer.Length
      modifies `at, buffer
      ensures Valid() && at == old(at) + n
      ensures buffer[..at] == old(buffer[..at]) + BigEndian(bits, n)
    {
      var i := n;
      while i > 0
        invariant 0 <= i <= n && at == old(at) + n - i
        invariant buffer[..at] == old(buffer[..at]) + BigEndian(bits, n)[..n - i]
      {
        ByteAt(bits, n, n - i);
        buffer[at] := bits / Span(i - 1) % 256;
        at := at + 1;
        i := i - 1;
      }
    }

    /** Reads `n` bytes as one unsigned number and moves past them. */
    method Get(n: nat) returns (bits: nat)
      requires Valid() && at + n <= buffer.Length
      modifies `at
      ensures Valid() && at == old(at) + n && bits == Value(buffer[old(at)..at])
    {
      bits := 0;
      var i := 0;
      while i < n
        invariant i <= n && at == old(at) + i && bits == Value(buffer[old(at)..at])
      {
        assert buffer[old(at)..at + 1][..i] == buffer[old(at)..at];
        bits := bits * 256 + buffer[at];
        at := at + 1;
        i := i + 1;
      }
    }

    method EncodeAll(f: Format, vs: seq<int>)
      requires Valid() && |vs| == |f| && at + SizeOf(f) <= buffer.Length
      modifies `at, buffer
      ensures Valid() && at == old(at) + SizeOf(f) && buffer[..at] == old(buffer[..at]) + Encode(f, vs)
      decreases |f|
    {
      if f != [] {
        Put(Bits(f[0], vs[0]), f[0].width);
        EncodeAll(f[1..], vs[1..]);
      }
    }

    method DecodeAll(f: Format) returns (vs: seq<int>)
      requires Valid() && at + SizeOf(f) <= buffer.Length
      modifies `at
      ensures Valid() && at == old(at) + SizeOf(f) && vs == Decode(f, buffer[old(at)..at])
      decreases |f|
    {
      if f == [] {
        return [];
      }
      var u := Get(f[0].width);
      label Rest:
      var rest := DecodeAll(f[1..]);
      assert buffer[old(at)..at][..f[0].width] == buffer[old(at)..old(at) + f[0].width];
      assert buffer[old(at)..at][f[0].width..] == buffer[old(at) + f[0].width..at];
      vs := [FromBits(f[0], u)] + rest;
    }
  }

  /** What was not consumed moves to the front; the regions may overlap. */
  method MoveFront(inbound: array<byte>, consumed: nat, left: nat)
    requires consumed + left <= inbound.Length
    modifies inbound
    ensures inbound[..left] == old(inbound[consumed..consumed + left])
  {
    forall j | 0 <= j < left { inbound[j] := inbound[j + consumed]; }
  }
}
