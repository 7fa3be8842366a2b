/** Little-endian unsigned integers of any width, and the loops that read and append them. */
module ByteCodec {
  import opened Wrappers

  type byte = b: int | 0 <= b < 256
  type u16 = x: int | 0 <= x < 0x1_0000
  type u32 = x: int | 0 <= x < 0x1_0000_0000
  type u64 = x: int | 0 <= x < 0x1_0000_0000_0000_0000
  type i32 = x: int | -0x8000_0000 <= x < 0x8000_0000

  // The conversions of C++ between int and uint32_t.
  function ToU32(x: i32): u32 { if x < 0 then x + 0x1_0000_0000 else x }
  function ToI32(x: u32): i32 { if x >= 0x8000_0000 then x - 0x1_0000_0000 else x }

  function Pow256(n: nat): nat { if n == 0 then 1 else 256 * Pow256(n - 1) }

  // v >> 8 * n
  function Shift(v: nat, n: nat): nat { if n == 0 then v else Shift(v / 256, n - 1) }

  // The n low bytes of v, lowest first.
  function LE(v: nat, n: nat): (r: seq<byte>)
    ensures |r| == n
  {
    if n == 0 then [] else [v % 256] + LE(v / 256, n - 1)
  }

  function Num(s: seq<byte>): nat { if s == [] then 0 else s[0] + 256 * Num(s[1..]) }

  lemma {:induction false} NumBound(s: seq<byte>)
    ensures Num(s) < Pow256(|s|)
  {
    if s != [] { NumBound(s[1..]); }
  }

  lemma {:induction false} NumOfLE(v: nat, n: nat)
    requires v < Pow256(n)
    ensures Num(LE(v, n)) == v
  {
    if n > 0 {
      NumOfLE(v / 256, n - 1);
      assert LE(v, n)[1..] == LE(v / 256, n - 1);
    }
  }

  lemma LowestByte(b: byte, n: nat)
    ensures (b + 256 * n) % 256 == b && (b + 256 * n) / 256 == n
  {
  }

  lemma {:induction false} LEOfNum(s: seq<byte>)
    ensures LE(Num(s), |s|) == s
  {
    if s != [] {
      LowestByte(s[0], Num(s[1..]));
      LEOfNum(s[1..]);
      assert Num(s) == s[0] + 256 * Num(s[1..]);
      assert LE(Num(s), |s|) == [s[0]] + LE(Num(s[1..]), |s[1..]|);
      assert s == [s[0]] + s[1..];
    }
  }

  lemma {:induction false} LESnoc(v: nat, n: nat)
    ensures LE(v, n + 1) == LE(v, n) + [Shift(v, n) % 256]
  {
    if n > 0 { LESnoc(v / 256, n - 1); }
  }

  lemma {:induction false} LEAt(v: nat, n: nat, i: nat)
    requires i < n
    ensures LE(v, n)[i] == Shift(v, i) % 256
    decreases n
  {
    if i > 0 {
      assert LE(v, n)[i] == LE(v / 256, n - 1)[i - 1];
      LEAt(v / 256, n - 1, i - 1);
    }
  }

  lemma {:induction false} NumSnoc(s: seq<byte>, b: byte)
    ensures Num(s + [b]) == Num(s) + b * Pow256(|s|)
  {
    if s == [] {
      assert [b][1..] == [];
    } else {
      assert (s + [b])[1..] == s[1..] + [b];
      NumSnoc(s[1..], b);
      assert 256 * (b * Pow256(|s| - 1)) == b * (256 * Pow256(|s| - 1));
    }
  }

  // The n-byte integer at an offset; None is the reader's out_of_range.
  function Read(data: seq<byte>, offset: nat, n: nat): Option<nat> {
    if offset + n > |data| then None else Some(Num(data[offset..offset + n]))
  }

  /** Reading yields v exactly when the bytes of v stand there. */
  lemma ReadIff(data: seq<byte>, offset: nat, n: nat, v: nat)
    ensures Read(data, offset, n) == Some(v) <==>
      offset + n <= |data| && v < Pow256(n) && data[offset..offset + n] == LE(v, n)
  {
    if offset + n <= |data| {
      var s := data[offset..offset + n];
      NumBound(s);
      LEOfNum(s);
      if v < Pow256(n) { NumOfLE(v, n); }
    }
  }

  // append_u16, append_u32, append_u64 for n = 2, 4, 8
  method Append(buf: seq<byte>, v: nat, n: nat) returns (r: seq<byte>)
    ensures r == buf + LE(v, n)
  {
    r := buf;
    for i := 0 to n
      invariant r == buf + LE(v, i)
    {
      LESnoc(v, i);
      r := r + [Shift(v, i) % 256];
    }
  }

  // read_u16, read_u32, read_u64; or-ing a byte shifted past the lower ones adds it.
  method ReadUnsigned(data: seq<byte>, offset: nat, n: nat) returns (r: Option<nat>)
    ensures r == Read(data, offset, n)
  {
    if offset + n > |data| { return None; }
    var value := 0;
    for i := 0 to n
      invariant value == Num(data[offset..offset + i])
    {
      NumSnoc(data[offset..offset + i], data[offset + i]);
      assert data[offset..offset + i + 1] == data[offset..offset + i] + [data[offset + i]];
      value := value + data[offset + i] * Pow256(i);
    }
    return Some(value);
  }
}
