/**
 * Base64 (helper.cpp; section 4 of RFC 4648). Masks and shifts of the original are written as
 * quotients and remainders by powers of two.
 */
module Base64 {
  import opened Wrappers

  type Byte = x: int | 0 <= x < 256

  type Sextet = x: int | 0 <= x < 64

  /** The encoding table: upper-case letters, lower-case letters, digits, '+' and '/'. */
  function EncodeChar(v: Sextet): char {
    if v < 26 then ('A' as int + v) as char
    else if v < 52 then ('a' as int + (v - 26)) as char
    else if v < 62 then ('0' as int + (v - 52)) as char
    else if v == 62 then '+'
    else '/'
  }

  /** The decoding table; -1 means "not in the alphabet". */
  function DecodeChar(c: char): (v: int)
    ensures -1 <= v < 64
  {
    if 'A' <= c <= 'Z' then c as int - 'A' as int
    else if 'a' <= c <= 'z' then c as int - 'a' as int + 26
    else if '0' <= c <= '9' then c as int - '0' as int + 52
    else if c == '+' then 62
    else if c == '/' then 63
    else -1
  }

  /** The two tables are inverse to each other. */
  lemma TablesInverse(c: char, v: Sextet)
    ensures DecodeChar(c) == v <==> c == EncodeChar(v)
    ensures EncodeChar(v) != '='
  {
  }

  // ----- twenty-four bits as three bytes or as four sextets -----

  datatype Bytes = Bytes(a: Byte, b: Byte, c: Byte)

  datatype Sextets = Sextets(w: Sextet, x: Sextet, y: Sextet, z: Sextet)

  function ToSextets(d: Bytes): Sextets {
    Sextets(d.a / 4, d.a % 4 * 16 + d.b / 16, d.b % 16 * 4 + d.c / 64, d.c % 64)
  }

  function ToBytes(s: Sextets): Bytes {
    Bytes(s.w * 4 + s.x / 16, s.x % 16 * 16 + s.y / 4, s.y % 4 * 64 + s.z)
  }

  lemma BackToBytes(d: Bytes)
    ensures ToBytes(ToSextets(d)) == d
  {
    assert (d.a % 4 * 16 + d.b / 16) / 16 == d.a % 4 && (d.a % 4 * 16 + d.b / 16) % 16 == d.b / 16;
    assert (d.b % 16 * 4 + d.c / 64) / 4 == d.b % 16 && (d.b % 16 * 4 + d.c / 64) % 4 == d.c / 64;
  }

  lemma BackToSextets(s: Sextets)
    ensures ToSextets(ToBytes(s)) == s
  {
    assert (s.w * 4 + s.x / 16) / 4 == s.w && (s.w * 4 + s.x / 16) % 4 == s.x / 16;
    assert (s.x % 16 * 16 + s.y / 4) / 16 == s.x % 16 && (s.x % 16 * 16 + s.y / 4) % 16 == s.y / 4;
    assert (s.y % 4 * 64 + s.z) / 64 == s.y % 4 && (s.y % 4 * 64 + s.z) % 64 == s.z;
  }

  // ----- encoding -----

  /** The first `size` bytes of a group, and the padding. */
  function EncodeGroup(d: Bytes, size: nat): (s: string)
    requires 1 <= size <= 3
    ensures |s| == 4
  {
    var t := ToSextets(d);
    [EncodeChar(t.w), EncodeChar(t.x), if size < 2 then '=' else EncodeChar(t.y), if size < 3 then '=' else EncodeChar(t.z)]
  }

  /** How many groups of three bytes, the last one possibly shorter, make up `n` bytes. */
  function Groups(n: nat): nat {
    if n == 0 then 0 else if n < 3 then 1 else 1 + Groups(n - 3)
  }

  lemma {:induction false} GroupsRoundUp(n: nat)
    ensures Groups(n) == (n + 2) / 3
  {
    if n >= 3 {
      GroupsRoundUp(n - 3);
    }
  }

  /** Three bytes at a time; a shorter last group is padded. */
  function Encode(data: seq<Byte>): (s: string)
    ensures |s| == 4 * Groups(|data|)
  {
    if |data| == 0 then ""
    else if |data| == 1 then EncodeGroup(Bytes(data[0], 0, 0), 1)
    else if |data| == 2 then EncodeGroup(Bytes(data[0], data[1], 0), 2)
    else EncodeGroup(Bytes(data[0], data[1], data[2]), 3) + Encode(data[3..])
  }

  lemma EncodeFrom(data: seq<Byte>, it: nat)
    requires it + 3 <= |data|
    ensures Encode(data[it..]) == EncodeGroup(Bytes(data[it], data[it + 1], data[it + 2]), 3) + Encode(data[it + 3..])
  {
    assert data[it..][3..] == data[it + 3..];
  }

  /** One group: four table look-ups, or three or two and the padding. */
  method EncodeStep(a: Byte, b: Byte, c: Byte, size: nat) returns (s: string)
    requires 1 <= size <= 3 && (size < 2 ==> b == 0) && (size < 3 ==> c == 0)
    ensures s == EncodeGroup(Bytes(a, b, c), size)
  {
    s := [EncodeChar(a / 4)];
    if size == 1 {
      s := s + [EncodeChar(a % 4 * 16), '=', '='];
    } else if size == 2 {
      s := s + [EncodeChar(a % 4 * 16 + b / 16), EncodeChar(b % 16 * 4), '='];
    } else {
      s := s + [EncodeChar(a % 4 * 16 + b / 16), EncodeChar(b % 16 * 4 + c / 64), EncodeChar(c % 64)];
    }
  }

  method Base64Encode(data: seq<Byte>) returns (b64: string)
    ensures b64 == Encode(data) && |b64| == 4 * ((|data| + 2) / 3)
  {
    GroupsRoundUp(|data|);
    b64 := "";
    var it, i := 0, 0;
    while i < |data| / 3
      invariant 0 <= i <= |data| / 3 && it == 3 * i
      invariant b64 + Encode(data[it..]) == Encode(data)
    {
      var group := EncodeStep(data[it], data[it + 1], data[it + 2], 3);
      EncodeFrom(data, it);
      assert b64 + (group + Encode(data[it + 3..])) == (b64 + group) + Encode(data[it + 3..]);
      b64 := b64 + group;
      it, i := it + 3, i + 1;
    }
    ghost var tail := data[it..];
    if |data| % 3 == 1 {
      assert |tail| == 1 && tail[0] == data[it];
      var group := EncodeStep(data[it], 0, 0, 1);
      b64 := b64 + group;
    } else if |data| % 3 == 2 {
      assert |tail| == 2 && tail[0] == data[it] && tail[1] == data[it + 1];
      var group := EncodeStep(data[it], data[it + 1], 0, 2);
      b64 := b64 + group;
    } else {
      assert tail == [];
    }
  }

  // ----- decoding -----

  /** The values of four characters; unused ones count as zero, and None is the thrown error. */
  function CharValues(s: string, size: nat): Option<Sextets>
    requires |s| == 4 && 1 <= size <= 3
  {
    var w, x, y, z := DecodeChar(s[0]), DecodeChar(s[1]), DecodeChar(s[2]), DecodeChar(s[3]);
    if w < 0 || x < 0 || (size >= 2 && y < 0) || (size >= 3 && z < 0) then None
    else Some(Sextets(w, x, if size < 2 then 0 else y, if size < 3 then 0 else z))
  }

  function Take(d: Bytes, size: nat): (r: seq<Byte>)
    requires 1 <= size <= 3
    ensures |r| == size
  {
    [d.a, d.b, d.c][..size]
  }

  /** decode_block: `size` bytes from the first size + 1 of four characters. */
  function DecodeBlock(s: string, size: nat): (r: Option<seq<Byte>>)
    requires |s| == 4 && 1 <= size <= 3
    ensures r.Some? ==> |r.value| == size
  {
    var v := CharValues(s, size);
    if v.None? then None else Some(Take(ToBytes(v.value), size))
  }

  /** How many bytes the last block holds, from its padding. */
  function LastSize(s: string): (size: nat)
    requires |s| == 4
    ensures 1 <= size <= 3
  {
    if s[3] != '=' then 3 else if s[2] != '=' then 2 else 1
  }

  function DecodeBlocks(s: string): Option<seq<Byte>>
    requires |s| % 4 == 0 && s != ""
  {
    if |s| == 4 then DecodeBlock(s, LastSize(s))
    else
      var first := DecodeBlock(s[..4], 3);
      if first.None? then None
      else
        var rest := DecodeBlocks(s[4..]);
        if rest.None? then None else Some(first.value + rest.value)
  }

  function Decode(s: string): Option<seq<Byte>> {
    if |s| % 4 != 0 then None else if s == "" then Some([]) else DecodeBlocks(s)
  }

  function Prepend(data: seq<Byte>, rest: Option<seq<Byte>>): Option<seq<Byte>> {
    if rest.None? then None else Some(data + rest.value)
  }

  lemma PrependNothing(rest: Option<seq<Byte>>)
    ensures Prepend([], rest) == rest
  {
    if rest.Some? {
      assert [] + rest.value == rest.value;
    }
  }

  lemma PrependTwice(data: seq<Byte>, block: seq<Byte>, rest: Option<seq<Byte>>)
    ensures Prepend(data, Prepend(block, rest)) == Prepend(data + block, rest)
  {
    if rest.Some? {
      assert data + (block + rest.value) == (data + block) + rest.value;
    }
  }

  method Base64Decode(b64: string) returns (r: Option<seq<Byte>>)
    ensures r == Decode(b64)
  {
    if |b64| % 4 != 0 {
      return None;
    }
    if |b64| == 0 {
      return Some([]);
    }
    r := DecodeAll(b64);
  }

  method DecodeAll(b64: string) returns (r: Option<seq<Byte>>)
    requires |b64| % 4 == 0 && b64 != ""
    ensures r == DecodeBlocks(b64)
  {
    var data: seq<Byte> := [];
    var it, i := 0, 0;
    var blocks := |b64| / 4;
    assert |b64| == 4 * blocks && b64[0..] == b64;
    PrependNothing(DecodeBlocks(b64));
    while i < blocks - 1
      invariant 0 <= i < blocks && it == 4 * i
      invariant Decoded(b64, data, it)
    {
      var block := DecodeFull(b64, it);
      if block.None? {
        return None;
      }
      PrependTwice(data, block.value, DecodeBlocks(b64[it + 4..]));
      data := data + block.value;
      it, i := it + 4, i + 1;
    }
    var block := DecodeLast(b64[it..]);
    r := Prepend(data, block);
  }

  /** `data` is what the first `it` characters decode to. */
  ghost predicate Decoded(b64: string, data: seq<Byte>, it: nat)
    requires |b64| % 4 == 0 && it % 4 == 0 && it < |b64|
  {
    DecodeBlocks(b64) == Prepend(data, DecodeBlocks(b64[it..]))
  }

  /** A block before the last one. */
  method DecodeFull(s: string, it: nat) returns (r: Option<seq<Byte>>)
    requires it + 8 <= |s| && (|s| - it) % 4 == 0
    ensures DecodeBlocks(s[it..]) == if r.None? then None else Prepend(r.value, DecodeBlocks(s[it + 4..]))
  {
    r := DecodeBlock(s[it..it + 4], 3);
    assert s[it..][..4] == s[it..it + 4] && s[it..][4..] == s[it + 4..];
  }

  method DecodeLast(s: string) returns (r: Option<seq<Byte>>)
    requires |s| == 4
    ensures r == DecodeBlocks(s)
  {
    if s[3] != '=' {
      r := DecodeBlock(s, 3);
    } else if s[2] != '=' {
      r := DecodeBlock(s, 2);
    } else {
      r := DecodeBlock(s, 1);
    }
  }

  // ----- round trips -----

  lemma DecodeEncodeGroup(d: Bytes, size: nat)
    requires 1 <= size <= 3 && (size < 2 ==> d.b == 0) && (size < 3 ==> d.c == 0)
    ensures DecodeBlock(EncodeGroup(d, size), size) == Some(Take(d, size))
    ensures LastSize(EncodeGroup(d, size)) == size
  {
    var t := ToSextets(d);
    TablesInverse(EncodeChar(t.w), t.w);
    TablesInverse(EncodeChar(t.x), t.x);
    TablesInverse(EncodeChar(t.y), t.y);
    TablesInverse(EncodeChar(t.z), t.z);
    BackToBytes(d);
  }

  lemma DecodeBlocksConcat(first: string, rest: string)
    requires |first| == 4 && |rest| % 4 == 0 && rest != "" && DecodeBlock(first, 3).Some?
    ensures DecodeBlocks(first + rest) == Prepend(DecodeBlock(first, 3).value, DecodeBlocks(rest))
  {
    assert (first + rest)[..4] == first && (first + rest)[4..] == rest;
  }

  /** Decoding what was encoded gives back every byte sequence. */
  lemma {:induction false} DecodeEncode(data: seq<Byte>)
    ensures Decode(Encode(data)) == Some(data)
  {
    if |data| == 1 {
      DecodeEncodeGroup(Bytes(data[0], 0, 0), 1);
      assert Take(Bytes(data[0], 0, 0), 1) == data;
    } else if |data| == 2 {
      DecodeEncodeGroup(Bytes(data[0], data[1], 0), 2);
      assert Take(Bytes(data[0], data[1], 0), 2) == data;
    } else if |data| >= 3 {
      DecodeEncode(data[3..]);
      var first := HeadGroup(data);
      DecodeAround(first, Encode(data[3..]), data[..3], data[3..]);
      assert data == data[..3] + data[3..];
    }
  }

  /** The first group of an encoding, which decodes to the first three bytes. */
  lemma HeadGroup(data: seq<Byte>) returns (first: string)
    requires |data| >= 3
    ensures |first| == 4 && Encode(data) == first + Encode(data[3..])
    ensures DecodeBlock(first, 3) == Some(data[..3]) && LastSize(first) == 3
  {
    var d := Bytes(data[0], data[1], data[2]);
    first := EncodeGroup(d, 3);
    DecodeEncodeGroup(d, 3);
    assert Take(d, 3) == data[..3];
  }

  lemma DecodeAround(first: string, rest: string, bytes: seq<Byte>, more: seq<Byte>)
    requires |first| == 4 && DecodeBlock(first, 3) == Some(bytes) && LastSize(first) == 3
    requires Decode(rest) == Some(more)
    ensures Decode(first + rest) == Some(bytes + more)
  {
    if rest == "" {
      assert first + rest == first && bytes + more == bytes;
    } else {
      DecodeBlocksConcat(first, rest);
    }
  }

  /** The bits of the last character that hold no data are zero (section 3.5 of RFC 4648). */
  predicate Canonical(s: string)
    requires |s| >= 4
  {
    var last := s[|s| - 4..];
    match LastSize(last)
    case 1 => DecodeChar(last[1]) % 16 == 0
    case 2 => DecodeChar(last[2]) % 4 == 0
    case _ => true
  }

  /** The bytes of an accepted block, unused ones zero. */
  function BlockBytes(s: string, size: nat): Bytes
    requires |s| == 4 && 1 <= size <= 3 && CharValues(s, size).Some?
  {
    var d := ToBytes(CharValues(s, size).value);
    Bytes(d.a, if size < 2 then 0 else d.b, if size < 3 then 0 else d.c)
  }

  /** Re-encoding clears exactly the unused bits. */
  lemma EncodeDecodeGroup(s: string, size: nat)
    requires |s| == 4 && 1 <= size <= 3 && CharValues(s, size).Some?
    requires size < 3 ==> s[3] == '='
    requires size < 2 ==> s[2] == '='
    ensures EncodeGroup(BlockBytes(s, size), size) == s
       <==> (size == 1 ==> DecodeChar(s[1]) % 16 == 0) && (size == 2 ==> DecodeChar(s[2]) % 4 == 0)
  {
    var v := CharValues(s, size).value;
    var t := ToSextets(BlockBytes(s, size));
    BackToSextets(v);
    TablesInverse(s[0], v.w);
    assert t.w == v.w;
    if size == 1 {
      TablesInverse(s[1], t.x);
      assert t.x == v.x - v.x % 16;
    } else {
      TablesInverse(s[1], v.x);
      assert t.x == v.x;
      TablesInverse(s[2], t.y);
      if size == 2 {
        assert t.y == v.y - v.y % 4;
      } else {
        TablesInverse(s[3], v.z);
      }
    }
  }

  lemma EncodeTake(d: Bytes, size: nat)
    requires 1 <= size <= 3 && (size < 2 ==> d.b == 0) && (size < 3 ==> d.c == 0)
    ensures Encode(Take(d, size)) == EncodeGroup(d, size)
  {
    if size == 3 {
      assert Take(d, 3)[3..] == [];
    }
  }

  lemma EncodeDecodeSingle(s: string)
    requires |s| == 4 && DecodeBlocks(s).Some?
    ensures Encode(DecodeBlocks(s).value) == s <==> Canonical(s)
  {
    var size := LastSize(s);
    assert s[|s| - 4..] == s;
    EncodeDecodeGroup(s, size);
    assert Take(BlockBytes(s, size), size) == DecodeBlock(s, size).value;
    EncodeTake(BlockBytes(s, size), size);
  }

  /** A full block in front re-encodes to itself. */
  lemma EncodeDecodeFirst(head: string, rest: seq<Byte>)
    requires |head| == 4 && DecodeBlock(head, 3).Some?
    ensures Encode(DecodeBlock(head, 3).value + rest) == head + Encode(rest)
  {
    EncodeDecodeGroup(head, 3);
    var first := DecodeBlock(head, 3).value;
    assert (first + rest)[3..] == rest;
    assert first == Take(BlockBytes(head, 3), 3);
  }

  lemma {:induction false} EncodeDecodeBlocks(s: string)
    requires |s| % 4 == 0 && s != "" && DecodeBlocks(s).Some?
    ensures Encode(DecodeBlocks(s).value) == s <==> Canonical(s)
  {
    if |s| == 4 {
      EncodeDecodeSingle(s);
    } else {
      var head, tail := s[..4], s[4..];
      var rest := DecodeBlocks(tail).value;
      EncodeDecodeFirst(head, rest);
      EncodeDecodeBlocks(tail);
      assert s == head + tail;
      assert s[|s| - 4..] == tail[|tail| - 4..];
      assert (head + Encode(rest))[4..] == Encode(rest);
    }
  }

  /** Encoding what was decoded gives back an accepted text exactly when it is canonical. */
  lemma EncodeDecode(s: string)
    requires Decode(s).Some?
    ensures Encode(Decode(s).value) == s <==> s == "" || Canonical(s)
  {
    if s != "" {
      EncodeDecodeBlocks(s);
    }
  }

  // ----- section 4 of RFC 4648, character by character -----

  /** Table 1 of RFC 4648: the ends of its four runs, and that each run goes on without a gap. */
  lemma TableIs(v: Sextet)
    ensures EncodeChar(0) == 'A' && EncodeChar(25) == 'Z' && EncodeChar(26) == 'a' && EncodeChar(51) == 'z'
    ensures EncodeChar(52) == '0' && EncodeChar(61) == '9' && EncodeChar(62) == '+' && EncodeChar(63) == '/'
    ensures v !in {25, 51, 61, 62, 63} ==> EncodeChar(v + 1) as int == EncodeChar(v) as int + 1
  {
  }

  /** A byte of the input; the missing bytes of the last group count as zero. */
  function ByteAt(data: seq<Byte>, i: nat): Byte { if i < |data| then data[i] else 0 }

  /** The twenty-four bits of a group as a number. */
  function GroupNumber(data: seq<Byte>, k: nat): nat {
    ByteAt(data, 3 * k) * 65536 + ByteAt(data, 3 * k + 1) * 256 + ByteAt(data, 3 * k + 2)
  }

  /** One of the four digits to the base 64 of a number of twenty-four bits. */
  function SextetOf(n: nat, j: nat): Sextet
    requires j < 4
  {
    (if j == 0 then n / 262144 else if j == 1 then n / 4096 else if j == 2 then n / 64 else n) % 64
  }

  lemma By64(n: int, q: int, r: int)
    requires n == 64 * q + r && 0 <= r < 64
    ensures n / 64 == q && n % 64 == r
  {
  }

  lemma By4096(n: int, q: int, r: int)
    requires n == 4096 * q + r && 0 <= r < 4096
    ensures n / 4096 == q
  {
  }

  lemma By262144(n: int, q: int, r: int)
    requires n == 262144 * q + r && 0 <= r < 262144
    ensures n / 262144 == q
  {
  }

  lemma SextetsAreDigits(d: Bytes)
    ensures
      var n, t := d.a * 65536 + d.b * 256 + d.c, ToSextets(d);
      SextetOf(n, 0) == t.w && SextetOf(n, 1) == t.x && SextetOf(n, 2) == t.y && SextetOf(n, 3) == t.z
  {
    var n := d.a * 65536 + d.b * 256 + d.c;
    By262144(n, d.a / 4, d.a % 4 * 65536 + d.b * 256 + d.c);
    By4096(n, d.a * 16 + d.b / 16, d.b % 16 * 256 + d.c);
    By64(n, d.a * 1024 + d.b * 4 + d.c / 64, d.c % 64);
    By64(d.a / 4, 0, d.a / 4);
    By64(d.a * 16 + d.b / 16, d.a / 4, d.a % 4 * 16 + d.b / 16);
    By64(d.a * 1024 + d.b * 4 + d.c / 64, d.a * 16 + d.b / 16, d.b % 16 * 4 + d.c / 64);
  }

  lemma GroupChar(d: Bytes, size: nat, j: nat)
    requires 1 <= size <= 3 && j < 4
    ensures EncodeGroup(d, size)[j] == if j > size then '=' else EncodeChar(SextetOf(d.a * 65536 + d.b * 256 + d.c, j))
  {
    SextetsAreDigits(d);
  }

  lemma NextGroup(data: seq<Byte>, k: nat)
    requires |data| >= 3
    ensures GroupNumber(data, k + 1) == GroupNumber(data[3..], k)
  {
  }

  lemma EncodeSplit(data: seq<Byte>)
    requires |data| >= 3
    ensures Encode(data) == EncodeGroup(Bytes(data[0], data[1], data[2]), 3) + Encode(data[3..])
  {
  }

  /** The bytes of the first group. */
  function FirstBytes(data: seq<Byte>): Bytes { Bytes(ByteAt(data, 0), ByteAt(data, 1), ByteAt(data, 2)) }

  lemma FirstGroup(data: seq<Byte>)
    requires 0 < |data|
    ensures |Encode(data)| >= 4
    ensures Encode(data)[..4] == EncodeGroup(FirstBytes(data), if |data| < 3 then |data| else 3)
  {
    if |data| >= 3 {
      EncodeSplit(data);
    }
  }

  lemma EncodedFirst(data: seq<Byte>, j: nat)
    requires 0 < |data| && j < 4
    ensures j < |Encode(data)|
    ensures Encode(data)[j] == CharOf(data, 0, j)
  {
    var size := if |data| < 3 then |data| else 3;
    FirstGroup(data);
    GroupChar(FirstBytes(data), size, j);
    assert Encode(data)[j] == Encode(data)[..4][j];
  }

  /** A digit of the group's bits, or padding where the group has no byte for it. */
  function CharOf(data: seq<Byte>, k: nat, j: nat): char
    requires j < 4
  {
    if 3 * k + j > |data| then '=' else EncodeChar(SextetOf(GroupNumber(data, k), j))
  }

  lemma NextChar(data: seq<Byte>, k: nat, j: nat)
    requires |data| >= 3 && j < 4
    ensures CharOf(data, k + 1, j) == CharOf(data[3..], k, j)
  {
    NextGroup(data, k);
  }

  lemma Behind(group: string, rest: string, i: nat)
    requires |group| == 4 && i < |rest|
    ensures (group + rest)[4 + i] == rest[i]
  {
  }

  /** Every character of the encoding: character `j` of group `k`. */
  lemma {:induction false} EncodedChar(data: seq<Byte>, k: nat, j: nat)
    requires 3 * k < |data| && j < 4
    ensures 4 * k + j < |Encode(data)|
    ensures Encode(data)[4 * k + j] == CharOf(data, k, j)
    decreases k
  {
    if k == 0 {
      EncodedFirst(data, j);
    } else {
      EncodedChar(data[3..], k - 1, j);
      NextChar(data, k - 1, j);
      EncodeSplit(data);
      Behind(EncodeGroup(Bytes(data[0], data[1], data[2]), 3), Encode(data[3..]), 4 * (k - 1) + j);
    }
  }

  // ----- which texts are decoded -----

  predicate InAlphabet(c: char) {
    'A' <= c <= 'Z' || 'a' <= c <= 'z' || '0' <= c <= '9' || c == '+' || c == '/'
  }

  /** How many of the last two characters are padding: two, or the last, or none. */
  function Pads(s: string): nat
    requires |s| >= 4
  {
    if s[|s| - 1] != '=' then 0 else if s[|s| - 2] != '=' then 1 else 2
  }

  predicate AllInAlphabet(s: string, n: int) {
    forall i :: 0 <= i < n && i < |s| ==> InAlphabet(s[i])
  }

  lemma LastBlockDecodes(s: string)
    requires |s| == 4
    ensures DecodeBlock(s, LastSize(s)).Some? <==> AllInAlphabet(s, 4 - Pads(s))
  {
    assert forall c :: DecodeChar(c) >= 0 <==> InAlphabet(c);
    assert AllInAlphabet(s, 2) <==> InAlphabet(s[0]) && InAlphabet(s[1]);
  }

  /** A text is decoded exactly if its length is a multiple of four and all of it but the padding is in the alphabet. */
  lemma {:induction false} DecodesWhen(s: string)
    ensures Decode(s).Some? <==> |s| % 4 == 0 && (s == "" || AllInAlphabet(s, |s| - Pads(s)))
  {
    if |s| % 4 == 0 && s != "" {
      if |s| == 4 {
        LastBlockDecodes(s);
      } else {
        DecodesWhen(s[4..]);
        assert Pads(s[4..]) == Pads(s);
        assert DecodeBlock(s[..4], 3).Some? <==> InAlphabet(s[0]) && InAlphabet(s[1]) && InAlphabet(s[2]) && InAlphabet(s[3]);
        AlphabetSplit(s, |s| - Pads(s));
      }
    }
  }

  lemma AlphabetSplit(s: string, n: int)
    requires 4 <= n <= |s|
    ensures AllInAlphabet(s, n) <==>
      InAlphabet(s[0]) && InAlphabet(s[1]) && InAlphabet(s[2]) && InAlphabet(s[3]) && AllInAlphabet(s[4..], n - 4)
  {
    if AllInAlphabet(s[4..], n - 4) {
      forall i | 4 <= i < n ensures InAlphabet(s[i]) {
        assert s[i] == s[4..][i - 4];
      }
    }
  }
}
