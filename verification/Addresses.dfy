/** Group addresses as numbers: what counts as multicast, and what the kernel gives back. */
module Addresses {
  import opened Kernel
  import opened ApplySpec

  /** The number that the bytes stand for, the first being the highest. */
  function Value(b: seq<byte>): nat {
    if b == [] then 0 else Value(b[..|b| - 1]) * 0x100 + b[|b| - 1] as nat
  }

  /** 224.0.0.0/4, by itself or mapped into IPv6 (section 2.5.5.2 of RFC 4291), or ff00::/8. */
  predicate InMulticastRange(b: seq<byte>) {
    || (|b| == 4 && 0xE000_0000 <= Value(b) < 0xF000_0000)
    || (|b| == 16 && 0xFFFF_E000_0000 <= Value(b) < 0xFFFF_F000_0000)
    || (|b| == 16 && 0xFF00_0000_0000_0000_0000_0000_0000_0000 <= Value(b))
  }

  lemma {:induction false} ValueAppend(a: seq<byte>, b: seq<byte>)
    ensures Value(a + b) == Value(a) * Places(|b|) + Value(b)
  {
    if b == [] {
      assert a + b == a;
    } else {
      var c := b[..|b| - 1];
      assert (a + b)[..|a + b| - 1] == a + c;
      ValueAppend(a, c);
      assert Value(a) * Places(|c|) * 0x100 == Value(a) * (Places(|c|) * 0x100);
    }
  }

  function Places(n: nat): nat {
    if n == 0 then 1 else Places(n - 1) * 0x100
  }

  lemma {:induction false} ValueBound(b: seq<byte>)
    ensures Value(b) < Places(|b|)
    ensures Value(b) == 0 <==> forall i :: 0 <= i < |b| ==> b[i] == 0
  {
    if b != [] { ValueBound(b[..|b| - 1]); }
  }

  lemma PlacesAre()
    ensures Places(2) == 0x1_0000 && Places(3) == 0x100_0000 && Places(4) == 0x1_0000_0000
    ensures Places(12) == 0x1_0000_0000_0000_0000_0000_0000
    ensures Places(15) == 0x1_0000_0000_0000_0000_0000_0000_0000_00
  {
    assert Places(6) == 0x1_0000_0000_0000;
    assert Places(9) == 0x1_0000_0000_0000_0000_00;
  }

  /** The highest byte decides for the top of the range. */
  lemma TopByte(b: seq<byte>)
    requires b != []
    ensures Value(b) == b[0] as nat * Places(|b| - 1) + Value(b[1..]) && Value(b[1..]) < Places(|b| - 1)
  {
    assert b == b[..1] + b[1..] && b[..1] == [b[0]] && b[..1][..0] == [];
    ValueAppend(b[..1], b[1..]);
    ValueBound(b[1..]);
  }

  lemma FourBytes(b: seq<byte>)
    requires |b| == 4
    ensures Value(b) < 0x1_0000_0000
    ensures 224 <= b[0] < 240 <==> 0xE000_0000 <= Value(b) < 0xF000_0000
  {
    PlacesAre();
    TopByte(b);
    ValueBound(b);
  }

  lemma TwoBytes(x: byte, y: byte)
    ensures Value([x, y]) == x as nat * 0x100 + y as nat
  {
    OneByte(x);
    assert [x, y][..1] == [x] && [x, y][1] == y;
  }

  lemma OneByte(x: byte)
    ensures Value([x]) == x as nat
  {
    assert [x][..0] == [];
    assert Value([x]) == Value([x][..0]) * 0x100 + x as nat;
  }

  /** An address is IPv4-mapped exactly if its upper twelve bytes are the number 0xffff. */
  lemma MappedIff(b: seq<byte>)
    requires |b| == 16
    ensures Is4In6(b) <==> Value(b[..12]) == 0xFFFF
    ensures Value(b) == Value(b[..12]) * 0x1_0000_0000 + Value(b[12..])
  {
    PlacesAre();
    var up, z := b[..12], b[..10];
    assert b == up + b[12..] && up == z + b[10..12];
    ValueAppend(up, b[12..]);
    ValueAppend(z, b[10..12]);
    assert b[10..12] == [b[10], b[11]];
    TwoBytes(b[10], b[11]);
    ValueBound(z);
    if Is4In6(b) { assert forall i :: 0 <= i < 10 ==> z[i] == 0; }
  }

  /** Multicast, by its bytes, is the range that the standards give. */
  lemma MulticastIff(a: Addr)
    requires |a.bytes| == 4 || |a.bytes| == 16
    ensures IsMulticast(a) <==> InMulticastRange(a.bytes)
  {
    var b := a.bytes;
    if |b| == 4 {
      FourBytes(b);
    } else {
      PlacesAre();
      MappedIff(b);
      FourBytes(b[12..]);
      TopByte(b);
      if Is4In6(b) { assert b[..10][0] == 0; }
      hide Value, Places;
    }
  }

  /** What the kernel gives back of a mapped address is its number in IPv4; any other address is as it was. */
  lemma ReadBackValue(b: seq<byte>)
    requires |b| == 4 || |b| == 16
    ensures |b| == 16 && Value(b[..12]) == 0xFFFF ==>
              |ReadBack(b)| == 4 && Value(b) == 0xFFFF_0000_0000 + Value(ReadBack(b))
    ensures !(|b| == 16 && Value(b[..12]) == 0xFFFF) ==> ReadBack(b) == b
  {
    if |b| == 16 { MappedIff(b); }
  }
}
