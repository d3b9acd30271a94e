/** Fixed-width little-endian fields, and byte strings at positions of a block. */
module LittleEndian {
  import opened Tree

  function Pow256(n: nat): nat {
    if n == 0 then 1 else 256 * Pow256(n - 1)
  }

  function ToLE(v: nat, n: nat): (s: seq<Byte>)
    ensures |s| == n
    decreases n
  {
    if n == 0 then [] else [(v % 256) as Byte] + ToLE(v / 256, n - 1)
  }

  function FromLE(s: seq<Byte>): nat {
    if s == [] then 0 else s[0] as nat + 256 * FromLE(s[1..])
  }

  lemma Digits(low: nat, high: nat)
    requires low < 256
    ensures (low + 256 * high) % 256 == low && (low + 256 * high) / 256 == high
  {
  }

  lemma {:induction false} RoundTrip(v: nat, n: nat)
    requires v < Pow256(n)
    ensures FromLE(ToLE(v, n)) == v
    decreases n
  {
    if n > 0 {
      RoundTrip(v / 256, n - 1);
      assert ToLE(v, n)[1..] == ToLE(v / 256, n - 1);
    }
  }

  /** The other direction: every byte string is the encoding of its value. */
  lemma {:induction false} RoundTripBytes(s: seq<Byte>)
    ensures FromLE(s) < Pow256(|s|) && ToLE(FromLE(s), |s|) == s
  {
    if s != [] {
      RoundTripBytes(s[1..]);
      var low, high := s[0] as nat, FromLE(s[1..]);
      Digits(low, high);
    }
  }

  lemma Widths()
    ensures Pow256(1) == 0x100 && Pow256(4) == 0x1_0000_0000 && Pow256(8) == 0x1_0000_0000_0000_0000
  {
    assert Pow256(2) == 0x1_0000;
    assert Pow256(3) == 0x100_0000;
    assert Pow256(4) == 0x1_0000_0000;
    assert Pow256(5) == 0x100_0000_0000;
    assert Pow256(6) == 0x1_0000_0000_0000;
    assert Pow256(7) == 0x100_0000_0000_0000;
  }

  /** The number in four or in eight bytes, lowest byte first. */
  lemma FourBytes(s: seq<Byte>)
    requires |s| == 4
    ensures FromLE(s) == s[0] as nat + 0x100 * s[1] as nat + 0x1_0000 * s[2] as nat + 0x100_0000 * s[3] as nat
  {
    assert FromLE(s[3..]) == s[3] as nat;
    assert s[2..][1..] == s[3..];
    assert FromLE(s[2..]) == s[2] as nat + 0x100 * s[3] as nat;
    assert s[1..][1..] == s[2..];
    assert FromLE(s[1..]) == s[1] as nat + 0x100 * s[2] as nat + 0x1_0000 * s[3] as nat;
  }

  lemma EightBytes(s: seq<Byte>)
    requires |s| == 8
    ensures FromLE(s) == s[0] as nat + 0x100 * s[1] as nat + 0x1_0000 * s[2] as nat + 0x100_0000 * s[3] as nat
                       + 0x1_0000_0000 * s[4] as nat + 0x100_0000_0000 * s[5] as nat
                       + 0x1_0000_0000_0000 * s[6] as nat + 0x100_0000_0000_0000 * s[7] as nat
  {
    var high := s[4..];
    FourBytes(high);
    assert s[3..][1..] == high;
    assert FromLE(s[3..]) == s[3] as nat + 0x100 * FromLE(high);
    assert s[2..][1..] == s[3..];
    assert FromLE(s[2..]) == s[2] as nat + 0x100 * FromLE(s[3..]);
    assert s[1..][1..] == s[2..];
    assert FromLE(s[1..]) == s[1] as nat + 0x100 * FromLE(s[2..]);
  }

  lemma OneByte(s: seq<Byte>)
    requires |s| == 1
    ensures FromLE(s) == s[0] as nat
  {
    assert s[1..] == [];
  }

  // ----- positions -----

  /** The bytes of s from p on are u. */
  predicate At(s: seq<Byte>, p: int, u: seq<Byte>) {
    0 <= p && p + |u| <= |s| && forall i :: 0 <= i < |u| ==> s[p + i] == u[i]
  }

  lemma AtIsSlice(s: seq<Byte>, p: nat, u: seq<Byte>)
    ensures At(s, p, u) <==> p + |u| <= |s| && s[p..p + |u|] == u
  {
    if p + |u| <= |s| && s[p..p + |u|] == u {
      forall i | 0 <= i < |u| ensures s[p + i] == u[i] {
        assert s[p..p + |u|][i] == u[i];
      }
    }
  }

  /** t is s with len bytes of x, from position from, copied to position to. */
  predicate Copied(x: seq<Byte>, from: int, s: seq<Byte>, t: seq<Byte>, to: int, len: int) {
    && |t| == |s|
    && 0 <= len && 0 <= from && from + len <= |x| && 0 <= to && to + len <= |s|
    && forall p :: 0 <= p < |t| ==> t[p] == if to <= p < to + len then x[from + (p - to)] else s[p]
  }

  lemma Kept(x: seq<Byte>, from: int, s: seq<Byte>, t: seq<Byte>, to: int, len: int, p: int, u: seq<Byte>)
    requires Copied(x, from, s, t, to, len) && At(s, p, u)
    requires p + |u| <= to || to + len <= p
    ensures At(t, p, u)
  {
  }

  lemma Landed(x: seq<Byte>, from: int, s: seq<Byte>, t: seq<Byte>, to: int, len: int, p: int, u: seq<Byte>)
    requires Copied(x, from, s, t, to, len) && At(x, p, u)
    requires from <= p && p + |u| <= from + len
    ensures At(t, to + (p - from), u)
  {
    forall i | 0 <= i < |u| ensures t[to + (p - from) + i] == u[i] {
      assert x[p + i] == u[i];
    }
  }

  lemma CopiedLength(x: seq<Byte>, from: int, s: seq<Byte>, t: seq<Byte>, to: int, len: int)
    requires Copied(x, from, s, t, to, len)
    ensures |t| == |s|
  {
  }

  lemma CopiedNothing(s: seq<Byte>, p: nat, q: nat)
    requires p <= |s| && q <= |s|
    ensures Copied(s, p, s, s, q, 0)
  {
  }

  /** Two neighbouring changes are one change. */
  lemma ChangesJoin(s: seq<Byte>, t: seq<Byte>, u: seq<Byte>, p: nat, q: nat, r: nat)
    requires p <= q <= r && Copied(t, p, s, t, p, q - p) && Copied(u, q, t, u, q, r - q)
    ensures Copied(u, p, s, u, p, r - p)
  {
  }

  lemma WriteIsChange(x: seq<Byte>, from: int, s: seq<Byte>, t: seq<Byte>, to: int, len: int)
    requires Copied(x, from, s, t, to, len)
    ensures Copied(t, to, s, t, to, len)
  {
  }

  lemma AtWhole(u: seq<Byte>)
    ensures At(u, 0, u)
  {
  }

  lemma ChangeWithin(x: seq<Byte>, from: int, s: seq<Byte>, t: seq<Byte>, to: int, len: int, lo: nat, hi: nat)
    requires Copied(x, from, s, t, to, len) && lo <= to && to + len <= hi <= |s|
    ensures Copied(t, lo, s, t, lo, hi - lo)
  {
  }

  lemma AtPart(s: seq<Byte>, p: int, u: seq<Byte>, lo: nat, hi: nat)
    requires At(s, p, u) && lo <= hi <= |u|
    ensures At(s, p + lo, u[lo..hi])
  {
  }

  lemma AtJoin(s: seq<Byte>, p: int, u: seq<Byte>, v: seq<Byte>)
    requires At(s, p, u) && At(s, p + |u|, v)
    ensures At(s, p, u + v)
  {
    forall i | 0 <= i < |u + v| ensures s[p + i] == (u + v)[i] {
      if i >= |u| {
        assert s[p + |u| + (i - |u|)] == v[i - |u|];
      }
    }
  }

  lemma ChangedTwice(s: seq<Byte>, t: seq<Byte>, u: seq<Byte>, p: int, len: int)
    requires Copied(t, p, s, t, p, len) && Copied(u, p, t, u, p, len)
    ensures Copied(u, p, s, u, p, len)
  {
  }
}
