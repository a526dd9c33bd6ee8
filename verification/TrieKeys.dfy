/** The three key encodings of the trie: bytes, nibbles with terminator, and the
    compact form of Appendix C of the Ethereum Yellow Paper. */
module TrieKeys {
  import opened PatriciaTree

  predicate IsBytes(s: Bytes) {
    forall i :: 0 <= i < |s| ==> s[i] < 256
  }

  /** Nibbles, possibly closed by the terminator. */
  predicate IsHexKey(k: Key) {
    if HasTerm(k) then Terminated(k) else IsNibbles(k)
  }

  function Unpack(s: Bytes): (r: Key)
    ensures |r| == 2 * |s|
  {
    if s == [] then [] else [s[0] / 16, s[0] % 16] + Unpack(s[1..])
  }

  function Pack(k: Key): (r: Bytes)
    requires |k| % 2 == 0
    ensures |r| == |k| / 2
  {
    if k == [] then [] else [16 * k[0] + k[1]] + Pack(k[2..])
  }

  lemma {:induction false} UnpackPack(k: Key)
    requires |k| % 2 == 0 && IsNibbles(k)
    ensures Unpack(Pack(k)) == k && IsBytes(Pack(k))
    decreases |k|
  {
    if k != [] {
      UnpackPack(k[2..]);
      Nibbles(k[0], k[1]);
      assert Pack(k)[1..] == Pack(k[2..]);
      assert k == [k[0], k[1]] + k[2..];
    }
  }

  lemma Nibbles(a: nat, b: nat)
    requires a < 16 && b < 16
    ensures (16 * a + b) / 16 == a && (16 * a + b) % 16 == b && 16 * a + b < 256
  {
  }

  lemma {:induction false} PackUnpack(s: Bytes)
    requires IsBytes(s)
    ensures IsNibbles(Unpack(s)) && Pack(Unpack(s)) == s
    decreases |s|
  {
    hide Unpack, Pack;
    if s == [] {
      PackNone();
    } else {
      PackUnpack(s[1..]);
      var a, b := Halves(s[0]);
      UnpackFirst(s, a, b);
      PackFirst(Unpack(s), a, b, Unpack(s[1..]));
      assert s == [s[0]] + s[1..];
    }
  }

  lemma PackNone()
    ensures Unpack([]) == [] && Pack([]) == []
  {
  }

  lemma Halves(x: nat) returns (a: nat, b: nat)
    requires x < 256
    ensures a == x / 16 && b == x % 16 && a < 16 && b < 16 && x == 16 * a + b
  {
    a, b := x / 16, x % 16;
  }

  lemma UnpackFirst(s: Bytes, a: nat, b: nat)
    requires s != [] && a == s[0] / 16 && b == s[0] % 16
    ensures Unpack(s) == [a, b] + Unpack(s[1..])
  {
  }

  lemma PackFirst(j: Key, a: nat, b: nat, k: Key)
    requires |k| % 2 == 0 && j == [a, b] + k
    ensures |j| % 2 == 0 && Pack(j) == [16 * a + b] + Pack(k)
  {
    hide Pack;
    Even(|k|);
    assert j[2..] == k;
    PackStep(j);
  }

  lemma Even(n: nat)
    ensures (n + 2) % 2 == n % 2
  {
  }

  lemma PackStep(j: Key)
    requires |j| >= 2 && |j| % 2 == 0
    ensures Pack(j) == [16 * j[0] + j[1]] + Pack(j[2..])
  {
  }

  lemma {:induction false} PackSnoc(k: Key, a: nat, b: nat)
    requires |k| % 2 == 0
    ensures Pack(k + [a, b]) == Pack(k) + [16 * a + b]
    decreases |k|
  {
    if k == [] {
      assert [] + [a, b] == [a, b] && [a, b][2..] == [];
    } else {
      PackSnoc(k[2..], a, b);
      assert (k + [a, b])[2..] == k[2..] + [a, b];
    }
  }

  lemma {:induction false} UnpackSnoc(s: Bytes, x: nat)
    ensures Unpack(s + [x]) == Unpack(s) + [x / 16, x % 16]
    decreases |s|
  {
    if s == [] {
      assert [] + [x] == [x];
    } else {
      UnpackSnoc(s[1..], x);
      assert (s + [x])[1..] == s[1..] + [x];
    }
  }

  function KeybytesToHex(s: Bytes): (k: Key)
    ensures |k| == 2 * |s| + 1 && (IsBytes(s) ==> Terminated(k))
  {
    NibblesOfBytes(s);
    assert (Unpack(s) + [TERM])[..2 * |s|] == Unpack(s);
    Unpack(s) + [TERM]
  }

  lemma NibblesOfBytes(s: Bytes)
    ensures IsBytes(s) ==> IsNibbles(Unpack(s))
  {
    if IsBytes(s) {
      PackUnpack(s);
    }
  }

  function HexToKeybytes(k: Key): Bytes
    requires |if HasTerm(k) then k[..|k| - 1] else k| % 2 == 0
  {
    Pack(if HasTerm(k) then k[..|k| - 1] else k)
  }

  lemma KeybytesTerminated(s: Bytes)
    requires IsBytes(s)
    ensures Terminated(KeybytesToHex(s)) && HexToKeybytes(KeybytesToHex(s)) == s
  {
    PackUnpack(s);
    assert KeybytesToHex(s)[..2 * |s|] == Unpack(s);
  }

  /** The key without its terminator. */
  function Strip(hex: Key): Key {
    if HasTerm(hex) then hex[..|hex| - 1] else hex
  }

  /** Nibbles behind a flag nibble, which becomes odd with their number. */
  function PackFlagged(flag: nat, k: Key): (c: Bytes)
    ensures c != []
  {
    if |k| % 2 == 1 then [16 * (flag + 1) + k[0]] + Pack(k[1..]) else [16 * flag] + Pack(k)
  }

  function HexToCompact(hex: Key): Bytes {
    PackFlagged(if HasTerm(hex) then 2 else 0, Strip(hex))
  }

  /** Defined from one byte on: the compact form always has its flag byte. */
  function CompactToHex(c: Bytes): Key
    requires |c| > 0
  {
    var base := KeybytesToHex(c);
    var cut := if base[0] < 2 then base[..|base| - 1] else base;
    cut[2 - base[0] % 2..]
  }

  /** The flag nibble tells a terminated key by its second bit and an odd number of nibbles by its
      first; behind it and, if their number is even, an empty nibble, come the nibbles, two to a byte. */
  lemma CompactBytes(hex: Key)
    requires IsNibbles(Strip(hex))
    ensures var c, k := HexToCompact(hex), Strip(hex);
            && |c| == |k| / 2 + 1 && c[0] / 16 == (if HasTerm(hex) then 2 else 0) + |k| % 2
            && Unpack(c)[2 - |k| % 2..] == k && (|k| % 2 == 0 ==> c[0] % 16 == 0)
  {
    hide Pack, Unpack;
    var c, k := HexToCompact(hex), Strip(hex);
    var odd, flag := |k| % 2, if HasTerm(hex) then 2 else 0;
    var tail, low := k[odd..], if odd == 1 then k[0] else 0;
    UnpackPack(tail);
    assert c == [16 * (flag + odd) + low] + Pack(tail);
    Nibbles(flag + odd, low);
    UnpackFirst(c, flag + odd, low);
    assert c[1..] == Pack(tail);
    assert odd == 1 ==> k == [k[0]] + tail;
  }

  lemma CompactToHexParts(c: Bytes)
    requires c != []
    ensures CompactToHex(c) ==
            (if c[0] / 16 % 2 == 1 then [c[0] % 16] else []) + Unpack(c[1..]) + if c[0] / 16 < 2 then [] else [TERM]
  {
    hide Unpack;
    UnpackStep(c);
    var f, x, body := c[0] / 16, c[0] % 16, Unpack(c[1..]);
    var base := KeybytesToHex(c);
    assert base == [f, x] + body + [TERM];
    assert base[..|base| - 1] == [f, x] + body;
  }

  lemma UnpackStep(c: Bytes)
    requires c != []
    ensures Unpack(c) == [c[0] / 16, c[0] % 16] + Unpack(c[1..])
  {
  }

  lemma FlaggedParts(flag: nat, k: Key)
    requires IsNibbles(k) && flag < 3
    ensures var c := PackFlagged(flag, k);
            && c[0] / 16 == flag + |k| % 2
            && k == (if |k| % 2 == 1 then [c[0] % 16] else []) + Unpack(c[1..])
            && (|k| % 2 == 0 ==> c[0] % 16 == 0)
            && IsBytes(c)
  {
    hide Pack, Unpack;
    var c := PackFlagged(flag, k);
    var body := if |k| % 2 == 1 then k[1..] else k;
    UnpackPack(body);
    Nibbles(flag + |k| % 2, if |k| % 2 == 1 then k[0] else 0);
    assert c[1..] == Pack(body);
    assert c == [c[0]] + c[1..];
  }

  /** Decoding undoes encoding, on every nibble key with or without terminator. */
  lemma CompactRoundTrip(hex: Key)
    requires IsHexKey(hex)
    ensures HexToCompact(hex) != [] && CompactToHex(HexToCompact(hex)) == hex
    ensures IsCompact(HexToCompact(hex))
  {
    hide Unpack, PackFlagged, CompactToHex;
    FlaggedParts(if HasTerm(hex) then 2 else 0, Strip(hex));
    CompactToHexParts(HexToCompact(hex));
  }

  /** The compact strings: a flag below 4, and a zero padding nibble if the length is even. */
  predicate IsCompact(c: Bytes) {
    c != [] && IsBytes(c) && c[0] < 64 && (c[0] / 16 % 2 == 0 ==> c[0] % 16 == 0)
  }

  lemma StripParts(k: Key, terminated: bool)
    requires IsNibbles(k)
    ensures var hex := k + if terminated then [TERM] else [];
            HasTerm(hex) == terminated && Strip(hex) == k && IsHexKey(hex)
  {
    var hex := k + if terminated then [TERM] else [];
    assert terminated ==> hex[..|hex| - 1] == k;
  }

  lemma PackParts(flag: nat, x: nat, body: Bytes, odd: bool)
    requires IsBytes(body)
    ensures PackFlagged(flag, (if odd then [x] else []) + Unpack(body)) ==
            [if odd then 16 * (flag + 1) + x else 16 * flag] + body
  {
    hide Pack, Unpack;
    PackUnpack(body);
    var k := (if odd then [x] else []) + Unpack(body);
    assert odd ==> k[1..] == Unpack(body);
    assert !odd ==> k == Unpack(body);
  }

  /** Encoding undoes decoding, on every valid compact string. */
  lemma CompactCanonical(c: Bytes)
    requires IsCompact(c)
    ensures IsHexKey(CompactToHex(c)) && HexToCompact(CompactToHex(c)) == c
  {
    hide Unpack, PackFlagged, CompactToHex, Strip;
    var f, x, body := c[0] / 16, c[0] % 16, c[1..];
    var odd := f % 2 == 1;
    PackUnpack(body);
    CompactToHexParts(c);
    StripParts((if odd then [x] else []) + Unpack(body), f >= 2);
    PackParts(if f >= 2 then 2 else 0, x, body, odd);
    assert c == [c[0]] + body;
  }

  lemma KeybytesInjective(a: Bytes, b: Bytes)
    requires IsBytes(a) && IsBytes(b) && KeybytesToHex(a) == KeybytesToHex(b)
    ensures a == b
  {
    KeybytesTerminated(a);
    KeybytesTerminated(b);
  }

  // ----- the loops that fill the buffers

  method DecodeNibbles(nibbles: Key, buf: array<nat>, from: nat)
    requires |nibbles| % 2 == 0 && from + |nibbles| / 2 == buf.Length
    modifies buf
    ensures buf[..from] == old(buf[..from]) && buf[from..] == Pack(nibbles)
  {
    var bi, ni := from, 0;
    while ni < |nibbles|
      invariant 0 <= ni <= |nibbles| && ni % 2 == 0 && bi == from + ni / 2
      invariant buf[..from] == old(buf[..from]) && buf[from..bi] == Pack(nibbles[..ni])
    {
      PackSnoc(nibbles[..ni], nibbles[ni], nibbles[ni + 1]);
      assert nibbles[..ni + 2] == nibbles[..ni] + [nibbles[ni], nibbles[ni + 1]];
      buf[bi] := 16 * nibbles[ni] + nibbles[ni + 1];
      assert buf[from..bi + 1] == buf[from..bi] + [buf[bi]];
      bi, ni := bi + 1, ni + 2;
    }
    assert nibbles[..ni] == nibbles && buf[from..bi] == buf[from..];
  }

  method ComputeCompact(hex: Key) returns (buf: array<nat>)
    ensures fresh(buf) && buf[..] == HexToCompact(hex)
  {
    hide Pack;
    var k, flag := Strip(hex), if HasTerm(hex) then 32 else 0;
    buf := new nat[|k| / 2 + 1];
    buf[0] := flag;
    if |k| % 2 == 1 {
      buf[0] := flag + 16 + k[0];
      k := k[1..];
    }
    ghost var first := buf[0];
    DecodeNibbles(k, buf, 1);
    assert buf[..1] == [first];
    assert buf[..] == buf[..1] + buf[1..];
  }

  method ComputeHex(s: Bytes) returns (nibbles: array<nat>)
    ensures fresh(nibbles) && nibbles[..] == KeybytesToHex(s)
  {
    var l := 2 * |s| + 1;
    nibbles := new nat[l];
    for i := 0 to |s|
      invariant nibbles[..2 * i] == Unpack(s[..i])
    {
      UnpackSnoc(s[..i], s[i]);
      assert s[..i + 1] == s[..i] + [s[i]];
      nibbles[2 * i] := s[i] / 16;
      nibbles[2 * i + 1] := s[i] % 16;
      assert nibbles[..2 * (i + 1)] == nibbles[..2 * i] + [nibbles[2 * i], nibbles[2 * i + 1]];
    }
    assert s[..|s|] == s;
    nibbles[l - 1] := TERM;
    assert nibbles[..] == nibbles[..l - 1] + [nibbles[l - 1]];
  }

  method ComputePrefixLen(a: Key, b: Key) returns (i: nat)
    ensures i == PrefixLen(a, b)
  {
    var length := |a|;
    if |b| < length {
      length := |b|;
    }
    i := 0;
    while i < length
      invariant 0 <= i <= length && a[..i] == b[..i]
    {
      if a[i] != b[i] {
        break;
      }
      i := i + 1;
    }
    PrefixLenIs(a, b, i);
  }

  lemma {:induction false} PrefixLenIs(a: Key, b: Key, i: nat)
    requires i <= |a| && i <= |b| && a[..i] == b[..i] && (i < |a| && i < |b| ==> a[i] != b[i])
    ensures i == PrefixLen(a, b)
    decreases i
  {
    if i > 0 {
      assert a[0] == a[..i][0] == b[..i][0] == b[0];
      assert a[1..][..i - 1] == a[..i][1..] && b[1..][..i - 1] == b[..i][1..];
      PrefixLenIs(a[1..], b[1..], i - 1);
    }
  }
}
