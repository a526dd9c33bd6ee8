/** The wire format of consensus events. */
module EventCodec {
  import opened Options

  type Bytes = seq<nat>

  const HASH_LEN: nat := 32
  const EMPTY_LEN: nat := 29

  datatype Body = Body(h: nat, n: nat, t: int, txs: seq<Bytes>, parents: seq<Bytes>, pulse: bool)
  datatype Message = Message(body: Body, algorithm: nat, signature: Bytes)

  // ----- big-endian numbers

  function Pow(w: nat): (r: nat)
    ensures r > 0
  {
    if w == 0 then 1 else 256 * Pow(w - 1)
  }

  /** `n` in `w` bytes, higher bytes lost. */
  function Put(n: nat, w: nat): (r: Bytes)
    ensures |r| == w
  {
    if w == 0 then [] else Put(n / 256, w - 1) + [n % 256]
  }

  function Get(b: Bytes): nat {
    if b == [] then 0 else 256 * Get(b[..|b| - 1]) + b[|b| - 1]
  }

  /** The highest byte comes first: byte `i` has the weight of the bytes after it. */
  lemma {:induction false} PutAt(n: nat, w: nat, i: nat)
    requires i < w
    ensures Put(n, w)[i] == n / Pow(w - 1 - i) % 256
    decreases w
  {
    if i < w - 1 {
      PutAt(n / 256, w - 1, i);
      DivDiv(n, Pow(w - 2 - i));
    }
  }

  lemma DivDiv(n: nat, m: nat)
    requires m > 0
    ensures n / 256 / m == n / (256 * m)
  {
    ModStep(n, m);
    var q, r := n / 256 / m, n / 256 % m;
    assert n / 256 == q * m + r;
    assert n == (256 * m) * q + (256 * r + n % 256);
    assert n == (256 * m) * (n / (256 * m)) + n % (256 * m);
    SameQuotient(256 * m, q, n / (256 * m));
  }

  lemma SameQuotient(m: nat, q: nat, k: nat)
    requires m > 0 && m * q == m * k
    ensures q == k
  {
  }

  /** Reading back gives the number modulo the width. */
  lemma {:induction false} GetPut(n: nat, w: nat)
    ensures Get(Put(n, w)) == n % Pow(w)
    decreases w
  {
    if w > 0 {
      GetPut(n / 256, w - 1);
      assert Put(n, w)[..w - 1] == Put(n / 256, w - 1);
      ModStep(n, Pow(w - 1));
    }
  }

  lemma ModStep(n: nat, m: nat)
    requires m > 0
    ensures 256 * ((n / 256) % m) + n % 256 == n % (256 * m)
  {
    var q, r := n / 256 / m, (n / 256) % m;
    assert n / 256 == q * m + r;
    assert n == 256 * (q * m + r) + n % 256;
    assert n == q * (256 * m) + (256 * r + n % 256);
    assert 256 * r + n % 256 < 256 * m;
    ModUnique(n, 256 * m, q, 256 * r + n % 256);
  }

  lemma ModUnique(n: nat, m: nat, q: nat, r: nat)
    requires n == q * m + r && r < m
    ensures n % m == r
  {
    var k := n / m - q;
    assert n == (n / m) * m + n % m;
    assert k * m == r - n % m;
    NoMultiple(k, m);
  }

  lemma NoMultiple(k: int, m: nat)
    requires m > 0
    ensures (k >= 1 ==> k * m >= m) && (k <= -1 ==> k * m + m <= 0)
  {
  }

  // ----- what an event may hold

  ghost predicate IsBytes(b: Bytes) {
    forall i :: 0 <= i < |b| ==> b[i] < 256
  }

  ghost predicate IsHash(b: Bytes) {
    |b| == HASH_LEN && IsBytes(b)
  }

  /** 64-bit fields and 32-byte hashes. */
  ghost predicate Typed(eb: Body) {
    && eb.h < Pow(8) && eb.n < Pow(8) && 0 <= 2 * eb.t + Pow(8) < 2 * Pow(8)
    && (forall x <- eb.txs :: IsHash(x)) && (forall x <- eb.parents :: IsHash(x))
  }

  function Unsigned(t: int): int {
    if t < 0 then t + Pow(8) else t
  }

  function Signed(u: nat): int {
    if 2 * u < Pow(8) then u else u - Pow(8)
  }

  function Concat(xs: seq<Bytes>): Bytes {
    if xs == [] then [] else Concat(xs[..|xs| - 1]) + xs[|xs| - 1]
  }

  lemma {:induction false} ConcatLen(xs: seq<Bytes>)
    requires forall x <- xs :: IsHash(x)
    ensures |Concat(xs)| == HASH_LEN * |xs|
    decreases |xs|
  {
    if xs != [] {
      ConcatLen(xs[..|xs| - 1]);
      assert xs[|xs| - 1] in xs;
    }
  }

  /** The bytes of an event body; lengths are written in 16 bits. */
  function Wire(eb: Body): Bytes
    requires Unsigned(eb.t) >= 0
  {
    Put(eb.h, 8) + Put(eb.n, 8) + Put(Unsigned(eb.t), 8)
    + Put(|eb.txs|, 2) + Concat(eb.txs) + Put(|eb.parents|, 2) + Concat(eb.parents) + [if eb.pulse then 1 else 0]
  }

  function MarshalLength(eb: Body): nat {
    EMPTY_LEN + HASH_LEN * |eb.txs| + HASH_LEN * |eb.parents|
  }

  /** Writes `data` at `p`. */
  method Copy(buf: array<nat>, p: nat, data: Bytes)
    requires p + |data| <= buf.Length
    modifies buf
    ensures buf[..p + |data|] == old(buf[..p]) + data
  {
    forall k | 0 <= k < |data| {
      buf[p + k] := data[k];
    }
  }

  method CopyAll(buf: array<nat>, start: nat, xs: seq<Bytes>) returns (p: nat)
    requires (forall x <- xs :: IsHash(x)) && start + HASH_LEN * |xs| <= buf.Length
    modifies buf
    ensures p == start + HASH_LEN * |xs| && buf[..p] == old(buf[..start]) + Concat(xs)
  {
    p := start;
    assert xs[..0] == [];
    for i := 0 to |xs|
      invariant p == start + HASH_LEN * i && p <= buf.Length
      invariant buf[..p] == old(buf[..start]) + Concat(xs[..i])
    {
      assert xs[..i + 1][..i] == xs[..i] && xs[i] in xs;
      Copy(buf, p, xs[i]);
      p := p + HASH_LEN;
    }
    assert xs[..|xs|] == xs;
  }

  /** Fills a buffer of the right length with the bytes of an event body. */
  method MarshalTo(eb: Body, buf: array<nat>) returns (ok: bool)
    requires Typed(eb)
    modifies buf
    ensures ok <==> buf.Length == MarshalLength(eb)
    ensures ok ==> buf[..] == Wire(eb)
    ensures !ok ==> buf[..] == old(buf[..])
  {
    if MarshalLength(eb) != buf.Length {
      return false;
    }
    hide Put, Concat, Pow;
    Copy(buf, 0, Put(eb.h, 8));
    assert buf[..8] == Put(eb.h, 8);
    Copy(buf, 8, Put(eb.n, 8));
    Copy(buf, 16, Put(Unsigned(eb.t), 8));
    Copy(buf, 24, Put(|eb.txs|, 2));
    MarshalLists(eb, buf);
    return true;
  }

  method MarshalLists(eb: Body, buf: array<nat>)
    requires Typed(eb) && buf.Length == MarshalLength(eb)
    modifies buf
    ensures buf[..] == old(buf[..26]) + Concat(eb.txs) + Put(|eb.parents|, 2) + Concat(eb.parents) + [if eb.pulse then 1 else 0]
  {
    hide Put, Concat, Pow;
    var p := CopyAll(buf, 26, eb.txs);
    Copy(buf, p, Put(|eb.parents|, 2));
    p := p + 2;
    p := CopyAll(buf, p, eb.parents);
    Copy(buf, p, [if eb.pulse then 1 else 0]);
    assert buf[..] == buf[..p + 1];
  }

  // ----- reading

  /** `k` hashes from position `p` on. */
  function Hashes(data: Bytes, p: nat, k: nat): (r: seq<Bytes>)
    requires p + HASH_LEN * k <= |data|
    ensures |r| == k && forall i :: 0 <= i < k ==> r[i] == data[p + HASH_LEN * i..p + HASH_LEN * i + HASH_LEN]
  {
    if k == 0 then [] else Hashes(data, p, k - 1) + [data[p + HASH_LEN * (k - 1)..p + HASH_LEN * k]]
  }

  /** What a buffer stands for; bytes past the end are ignored. */
  function Parse(data: Bytes): Option<Body> {
    if |data| < EMPTY_LEN then None
    else
      var tl := Get(data[24..26]) as int;
      if |data| < EMPTY_LEN + HASH_LEN * tl then None
      else
        var p := 26 + HASH_LEN * tl;
        var el := Get(data[p..p + 2]) as int;
        if |data| < EMPTY_LEN + HASH_LEN * tl + HASH_LEN * el then None
        else
          var q := p + 2 + HASH_LEN * el;
          Some(Body(Get(data[0..8]), Get(data[8..16]), Signed(Get(data[16..24])),
                    Hashes(data, 26, tl), Hashes(data, p + 2, el), data[q] == 1))
  }

  method ReadHashes(data: Bytes, start: nat, k: nat) returns (r: seq<Bytes>, p: nat)
    requires start + HASH_LEN * k <= |data|
    ensures r == Hashes(data, start, k) && p == start + HASH_LEN * k
  {
    r, p := [], start;
    for i := 0 to k
      invariant p == start + HASH_LEN * i && r == Hashes(data, start, i)
    {
      r := r + [data[p..p + HASH_LEN]];
      p := p + HASH_LEN;
    }
  }

  method Unmarshal(data: Bytes) returns (r: Option<Body>)
    ensures r == Parse(data)
  {
    if |data| < EMPTY_LEN {
      return None;
    }
    var h, n, t := Get(data[0..8]), Get(data[8..16]), Signed(Get(data[16..24]));
    var tl := Get(data[24..26]);
    if |data| < EMPTY_LEN + HASH_LEN * tl {
      return None;
    }
    var txs, p := ReadHashes(data, 26, tl);
    var el := Get(data[p..p + 2]);
    p := p + 2;
    if |data| < EMPTY_LEN + HASH_LEN * tl + HASH_LEN * el {
      return None;
    }
    var parents;
    parents, p := ReadHashes(data, p, el);
    return Some(Body(h, n, t, txs, parents, data[p] == 1));
  }

  // ----- reading undoes writing

  lemma {:induction false} PutBytes(n: nat, w: nat)
    ensures IsBytes(Put(n, w))
    decreases w
  {
    if w > 0 {
      PutBytes(n / 256, w - 1);
    }
  }

  lemma {:induction false} GetBound(b: Bytes)
    requires IsBytes(b)
    ensures Get(b) < Pow(|b|)
    decreases |b|
  {
    if b != [] {
      GetBound(b[..|b| - 1]);
    }
  }

  /** Every byte string is the form of the number read from it. */
  lemma {:induction false} PutGet(b: Bytes)
    requires IsBytes(b)
    ensures Put(Get(b), |b|) == b
    decreases |b|
  {
    if b != [] {
      PutGet(b[..|b| - 1]);
      assert Get(b) / 256 == Get(b[..|b| - 1]) && Get(b) % 256 == b[|b| - 1];
    }
  }

  lemma {:induction false} ConcatBytes(xs: seq<Bytes>)
    requires forall x <- xs :: IsHash(x)
    ensures IsBytes(Concat(xs))
    decreases |xs|
  {
    if xs != [] {
      ConcatBytes(xs[..|xs| - 1]);
      assert xs[|xs| - 1] in xs;
    }
  }

  lemma Powers()
    ensures Pow(2) == 0x1_0000 && Pow(4) == 0x1_0000_0000 && Pow(8) == 0x1_0000_0000_0000_0000
  {
    assert Pow(1) == 256;
    assert Pow(3) == 256 * Pow(2);
    assert Pow(5) == 256 * Pow(4);
    assert Pow(6) == 256 * Pow(5);
    assert Pow(7) == 256 * Pow(6);
  }

  /** Hashes laid out one after the other are read back. */
  lemma {:induction false} HashesConcat(data: Bytes, p: nat, xs: seq<Bytes>)
    requires forall x <- xs :: IsHash(x)
    requires p + HASH_LEN * |xs| <= |data| && data[p..p + HASH_LEN * |xs|] == Concat(xs)
    ensures Hashes(data, p, |xs|) == xs
    decreases |xs|
  {
    if xs != [] {
      var init, k := xs[..|xs| - 1], |xs| - 1;
      ConcatLen(init);
      var c := Concat(xs);
      assert data[p..p + HASH_LEN * k] == c[..HASH_LEN * k] == Concat(init);
      assert data[p + HASH_LEN * k..p + HASH_LEN * |xs|] == c[HASH_LEN * k..] == xs[k];
      HashesConcat(data, p, init);
    }
  }

  /** Where the parts of an event's bytes are. */
  lemma WireParts(eb: Body)
    requires Typed(eb)
    ensures var w, p := Wire(eb), 26 + HASH_LEN * |eb.txs|; var q := p + 2 + HASH_LEN * |eb.parents|;
            && |w| == MarshalLength(eb) == q + 1
            && w[0..8] == Put(eb.h, 8) && w[8..16] == Put(eb.n, 8) && w[16..24] == Put(Unsigned(eb.t), 8)
            && w[24..26] == Put(|eb.txs|, 2) && w[26..p] == Concat(eb.txs)
            && w[p..p + 2] == Put(|eb.parents|, 2) && w[p + 2..q] == Concat(eb.parents)
            && w[q] == if eb.pulse then 1 else 0
  {
    hide Put, Concat, Pow;
    ConcatLen(eb.txs);
    ConcatLen(eb.parents);
    var a := Put(eb.h, 8) + Put(eb.n, 8) + Put(Unsigned(eb.t), 8) + Put(|eb.txs|, 2);
    assert a[0..8] == Put(eb.h, 8) && a[8..16] == Put(eb.n, 8) && a[16..24] == Put(Unsigned(eb.t), 8)
        && a[24..26] == Put(|eb.txs|, 2);
    var w, p := Wire(eb), 26 + HASH_LEN * |eb.txs|;
    assert w == a + Concat(eb.txs) + Put(|eb.parents|, 2) + Concat(eb.parents) + [if eb.pulse then 1 else 0];
    assert w[..26] == a && w[0..8] == a[0..8] && w[8..16] == a[8..16] && w[16..24] == a[16..24] && w[24..26] == a[24..26];
  }

  lemma SignedUnsigned(t: int)
    requires 0 <= 2 * t + Pow(8) < 2 * Pow(8)
    ensures 0 <= Unsigned(t) < Pow(8) && Signed(Unsigned(t)) == t
  {
    Powers();
  }

  /** An event body is read back when its lists fit their 16-bit lengths. */
  lemma ParseWire(eb: Body)
    requires Typed(eb) && |eb.txs| < 0x1_0000 && |eb.parents| < 0x1_0000
    ensures Parse(Wire(eb)) == Some(eb)
  {
    hide Put, Concat, Pow, Get, Hashes, Wire, Signed, Unsigned;
    WireParts(eb);
    Powers();
    SignedUnsigned(eb.t);
    GetPut(eb.h, 8);
    GetPut(eb.n, 8);
    GetPut(Unsigned(eb.t), 8);
    GetPut(|eb.txs|, 2);
    GetPut(|eb.parents|, 2);
    HashesConcat(Wire(eb), 26, eb.txs);
    HashesConcat(Wire(eb), 26 + HASH_LEN * |eb.txs| + 2, eb.parents);
  }

  lemma SliceBytes(data: Bytes, i: nat, j: nat)
    requires IsBytes(data) && i <= j <= |data|
    ensures IsBytes(data[i..j])
  {
  }

  lemma ParseLimits(data: Bytes)
    requires IsBytes(data) && Parse(data).Some?
    ensures |Parse(data).value.txs| < 0x1_0000 && |Parse(data).value.parents| < 0x1_0000
  {
    hide Get, Pow, Hashes, IsBytes;
    Powers();
    SliceBytes(data, 24, 26);
    GetBound(data[24..26]);
    var p := 26 + HASH_LEN * Get(data[24..26]);
    SliceBytes(data, p, p + 2);
    GetBound(data[p..p + 2]);
  }

  lemma WireBytes(eb: Body)
    requires Typed(eb)
    ensures IsBytes(Wire(eb))
  {
    hide Put, Concat, Pow;
    PutBytes(eb.h, 8);
    PutBytes(eb.n, 8);
    PutBytes(Unsigned(eb.t), 8);
    PutBytes(|eb.txs|, 2);
    PutBytes(|eb.parents|, 2);
    ConcatBytes(eb.txs);
    ConcatBytes(eb.parents);
  }

  /** Exactly the bodies with at most 65535 transactions and parents survive the wire. */
  lemma BodyRoundTrip(eb: Body)
    requires Typed(eb)
    ensures Parse(Wire(eb)) == Some(eb) <==> |eb.txs| < 0x1_0000 && |eb.parents| < 0x1_0000
  {
    hide Parse, Wire;
    if |eb.txs| < 0x1_0000 && |eb.parents| < 0x1_0000 {
      ParseWire(eb);
    }
    WireBytes(eb);
    if Parse(Wire(eb)) == Some(eb) {
      ParseLimits(Wire(eb));
    }
  }

  /** A body with 65536 transactions is written as one with none. */
  lemma TooMany(x: Bytes)
    requires IsHash(x)
    ensures var eb := Body(0, 0, 0, seq(0x1_0000, _ => x), [], false); Typed(eb) && Parse(Wire(eb)) != Some(eb)
  {
    hide Parse, Wire, IsHash, Pow;
    BodyRoundTrip(Body(0, 0, 0, seq(0x1_0000, _ => x), [], false));
  }

  /** Different bodies within the limits have different bytes. */
  lemma WireInjective(a: Body, b: Body)
    requires Typed(a) && |a.txs| < 0x1_0000 && |a.parents| < 0x1_0000
    requires Typed(b) && |b.txs| < 0x1_0000 && |b.parents| < 0x1_0000
    requires Wire(a) == Wire(b)
    ensures a == b
  {
    hide Parse, Wire, Typed;
    ParseWire(a);
    ParseWire(b);
  }

  // ----- signed messages

  /** A body that cannot be read is left incomplete without an error; a signature of
      length zero stops the program. */
  datatype Outcome = Ok(body: Option<Body>, algorithm: nat, signature: Bytes) | Short | Stop

  function MessageWire(m: Message): Bytes
    requires Unsigned(m.body.t) >= 0
  {
    Put(MarshalLength(m.body), 4) + Wire(m.body) + Put(1 + |m.signature|, 4) + [m.algorithm] + m.signature
  }

  function ParseMessage(data: Bytes): Outcome {
    if |data| < 4 then Short
    else
      var bl := Get(data[0..4]) as int;
      if |data| < 4 + bl then Short
      else if |data| < 4 + bl + 4 then Short
      else
        var p := 4 + bl;
        var sl := Get(data[p..p + 4]) as int;
        if |data| < p + 4 + sl then Short
        else if sl == 0 then Stop
        else Ok(Parse(data[4..p]), data[p + 4], data[p + 5..p + 4 + sl])
  }

  lemma MessageParts(m: Message)
    requires Typed(m.body)
    ensures var w, p := MessageWire(m), 4 + MarshalLength(m.body);
            && |w| == p + 5 + |m.signature| && w[0..4] == Put(MarshalLength(m.body), 4) && w[4..p] == Wire(m.body)
            && w[p..p + 4] == Put(1 + |m.signature|, 4) && w[p + 4] == m.algorithm && w[p + 5..] == m.signature
  {
    hide Put, Wire, Pow;
    WireParts(m.body);
  }

  lemma ParseMessageWire(m: Message)
    requires Typed(m.body) && |m.body.txs| < 0x1_0000 && |m.body.parents| < 0x1_0000 && 1 + |m.signature| < 0x1_0000_0000
    ensures ParseMessage(MessageWire(m)) == Ok(Some(m.body), m.algorithm, m.signature)
  {
    hide Put, Wire, Pow, Get, Parse, MessageWire, ParseMessage;
    MessageParts(m);
    Powers();
    GetPut(MarshalLength(m.body), 4);
    GetPut(1 + |m.signature|, 4);
    ParseWire(m.body);
    var w, p := MessageWire(m), 4 + MarshalLength(m.body);
    assert w[p + 5..p + 5 + |m.signature|] == m.signature;
    ParsesTo(w, MarshalLength(m.body), 1 + |m.signature|);
  }

  lemma ParsesTo(data: Bytes, bl: nat, sl: nat)
    requires sl > 0 && |data| >= 8 + bl + sl && Get(data[0..4]) == bl && Get(data[4 + bl..4 + bl + 4]) == sl
    ensures ParseMessage(data) == Ok(Parse(data[4..4 + bl]), data[4 + bl + 4], data[4 + bl + 5..4 + bl + 4 + sl])
  {
    hide Get, Parse;
  }

  lemma MessageLimits(data: Bytes)
    requires IsBytes(data) && ParseMessage(data).Ok? && ParseMessage(data).body.Some?
    ensures var r := ParseMessage(data);
            |r.body.value.txs| < 0x1_0000 && |r.body.value.parents| < 0x1_0000 && 1 + |r.signature| < 0x1_0000_0000
  {
    hide Get, Pow, Parse, IsBytes;
    Powers();
    var p := 4 + Get(data[0..4]);
    SliceBytes(data, 4, p);
    ParseLimits(data[4..p]);
    SliceBytes(data, p, p + 4);
    GetBound(data[p..p + 4]);
  }

  lemma MessageBytes(m: Message)
    requires Typed(m.body) && m.algorithm < 256 && IsBytes(m.signature)
    ensures IsBytes(MessageWire(m))
  {
    hide Put, Wire, Pow;
    WireBytes(m.body);
    PutBytes(MarshalLength(m.body), 4);
    PutBytes(1 + |m.signature|, 4);
  }

  /** Exactly the messages whose lists and signature fit their lengths survive the wire. */
  lemma MessageRoundTrip(m: Message)
    requires Typed(m.body) && m.algorithm < 256 && IsBytes(m.signature)
    ensures ParseMessage(MessageWire(m)) == Ok(Some(m.body), m.algorithm, m.signature) <==>
            |m.body.txs| < 0x1_0000 && |m.body.parents| < 0x1_0000 && 1 + |m.signature| < 0x1_0000_0000
  {
    hide ParseMessage, MessageWire;
    if |m.body.txs| < 0x1_0000 && |m.body.parents| < 0x1_0000 && 1 + |m.signature| < 0x1_0000_0000 {
      ParseMessageWire(m);
    }
    MessageBytes(m);
    if ParseMessage(MessageWire(m)) == Ok(Some(m.body), m.algorithm, m.signature) {
      MessageLimits(MessageWire(m));
    }
  }
}
