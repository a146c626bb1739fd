/**
 Framing of messages on an encrypted connection (section "Framing" of the devp2p
 RLPx specification).  The cipher stream, the hash and the block cipher are
 parameters; message codes are written in RLP.
 */
module Rlpx {
  import opened Options

  type byte = x: int | 0 <= x < 256

  const MAX_UINT24 := 0xFF_FFFF
  const TWO_32 := 0x1_0000_0000
  const TWO_64 := 0x1_0000_0000_0000_0000

  // ---------------------------------------------------------------------------
  // Exclusive or
  // ---------------------------------------------------------------------------

  function Pow2(n: nat): nat {
    if n == 0 then 1 else 2 * Pow2(n - 1)
  }

  /** Exclusive or of the lowest `n` bits. */
  function XorBits(a: nat, b: nat, n: nat): (r: nat)
    ensures r < Pow2(n)
  {
    if n == 0 then 0 else XorBit(a % 2, b % 2) + 2 * XorBits(a / 2, b / 2, n - 1)
  }

  lemma {:induction false} XorBack(a: nat, k: nat, n: nat)
    requires a < Pow2(n)
    ensures XorBits(XorBits(a, k, n), k, n) == a
  {
    if n > 0 {
      XorBack(a / 2, k / 2, n - 1);
      var p, y := XorBit(a % 2, k % 2), XorBits(a / 2, k / 2, n - 1);
      Halves(p, y);
      Halves(a % 2, a / 2);
    }
  }

  function XorBit(a: nat, b: nat): (r: nat)
    requires a < 2 && b < 2
    ensures r < 2
  {
    if a == b then 0 else 1
  }

  lemma Halves(p: nat, y: nat)
    requires p < 2
    ensures (p + 2 * y) % 2 == p && (p + 2 * y) / 2 == y
  {
  }

  lemma Pow2Of8()
    ensures Pow2(8) == 256
  {
    assert Pow2(4) == 16;
  }

  function Xor(a: byte, b: byte): byte {
    Pow2Of8();
    XorBits(a, b, 8)
  }

  lemma XorTwice(a: byte, k: byte)
    ensures Xor(Xor(a, k), k) == a
  {
    Pow2Of8();
    XorBack(a, k, 8);
  }

  // ---------------------------------------------------------------------------
  // Cipher and MAC
  // ---------------------------------------------------------------------------

  /** The foreign parts: stream cipher by position, hash of everything written so far, block cipher. */
  datatype Crypto = Crypto(cipher: (nat, seq<byte>) -> seq<byte>, digest: seq<byte> -> seq<byte>,
                           block: seq<byte> -> seq<byte>)

  /** Applying the cipher twice at the same position gives the data back. */
  ghost predicate CipherOk(cipher: (nat, seq<byte>) -> seq<byte>) {
    && (forall p: nat, d {:trigger cipher(p, d)} :: |cipher(p, d)| == |d|)
    && (forall p: nat, d {:trigger cipher(p, cipher(p, d))} :: cipher(p, cipher(p, d)) == d)
  }

  ghost predicate StreamsAt(cipher: (nat, seq<byte>) -> seq<byte>, p: nat, a: seq<byte>, b: seq<byte>) {
    cipher(p, a + b) == cipher(p, a) + cipher(p + |a|, b)
  }

  /** The cipher can be applied piece by piece. */
  ghost predicate Streams(cipher: (nat, seq<byte>) -> seq<byte>) {
    forall p: nat, a, b {:trigger StreamsAt(cipher, p, a, b)} :: StreamsAt(cipher, p, a, b)
  }

  ghost predicate CryptoOk(c: Crypto) {
    CipherOk(c.cipher) && (forall s :: |c.digest(s)| == 32) && (forall s :: |c.block(s)| == 16)
  }

  /** Counter mode: exclusive or with a key stream. */
  function Crypt(stream: nat -> byte, pos: nat, data: seq<byte>): (r: seq<byte>)
    ensures |r| == |data|
  {
    seq(|data|, i requires 0 <= i < |data| => Xor(data[i], stream(pos + i)))
  }

  lemma CryptTwice(stream: nat -> byte, pos: nat, data: seq<byte>)
    ensures Crypt(stream, pos, Crypt(stream, pos, data)) == data
  {
    forall i | 0 <= i < |data| ensures Crypt(stream, pos, Crypt(stream, pos, data))[i] == data[i] {
      XorTwice(data[i], stream(pos + i));
    }
  }

  lemma CryptAppend(stream: nat -> byte, pos: nat, a: seq<byte>, b: seq<byte>)
    ensures Crypt(stream, pos, a + b) == Crypt(stream, pos, a) + Crypt(stream, pos + |a|, b)
  {
  }

  function CounterMode(stream: nat -> byte): (nat, seq<byte>) -> seq<byte> {
    (p: nat, d: seq<byte>) => Crypt(stream, p, d)
  }

  /** Counter mode is such a cipher, whatever the key stream. */
  lemma CounterModeOk(stream: nat -> byte)
    ensures CipherOk(CounterMode(stream)) && Streams(CounterMode(stream))
  {
    var cipher := CounterMode(stream);
    forall p: nat, d: seq<byte> ensures cipher(p, cipher(p, d)) == d {
      CryptTwice(stream, p, d);
    }
    forall p: nat, a: seq<byte>, b: seq<byte> ensures StreamsAt(cipher, p, a, b) {
      CryptAppend(stream, p, a, b);
    }
  }

  function XorSeq(a: seq<byte>, b: seq<byte>): (r: seq<byte>)
    requires |a| == 16 && |b| >= 16
    ensures |r| == 16
  {
    seq(16, i requires 0 <= i < 16 => Xor(a[i], b[i]))
  }

  /** The MAC state after a seed has been mixed in. */
  function Mixed(c: Crypto, mac: seq<byte>, seed: seq<byte>): seq<byte>
    requires CryptoOk(c) && |seed| >= 16
  {
    mac + XorSeq(c.block(c.digest(mac)), seed)
  }

  function Tag(c: Crypto, mac: seq<byte>): (r: seq<byte>)
    requires CryptoOk(c)
    ensures |r| == 16
  {
    c.digest(mac)[..16]
  }

  // ---------------------------------------------------------------------------
  // Message codes
  // ---------------------------------------------------------------------------

  function BigEndian(n: nat): (r: seq<byte>)
    ensures |r| > 0
  {
    if n < 256 then [n] else BigEndian(n / 256) + [n % 256]
  }

  function FromBig(s: seq<byte>): nat {
    if s == [] then 0 else FromBig(s[..|s| - 1]) * 256 + s[|s| - 1]
  }

  lemma {:induction false} FromBigEndian(n: nat)
    ensures FromBig(BigEndian(n)) == n && (n > 0 ==> BigEndian(n)[0] != 0)
  {
    if n < 256 {
      assert [n][..0] == [];
    } else {
      FromBigEndian(n / 256);
      var s := BigEndian(n);
      assert s[..|s| - 1] == BigEndian(n / 256);
    }
  }

  function Pow256(k: nat): nat {
    if k == 0 then 1 else 256 * Pow256(k - 1)
  }

  lemma {:induction false} BigEndianLength(n: nat, k: nat)
    requires n < Pow256(k) && k > 0
    ensures |BigEndian(n)| <= k
  {
    if n >= 256 {
      BigEndianLength(n / 256, k - 1);
    }
  }

  lemma Pow256Of8()
    ensures Pow256(8) == TWO_64
  {
    assert Pow256(4) == 0x1_0000_0000;
  }

  function EncodeCode(code: nat): seq<byte>
    requires code < TWO_64
  {
    if code == 0 then [0x80]
    else if code < 128 then [code]
    else CodeLength(code); [0x80 + |BigEndian(code)|] + BigEndian(code)
  }

  lemma CodeLength(code: nat)
    requires code < TWO_64
    ensures |BigEndian(code)| <= 8
  {
    Pow256Of8();
    BigEndianLength(code, 8);
  }

  /** Reads a canonical integer of at most 8 bytes off the front. */
  function DecodeCode(s: seq<byte>): Option<(nat, seq<byte>)> {
    if s == [] || s[0] == 0 || s[0] >= 0xC0 then None
    else if s[0] < 0x80 then Some((s[0], s[1..]))
    else
      var size := s[0] - 0x80;
      if size > 8 || |s| < 1 + size then None
      else if size == 0 then Some((0, s[1..]))
      else
        var v := FromBig(s[1..1 + size]);
        if (size > 1 && s[1] == 0) || v < 128 then None else Some((v, s[1 + size..]))
  }

  lemma CodeRoundTrip(code: nat, rest: seq<byte>)
    requires code < TWO_64
    ensures DecodeCode(EncodeCode(code) + rest) == Some((code, rest))
    ensures 1 <= |EncodeCode(code)| <= 9
  {
    var s := EncodeCode(code) + rest;
    if code >= 128 {
      CodeLength(code);
      FromBigEndian(code);
      var n := |BigEndian(code)|;
      assert s[1..1 + n] == BigEndian(code);
      assert s[1 + n..] == rest;
    } else {
      assert s[1..] == rest;
    }
  }

  // ---------------------------------------------------------------------------
  // Sizes
  // ---------------------------------------------------------------------------

  function PutInt24(v: nat): (r: seq<byte>)
    requires v <= MAX_UINT24
    ensures |r| == 3
  {
    [v / 65536, v / 256 % 256, v % 256]
  }

  function ReadInt24(b: seq<byte>): (v: nat)
    requires |b| >= 3
    ensures v <= MAX_UINT24
  {
    var hi: int, mid: int, lo: int := b[0], b[1], b[2];
    lo + mid * 256 + hi * 65536
  }

  function Header(fsize: nat): (r: seq<byte>)
    requires fsize <= MAX_UINT24
    ensures |r| == 16 && ReadInt24(r) == fsize
  {
    PutInt24(fsize) + [0xC2, 0x80, 0x80] + Zeros(10)
  }

  const ZERO16: seq<byte> := [0, 0, 0, 0, 0, 0, 0, 0, 0, 0, 0, 0, 0, 0, 0, 0]

  function Zeros(n: nat): (r: seq<byte>)
    requires n <= 16
    ensures |r| == n
  {
    ZERO16[..n]
  }

  function Padding(fsize: nat): (r: nat)
    ensures r < 16 && (fsize + r) % 16 == 0
  {
    if fsize % 16 > 0 then 16 - fsize % 16 else 0
  }

  // ---------------------------------------------------------------------------
  // Frames
  // ---------------------------------------------------------------------------

  /** One direction of a connection at one end: cipher position and MAC state. */
  datatype Half = Half(pos: nat, mac: seq<byte>)

  datatype Msg = Msg(code: nat, payload: seq<byte>)

  /** Codes are 64-bit numbers and sizes 32-bit ones. */
  ghost predicate MsgOk(m: Msg) {
    m.code < TWO_64 && |m.payload| < TWO_32
  }

  /** Compression, if the connection uses it. */
  datatype Snappy = Snappy(encode: seq<byte> -> seq<byte>, decode: seq<byte> -> Option<seq<byte>>)

  ghost predicate SnappyOk(z: Option<Snappy>) {
    z.Some? ==> forall p {:trigger z.value.encode(p)} ::
      z.value.decode(z.value.encode(p)) == Some(p) && |z.value.encode(p)| <= |p| + |p| / 6 + 32
  }

  function Squeezed(z: Option<Snappy>, payload: seq<byte>): seq<byte> {
    if z.Some? then z.value.encode(payload) else payload
  }

  /** The size put into the header: a 32-bit sum. */
  function FrameSize(code: nat, size: nat): nat
    requires code < TWO_64
  {
    (|EncodeCode(code)| + size) % TWO_32
  }

  function Content(code: nat, data: seq<byte>): seq<byte>
    requires code < TWO_64
  {
    EncodeCode(code) + data + Zeros(Padding(FrameSize(code, |data|)))
  }

  /** Header, header MAC, content and content MAC on the wire, and the sender's state after them. */
  function Seal(c: Crypto, h: Half, fsize: nat, plain: seq<byte>): (seq<byte>, Half)
    requires CryptoOk(c) && fsize <= MAX_UINT24
  {
    var head := c.cipher(h.pos, Header(fsize));
    var mac1 := Mixed(c, h.mac, head);
    var body := c.cipher(h.pos + 16, plain);
    var mac2 := Mixed(c, mac1 + body, c.digest(mac1 + body));
    (head + Tag(c, mac1) + body + Tag(c, mac2), Half(h.pos + 16 + |plain|, mac2))
  }

  datatype Unsealed = Unsealed(content: seq<byte>, rest: seq<byte>, half: Half)

  /** Takes a frame off the input, if both MACs are right. */
  function Unseal(c: Crypto, h: Half, input: seq<byte>): Option<Unsealed>
    requires CryptoOk(c)
  {
    if |input| < 32 then None else
    var mac1 := Mixed(c, h.mac, input[..16]);
    if Tag(c, mac1) != input[16..32] then None
    else UnsealBody(c, h.pos + 16, mac1, ReadInt24(c.cipher(h.pos, input[..16])), input[32..])
  }

  function UnsealBody(c: Crypto, pos: nat, mac: seq<byte>, fsize: nat, input: seq<byte>): Option<Unsealed>
    requires CryptoOk(c)
  {
    var rsize := fsize + Padding(fsize);
    if |input| < rsize + 16 then None else
    var body := input[..rsize];
    var mac2 := Mixed(c, mac + body, c.digest(mac + body));
    if Tag(c, mac2) != input[rsize..rsize + 16] then None
    else Some(Unsealed(c.cipher(pos, body)[..fsize], input[rsize + 16..], Half(pos + rsize, mac2)))
  }

  lemma UnsealBodySealed(c: Crypto, pos: nat, mac: seq<byte>, fsize: nat, plain: seq<byte>, rest: seq<byte>)
    requires CryptoOk(c) && |plain| == fsize + Padding(fsize)
    ensures var body := c.cipher(pos, plain);
            var mac2 := Mixed(c, mac + body, c.digest(mac + body));
            UnsealBody(c, pos, mac, fsize,
                       body + Tag(c, mac2) + rest) == Some(Unsealed(plain[..fsize], rest, Half(pos + |plain|, mac2)))
  {
    var body := c.cipher(pos, plain);
    var tag := Tag(c, Mixed(c, mac + body, c.digest(mac + body)));
    Pieces(body, tag, rest);
  }

  lemma Pieces(a: seq<byte>, t: seq<byte>, rest: seq<byte>)
    requires |t| == 16
    ensures var s := a + t + rest;
            s[..|a|] == a && s[|a|..|a| + 16] == t && s[|a| + 16..] == rest
  {
  }

  /** A reader in the writer's state gets the content back, and both are in the same state after it. */
  lemma UnsealSealed(c: Crypto, h: Half, fsize: nat, plain: seq<byte>, rest: seq<byte>)
    requires CryptoOk(c) && fsize <= MAX_UINT24 && |plain| == fsize + Padding(fsize)
    ensures Unseal(c, h, Seal(c, h, fsize, plain).0 + rest) ==
            Some(Unsealed(plain[..fsize], rest, Seal(c, h, fsize, plain).1))
  {
    SealedHead(c, h, fsize, plain, rest);
    UnsealBodySealed(c, h.pos + 16, Mixed(c, h.mac, c.cipher(h.pos, Header(fsize))), fsize, plain, rest);
  }

  /** The header of a sealed frame is accepted and gives its size, whatever the content. */
  lemma SealedHead(c: Crypto, h: Half, fsize: nat, plain: seq<byte>, rest: seq<byte>)
    requires CryptoOk(c) && fsize <= MAX_UINT24
    ensures var mac1 := Mixed(c, h.mac, c.cipher(h.pos, Header(fsize)));
            var body := c.cipher(h.pos + 16, plain);
            var tag := Tag(c, Mixed(c, mac1 + body, c.digest(mac1 + body)));
            Unseal(c, h, Seal(c, h, fsize, plain).0 + rest) == UnsealBody(c, h.pos + 16, mac1, fsize, body + tag + rest)
  {
    var head := c.cipher(h.pos, Header(fsize));
    var mac1 := Mixed(c, h.mac, head);
    var body := c.cipher(h.pos + 16, plain);
    var tag := Tag(c, Mixed(c, mac1 + body, c.digest(mac1 + body)));
    HeadPieces(head, Tag(c, mac1), body, tag, rest);
    assert c.cipher(h.pos, head) == Header(fsize);
  }

  lemma HeadPieces(a: seq<byte>, t: seq<byte>, b: seq<byte>, u: seq<byte>, rest: seq<byte>)
    requires |a| == |t| == 16
    ensures var s := a + t + b + u + rest;
            s[..16] == a && s[16..32] == t && s[32..] == b + u + rest
  {
  }

  lemma UnsealedSize(c: Crypto, pos: nat, mac: seq<byte>, fsize: nat, input: seq<byte>)
    requires CryptoOk(c)
    ensures var r := UnsealBody(c, pos, mac, fsize, input);
            r.Some? ==> |r.value.content| == fsize
  {
  }

  lemma SealedSize(c: Crypto, h: Half, fsize: nat, plain: seq<byte>, rest: seq<byte>)
    requires CryptoOk(c) && fsize <= MAX_UINT24
    ensures var u := Unseal(c, h, Seal(c, h, fsize, plain).0 + rest);
            u.Some? ==> |u.value.content| == fsize
  {
    SealedHead(c, h, fsize, plain, rest);
    var mac1 := Mixed(c, h.mac, c.cipher(h.pos, Header(fsize)));
    var body := c.cipher(h.pos + 16, plain);
    UnsealedSize(c, h.pos + 16, mac1, fsize, body + Tag(c, Mixed(c, mac1 + body, c.digest(mac1 + body))) + rest);
  }

  /** What sending a message writes, unless it is refused. */
  function WriteFrame(c: Crypto, z: Option<Snappy>, h: Half, m: Msg): Option<(seq<byte>, Half)>
    requires CryptoOk(c) && MsgOk(m)
  {
    if z.Some? && |m.payload| > MAX_UINT24 then None
    else
      var data := Squeezed(z, m.payload);
      var fsize := FrameSize(m.code, |data|);
      if fsize > MAX_UINT24 then None else Some(Seal(c, h, fsize, Content(m.code, data)))
  }

  /** Decodes the content of a frame. */
  function Parse(z: Option<Snappy>, content: seq<byte>): Option<Msg> {
    var code := DecodeCode(content);
    if code.None? then None
    else if z.None? then Some(Msg(code.value.0, code.value.1))
    else
      var payload := z.value.decode(code.value.1);
      if payload.None? || |payload.value| > MAX_UINT24 then None else Some(Msg(code.value.0, payload.value))
  }

  datatype Received = Received(msg: Msg, rest: seq<byte>, half: Half)

  /** What receiving a message takes off the input, unless it fails. */
  function ReadFrame(c: Crypto, z: Option<Snappy>, h: Half, input: seq<byte>): Option<Received>
    requires CryptoOk(c)
  {
    var u := Unseal(c, h, input);
    if u.None? then None else
    var m := Parse(z, u.value.content);
    if m.None? then None else Some(Received(m.value, u.value.rest, u.value.half))
  }

  /** The message fits into a frame. */
  ghost predicate Fits(z: Option<Snappy>, m: Msg)
    requires m.code < TWO_64
  {
    && (z.Some? ==> |m.payload| <= MAX_UINT24)
    && |EncodeCode(m.code)| + |Squeezed(z, m.payload)| <= MAX_UINT24
  }

  lemma ParseContent(z: Option<Snappy>, m: Msg)
    requires SnappyOk(z) && MsgOk(m) && Fits(z, m)
    ensures var data := Squeezed(z, m.payload);
            Parse(z, Content(m.code, data)[..FrameSize(m.code, |data|)]) == Some(m)
  {
    var data := Squeezed(z, m.payload);
    CodeRoundTrip(m.code, data);
    assert Content(m.code, data)[..FrameSize(m.code, |data|)] == EncodeCode(m.code) + data;
  }

  /**
   A reader in the writer's state gets the message back, what follows stays, and
   both ends are in the same state again.
   */
  lemma FrameRoundTrip(c: Crypto, z: Option<Snappy>, h: Half, m: Msg, rest: seq<byte>)
    requires CryptoOk(c) && SnappyOk(z) && MsgOk(m) && Fits(z, m)
    ensures var w := WriteFrame(c, z, h, m);
            w.Some? && ReadFrame(c, z, h, w.value.0 + rest) == Some(Received(m, rest, w.value.1))
  {
    var data := Squeezed(z, m.payload);
    UnsealSealed(c, h, FrameSize(m.code, |data|), Content(m.code, data), rest);
    ParseContent(z, m);
  }

  /** Beyond 32 bits the size in the header wraps, and what is read back is not what was sent. */
  lemma TooLongIsLost(c: Crypto, z: Option<Snappy>, h: Half, m: Msg, rest: seq<byte>)
    requires CryptoOk(c) && SnappyOk(z) && MsgOk(m) && !Fits(z, m) && WriteFrame(c, z, h, m).Some?
    ensures |EncodeCode(m.code)| + |m.payload| >= TWO_32
    ensures var r := ReadFrame(c, z, h, WriteFrame(c, z, h, m).value.0 + rest);
            r.Some? ==> r.value.msg != m
  {
    CodeRoundTrip(m.code, []);
    var data := Squeezed(z, m.payload);
    var fsize, content := FrameSize(m.code, |data|), Content(m.code, data);
    assert z.None? && fsize <= 8;
    SealedSize(c, h, fsize, content, rest);
    ShortPayload(c, h, Seal(c, h, fsize, content).0 + rest, fsize);
  }

  /** The shortest message of code 0 whose size wraps: it is written, and lost. */
  lemma WrappedIsWritten(c: Crypto, h: Half, rest: seq<byte>) returns (m: Msg)
    requires CryptoOk(c)
    ensures MsgOk(m) && !Fits(None, m) && WriteFrame(c, None, h, m).Some?
    ensures var r := ReadFrame(c, None, h, WriteFrame(c, None, h, m).value.0 + rest);
            r.Some? ==> r.value.msg != m
  {
    m := Msg(0, seq(TWO_32 - 1, _ => 0));
    TooLongIsLost(c, None, h, m, rest);
  }

  lemma ShortPayload(c: Crypto, h: Half, input: seq<byte>, fsize: nat)
    requires CryptoOk(c) && (Unseal(c, h, input).Some? ==> |Unseal(c, h, input).value.content| == fsize)
    ensures var r := ReadFrame(c, None, h, input);
            r.Some? ==> |r.value.msg.payload| <= fsize
  {
  }

  /** Written, and read back as it was, by a reader then in the writer's state. */
  ghost predicate Survives(c: Crypto, z: Option<Snappy>, h: Half, m: Msg, rest: seq<byte>)
    requires CryptoOk(c) && MsgOk(m)
  {
    var w := WriteFrame(c, z, h, m);
    w.Some? && ReadFrame(c, z, h, w.value.0 + rest) == Some(Received(m, rest, w.value.1))
  }

  /** A message survives exactly if it fits: refused or lost otherwise. */
  lemma SurvivesIffFits(c: Crypto, z: Option<Snappy>, h: Half, m: Msg, rest: seq<byte>)
    requires CryptoOk(c) && SnappyOk(z) && MsgOk(m)
    ensures Survives(c, z, h, m, rest) <==> Fits(z, m)
  {
    if Fits(z, m) {
      FrameRoundTrip(c, z, h, m, rest);
    } else if WriteFrame(c, z, h, m).Some? {
      TooLongIsLost(c, z, h, m, rest);
    }
  }

  // ---------------------------------------------------------------------------
  // Streams of messages
  // ---------------------------------------------------------------------------

  /** A way to write and to read single messages. */
  datatype Codec = Codec(write: (Half, Msg) -> Option<(seq<byte>, Half)>, read: (Half, seq<byte>) -> Option<Received>)

  /** From any state, with anything following, the message is written and read back, and the two ends stay in step. */
  ghost predicate Carries(k: Codec, m: Msg) {
    forall h, rest {:trigger CarriesFrom(k, m, h, rest)} :: CarriesFrom(k, m, h, rest)
  }

  ghost predicate CarriesFrom(k: Codec, m: Msg, h: Half, rest: seq<byte>) {
    var w := k.write(h, m);
    w.Some? && k.read(h, w.value.0 + rest) == Some(Received(m, rest, w.value.1))
  }

  /** The bytes of a sequence of messages, and the sender's state after it. */
  function WriteAll(k: Codec, h: Half, ms: seq<Msg>): Option<(seq<byte>, Half)>
    decreases |ms|
  {
    if ms == [] then Some(([], h))
    else
      var w := k.write(h, ms[0]);
      if w.None? then None else
      var t := WriteAll(k, w.value.1, ms[1..]);
      if t.None? then None else Some((w.value.0 + t.value.0, t.value.1))
  }

  function ReadAll(k: Codec, h: Half, input: seq<byte>, n: nat): Option<(seq<Msg>, seq<byte>, Half)>
    decreases n
  {
    if n == 0 then Some(([], input, h))
    else
      var r := k.read(h, input);
      if r.None? then None else
      var t := ReadAll(k, r.value.half, r.value.rest, n - 1);
      if t.None? then None else Some(([r.value.msg] + t.value.0, t.value.1, t.value.2))
  }

  lemma {:induction false} CarriesAll(k: Codec, h: Half, ms: seq<Msg>, rest: seq<byte>)
    requires forall i :: 0 <= i < |ms| ==> Carries(k, ms[i])
    ensures var w := WriteAll(k, h, ms);
            w.Some? && ReadAll(k, h, w.value.0 + rest, |ms|) == Some((ms, rest, w.value.1))
    decreases |ms|
  {
    if ms == [] {
      assert [] + rest == rest;
    } else {
      assert CarriesFrom(k, ms[0], h, []);
      var w := k.write(h, ms[0]).value;
      CarriesAll(k, w.1, ms[1..], rest);
      var t := WriteAll(k, w.1, ms[1..]).value;
      assert CarriesFrom(k, ms[0], h, t.0 + rest);
      assert w.0 + t.0 + rest == w.0 + (t.0 + rest);
      assert [ms[0]] + ms[1..] == ms;
    }
  }

  ghost function Frames(c: Crypto, z: Option<Snappy>): Codec
    requires CryptoOk(c)
  {
    Codec((h: Half, m: Msg) => if MsgOk(m) then WriteFrame(c, z, h, m) else None,
          (h: Half, input: seq<byte>) => ReadFrame(c, z, h, input))
  }

  /**
   A reader fed the bytes of a writer that started in the same state returns the
   same messages in order, leaves what follows, and ends in the writer's state:
   after each frame cipher position and MAC agree.
   */
  lemma StreamRoundTrip(c: Crypto, z: Option<Snappy>, h: Half, ms: seq<Msg>, rest: seq<byte>)
    requires CryptoOk(c) && SnappyOk(z) && forall i :: 0 <= i < |ms| ==> MsgOk(ms[i]) && Fits(z, ms[i])
    ensures var w := WriteAll(Frames(c, z), h, ms);
            w.Some? && ReadAll(Frames(c, z), h, w.value.0 + rest, |ms|) == Some((ms, rest, w.value.1))
  {
    forall i | 0 <= i < |ms| ensures Carries(Frames(c, z), ms[i]) {
      FramesCarry(c, z, ms[i]);
    }
    CarriesAll(Frames(c, z), h, ms, rest);
  }

  lemma FramesCarry(c: Crypto, z: Option<Snappy>, m: Msg)
    requires CryptoOk(c) && SnappyOk(z) && MsgOk(m) && Fits(z, m)
    ensures Carries(Frames(c, z), m)
  {
    forall h, rest ensures CarriesFrom(Frames(c, z), m, h, rest) {
      FrameRoundTrip(c, z, h, m, rest);
    }
  }

  // ---------------------------------------------------------------------------
  // The connection
  // ---------------------------------------------------------------------------

  lemma ThreePieces(c: Crypto, pos: nat, x: seq<byte>, y: seq<byte>, w: seq<byte>, before: seq<byte>)
    requires CryptoOk(c) && Streams(c.cipher)
    ensures before + c.cipher(pos, x) + c.cipher(pos + |x|, y) + c.cipher(pos + |x| + |y|, w) ==
            before + c.cipher(pos, x + y + w)
  {
    assert StreamsAt(c.cipher, pos, x + y, w) && StreamsAt(c.cipher, pos, x, y);
  }

  /** The sending side. */
  class FrameWriter {
    const crypto: Crypto
    const snappy: Option<Snappy>
    var conn: seq<byte>
    var pos: nat
    var egressMAC: seq<byte>

    constructor (c: Crypto, z: Option<Snappy>, h: Half)
      ensures crypto == c && snappy == z && conn == [] && State() == h
    {
      crypto, snappy := c, z;
      conn, pos, egressMAC := [], h.pos, h.mac;
    }

    ghost function State(): Half
      reads this
    {
      Half(pos, egressMAC)
    }

    method UpdateMAC(seed: seq<byte>) returns (tag: seq<byte>)
      requires CryptoOk(crypto) && |seed| >= 16
      modifies this`egressMAC
      ensures egressMAC == Mixed(crypto, old(egressMAC), seed) && tag == Tag(crypto, egressMAC)
    {
      var aesbuf := crypto.block(crypto.digest(egressMAC));
      egressMAC := egressMAC + XorSeq(aesbuf, seed);
      tag := crypto.digest(egressMAC)[..16];
    }

    /** Encrypts onto the connection and into the MAC. */
    method Tee(data: seq<byte>)
      requires CryptoOk(crypto)
      modifies this`conn, this`pos, this`egressMAC
      ensures var enc := crypto.cipher(old(pos), data);
              conn == old(conn) + enc && pos == old(pos) + |data| && egressMAC == old(egressMAC) + enc
    {
      var enc := crypto.cipher(pos, data);
      conn, egressMAC, pos := conn + enc, egressMAC + enc, pos + |data|;
    }

    /** Encrypts code, data and padding one after the other. */
    method TeeContent(code: nat, data: seq<byte>, fsize: nat)
      requires CryptoOk(crypto) && Streams(crypto.cipher) && code < TWO_64 && fsize == FrameSize(code, |data|)
      modifies this`conn, this`pos, this`egressMAC
      ensures var body := crypto.cipher(old(pos), Content(code, data));
              conn == old(conn) + body && pos == old(pos) + |Content(code, data)| && egressMAC == old(egressMAC) + body
    {
      var ptype := EncodeCode(code);
      Tee(ptype);
      Tee(data);
      if fsize % 16 > 0 {
        Tee(Zeros(16 - fsize % 16));
      } else {
        assert crypto.cipher(pos, Zeros(0)) == [];
      }
      ThreePieces(crypto, old(pos), ptype, data, Zeros(Padding(fsize)), old(conn));
      ThreePieces(crypto, old(pos), ptype, data, Zeros(Padding(fsize)), old(egressMAC));
    }

    /** Writes a message, or refuses it and changes nothing. */
    method WriteMsg(m: Msg) returns (ok: bool)
      requires CryptoOk(crypto) && Streams(crypto.cipher) && MsgOk(m)
      modifies this
      ensures var w := WriteFrame(crypto, snappy, old(State()), m);
              && ok == w.Some?
              && (ok ==> conn == old(conn) + w.value.0 && State() == w.value.1)
              && (!ok ==> conn == old(conn) && State() == old(State()))
    {
      if snappy.Some? && |m.payload| > MAX_UINT24 {
        return false;
      }
      var data := Squeezed(snappy, m.payload);
      var fsize := (|EncodeCode(m.code)| + |data|) % TWO_32;
      if fsize > MAX_UINT24 {
        return false;
      }
      WriteChecked(m, data, fsize);
      return true;
    }

    method WriteChecked(m: Msg, data: seq<byte>, fsize: nat)
      requires CryptoOk(crypto) && Streams(crypto.cipher) && MsgOk(m) && (snappy.Some? ==> |m.payload| <= MAX_UINT24)
      requires data == Squeezed(snappy, m.payload) && fsize == FrameSize(m.code, |data|) <= MAX_UINT24
      modifies this
      ensures var w := WriteFrame(crypto, snappy, old(State()), m);
              w.Some? && conn == old(conn) + w.value.0 && State() == w.value.1
    {
      ghost var before, h := conn, State();
      WriteHead(fsize);
      WriteBody(m.code, data, fsize);
      FrameIs(crypto, snappy, h, m, before, conn, State());
    }

    method WriteBody(code: nat, data: seq<byte>, fsize: nat)
      requires CryptoOk(crypto) && Streams(crypto.cipher) && code < TWO_64 && fsize == FrameSize(code, |data|)
      modifies this
      ensures var body := crypto.cipher(old(pos), Content(code, data));
              && egressMAC == Mixed(crypto, old(egressMAC) + body, crypto.digest(old(egressMAC) + body))
              && conn == old(conn) + body + Tag(crypto, egressMAC) && pos == old(pos) + |Content(code, data)|
    {
      TeeContent(code, data, fsize);
      var tag := UpdateMAC(crypto.digest(egressMAC));
      conn := conn + tag;
    }

    method WriteHead(fsize: nat)
      requires CryptoOk(crypto) && fsize <= MAX_UINT24
      modifies this
      ensures var head := crypto.cipher(old(pos), Header(fsize));
              && pos == old(pos) + 16 && egressMAC == Mixed(crypto, old(egressMAC), head)
              && conn == old(conn) + head + Tag(crypto, egressMAC)
    {
      var head := crypto.cipher(pos, Header(fsize));
      pos := pos + 16;
      var tag := UpdateMAC(head);
      conn := conn + head + tag;
    }
  }

  /** Head, header tag, body and body tag written one after the other make up the frame. */
  lemma FrameIs(c: Crypto, z: Option<Snappy>, h: Half, m: Msg, before: seq<byte>, after: seq<byte>, end: Half)
    requires CryptoOk(c) && MsgOk(m) && (z.Some? ==> |m.payload| <= MAX_UINT24)
    requires FrameSize(m.code, |Squeezed(z, m.payload)|) <= MAX_UINT24
    requires var data := Squeezed(z, m.payload);
             var plain := Content(m.code, data);
             var head, body := c.cipher(h.pos, Header(FrameSize(m.code, |data|))), c.cipher(h.pos + 16, plain);
             var mac1 := Mixed(c, h.mac, head);
             && end == Half(h.pos + 16 + |plain|, Mixed(c, mac1 + body, c.digest(mac1 + body)))
             && after == before + head + Tag(c, mac1) + body + Tag(c, end.mac)
    ensures WriteFrame(c, z, h, m).Some?
    ensures after == before + WriteFrame(c, z, h, m).value.0 && end == WriteFrame(c, z, h, m).value.1
  {
    var fsize, plain := FrameSize(m.code, |Squeezed(z, m.payload)|), Content(m.code, Squeezed(z, m.payload));
    SealIs(c, h, fsize, plain, before, after, end);
  }

  lemma SealIs(c: Crypto, h: Half, fsize: nat, plain: seq<byte>, before: seq<byte>, after: seq<byte>, end: Half)
    requires CryptoOk(c) && fsize <= MAX_UINT24
    requires var head, body := c.cipher(h.pos, Header(fsize)), c.cipher(h.pos + 16, plain);
             var mac1 := Mixed(c, h.mac, head);
             && end == Half(h.pos + 16 + |plain|, Mixed(c, mac1 + body, c.digest(mac1 + body)))
             && after == before + head + Tag(c, mac1) + body + Tag(c, end.mac)
    ensures after == before + Seal(c, h, fsize, plain).0 && end == Seal(c, h, fsize, plain).1
  {
  }

  /** The receiving side. */
  class FrameReader {
    const crypto: Crypto
    const snappy: Option<Snappy>
    var conn: seq<byte>
    var pos: nat
    var ingressMAC: seq<byte>

    constructor (c: Crypto, z: Option<Snappy>, h: Half, input: seq<byte>)
      ensures crypto == c && snappy == z && conn == input && State() == h
    {
      crypto, snappy := c, z;
      conn, pos, ingressMAC := input, h.pos, h.mac;
    }

    ghost function State(): Half
      reads this
    {
      Half(pos, ingressMAC)
    }

    method UpdateMAC(seed: seq<byte>) returns (tag: seq<byte>)
      requires CryptoOk(crypto) && |seed| >= 16
      modifies this`ingressMAC
      ensures ingressMAC == Mixed(crypto, old(ingressMAC), seed) && tag == Tag(crypto, ingressMAC)
    {
      var aesbuf := crypto.block(crypto.digest(ingressMAC));
      ingressMAC := ingressMAC + XorSeq(aesbuf, seed);
      tag := crypto.digest(ingressMAC)[..16];
    }

    /** Reads a message; a failure leaves the connection unusable. */
    method ReadMsg() returns (m: Option<Msg>)
      requires CryptoOk(crypto)
      modifies this
      ensures var r := ReadFrame(crypto, snappy, old(State()), old(conn));
              && m.Some? == r.Some?
              && (r.Some? ==> m.value == r.value.msg && conn == r.value.rest && State() == r.value.half)
    {
      if |conn| < 32 {
        return None;
      }
      var head, tag := conn[..16], conn[16..32];
      conn := conn[32..];
      var should := UpdateMAC(head);
      if should != tag {
        return None;
      }
      var fsize := ReadInt24(crypto.cipher(pos, head));
      pos := pos + 16;
      var content := ReadBody(fsize);
      if content.None? {
        return None;
      }
      m := Parse(snappy, content.value);
    }

    /** Reads and checks the content of a frame of a known size. */
    method ReadBody(fsize: nat) returns (content: Option<seq<byte>>)
      requires CryptoOk(crypto)
      modifies this
      ensures var u := UnsealBody(crypto, old(pos), old(ingressMAC), fsize, old(conn));
              && content.Some? == u.Some?
              && (u.Some? ==> content.value == u.value.content && conn == u.value.rest && State() == u.value.half)
    {
      var rsize := fsize;
      if fsize % 16 > 0 {
        rsize := rsize + 16 - fsize % 16;
      }
      if |conn| < rsize + 16 {
        return None;
      }
      var body, tag := conn[..rsize], conn[rsize..rsize + 16];
      conn := conn[rsize + 16..];
      ingressMAC := ingressMAC + body;
      var should := UpdateMAC(crypto.digest(ingressMAC));
      if should != tag {
        return None;
      }
      content := Some(crypto.cipher(pos, body)[..fsize]);
      pos := pos + rsize;
    }
  }
}
