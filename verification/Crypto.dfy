/** The additional data bound to every sealed message (crypto/mod.rs) and the two
    cryptographic interfaces, with the idealised laws the protocol relies on. */
module Crypto {
  import opened Wrappers
  import opened Utf8

  const U64_LIMIT: nat := 0x1_0000_0000_0000_0000

  type u64 = n: nat | n < U64_LIMIT

  datatype AadKind = Text | ImagePng | File | Trust | Ban | Leave | DeleteHistory | ClearHistory | Approval

  /** The characters are ASCII, so each stands for its byte. */
  function KindLiteral(kind: AadKind): string {
    match kind
    case Text => "text"
    case ImagePng => "image_png"
    case File => "file"
    case Trust => "trust"
    case Ban => "ban"
    case Leave => "leave"
    case DeleteHistory => "delete_history"
    case ClearHistory => "clear_history"
    case Approval => "approval"
  }

  const AAD_MAGIC: string := "sync-copy-v2"

  /** `AadKind::as_bytes`. */
  function AsBytes(kind: AadKind): seq<byte> { Ascii(KindLiteral(kind)) }

  function Ascii(s: string): (bs: seq<byte>)
    ensures |bs| == |s|
    ensures forall i | 0 <= i < |s| :: s[i] < '\U{0080}' ==> bs[i] == s[i] as int
  {
    seq(|s|, i requires 0 <= i < |s| => if s[i] < '\U{0080}' then s[i] as int else 0)
  }

  // ---------------------------------------------------------------------------
  // Big-endian numbers
  // ---------------------------------------------------------------------------

  function Pow256(width: nat): nat { if width == 0 then 1 else 0x100 * Pow256(width - 1) }

  function ToBigEndian(n: nat, width: nat): (bs: seq<byte>)
    ensures |bs| == width
  {
    if width == 0 then [] else ToBigEndian(n / 0x100, width - 1) + [n % 0x100]
  }

  function FromBigEndian(bs: seq<byte>): nat {
    if bs == [] then 0 else FromBigEndian(bs[..|bs| - 1]) * 0x100 + bs[|bs| - 1] as int
  }

  lemma {:induction false} BigEndianRoundTrip(n: nat, width: nat)
    requires n < Pow256(width)
    ensures FromBigEndian(ToBigEndian(n, width)) == n
  {
    if width != 0 {
      BigEndianRoundTrip(n / 0x100, width - 1);
      var bs := ToBigEndian(n, width);
      assert bs[..|bs| - 1] == ToBigEndian(n / 0x100, width - 1);
    }
  }

  lemma SeqRoundTrip(seqNo: u64)
    ensures FromBigEndian(ToBigEndian(seqNo, 8)) == seqNo
  {
    assert Pow256(8) == U64_LIMIT by {
      assert Pow256(2) == 0x1_0000 && Pow256(4) == 0x1_0000_0000 && Pow256(6) == 0x1_0000_0000_0000;
    }
    BigEndianRoundTrip(seqNo, 8);
  }

  lemma FromBigEndianSnoc(bs: seq<byte>, b: byte)
    ensures FromBigEndian(bs + [b]) == FromBigEndian(bs) * 0x100 + b as int
  {
    assert (bs + [b])[..|bs|] == bs;
  }

  lemma FourBytes(bs: seq<byte>, b1: byte, b2: byte, b3: byte, b4: byte)
    ensures FromBigEndian(bs + [b1, b2, b3, b4]) == FromBigEndian(bs) * 0x1_0000_0000
      + b1 as int * 0x100_0000 + b2 as int * 0x1_0000 + b3 as int * 0x100 + b4 as int
  {
    FromBigEndianSnoc(bs, b1);
    FromBigEndianSnoc(bs + [b1], b2);
    FromBigEndianSnoc(bs + [b1] + [b2], b3);
    FromBigEndianSnoc(bs + [b1] + [b2] + [b3], b4);
    assert bs + [b1] + [b2] + [b3] + [b4] == bs + [b1, b2, b3, b4];
  }

  lemma EightBytes(bs: seq<byte>)
    requires |bs| == 8
    ensures FromBigEndian(bs) == bs[0] as int * 0x100_0000_0000_0000 + bs[1] as int * 0x1_0000_0000_0000
      + bs[2] as int * 0x100_0000_0000 + bs[3] as int * 0x1_0000_0000
      + bs[4] as int * 0x100_0000 + bs[5] as int * 0x1_0000 + bs[6] as int * 0x100 + bs[7] as int
  {
    FourBytes([], bs[0], bs[1], bs[2], bs[3]);
    FourBytes([] + [bs[0], bs[1], bs[2], bs[3]], bs[4], bs[5], bs[6], bs[7]);
    assert bs == [] + [bs[0], bs[1], bs[2], bs[3]] + [bs[4], bs[5], bs[6], bs[7]];
  }

  // ---------------------------------------------------------------------------
  // build_aad
  // ---------------------------------------------------------------------------

  /** magic || kind || origin || seq, the last as eight big-endian bytes. */
  function Aad(kind: AadKind, origin: string, seqNo: u64): seq<byte> {
    Ascii(AAD_MAGIC) + AsBytes(kind) + Encode(origin) + ToBigEndian(seqNo, 8)
  }

  method BuildAad(kind: AadKind, origin: string, seqNo: u64) returns (buf: seq<byte>)
    ensures buf == Aad(kind, origin, seqNo)
  {
    buf := [];
    buf := buf + Ascii(AAD_MAGIC);
    assert buf == Ascii(AAD_MAGIC);
    buf := buf + AsBytes(kind);
    buf := buf + Encode(origin);
    buf := buf + ToBigEndian(seqNo, 8);
  }

  lemma FourParts<T>(a: seq<T>, b: seq<T>, c: seq<T>, d: seq<T>)
    ensures var all := a + b + c + d;
      && |all| == |a| + |b| + |c| + |d|
      && all[..|a|] == a && all[|a|..|a| + |b|] == b
      && all[|a| + |b|..|a| + |b| + |c|] == c && all[|a| + |b| + |c|..] == d
  {
  }

  /** The magic, the kind's literal, the origin, and the number in eight bytes, one after the other. */
  lemma AadLayout(kind: AadKind, origin: string, seqNo: u64)
    ensures var aad, k := Aad(kind, origin, seqNo), 12 + |KindLiteral(kind)|;
      var n := k + |Encode(origin)|;
      && |aad| == n + 8
      && aad[..12] == Ascii("sync-copy-v2") && aad[12..k] == Ascii(KindLiteral(kind))
      && aad[k..n] == Encode(origin) && aad[n..] == ToBigEndian(seqNo, 8)
  {
    FourParts(Ascii(AAD_MAGIC), AsBytes(kind), Encode(origin), ToBigEndian(seqNo, 8));
  }

  /** The high byte comes first. */
  lemma NumberLayout(seqNo: u64)
    ensures var bs := ToBigEndian(seqNo, 8);
      seqNo == bs[0] as int * 0x100_0000_0000_0000 + bs[1] as int * 0x1_0000_0000_0000
        + bs[2] as int * 0x100_0000_0000 + bs[3] as int * 0x1_0000_0000
        + bs[4] as int * 0x100_0000 + bs[5] as int * 0x1_0000 + bs[6] as int * 0x100 + bs[7] as int
  {
    SeqRoundTrip(seqNo);
    EightBytes(ToBigEndian(seqNo, 8));
  }

  /** No kind literal is a prefix of another, whatever follows them. */
  lemma KindsArePrefixFree(k1: AadKind, k2: AadKind, rest1: seq<byte>, rest2: seq<byte>)
    requires AsBytes(k1) + rest1 == AsBytes(k2) + rest2
    ensures k1 == k2 && rest1 == rest2
  {
    var a, b := AsBytes(k1), AsBytes(k2);
    assert forall i | 0 <= i < 2 :: (a + rest1)[i] == a[i] && (b + rest2)[i] == b[i];
    assert KindLiteral(k1)[0] == KindLiteral(k2)[0] && KindLiteral(k1)[1] == KindLiteral(k2)[1];
    assert rest1 == (a + rest1)[|a|..] && rest2 == (b + rest2)[|b|..];
  }

  datatype AadFields = AadFields(kind: AadKind, origin: string, seqNo: nat)

  /** The kinds whose literal starts `bs`; at most one does. */
  function KindAt(bs: seq<byte>, kinds: seq<AadKind>): (r: Option<AadKind>)
    ensures r.Some? ==> AsBytes(r.value) <= bs
  {
    if kinds == [] then None
    else if AsBytes(kinds[0]) <= bs then Some(kinds[0])
    else KindAt(bs, kinds[1..])
  }

  const ALL_KINDS: seq<AadKind> :=
    [Text, ImagePng, File, Trust, Ban, Leave, DeleteHistory, ClearHistory, Approval]

  /** A parser for the layout. */
  function ParseAad(bs: seq<byte>): Option<AadFields> {
    if |bs| < |AAD_MAGIC| + 8 then None else
    var body, tail := bs[|AAD_MAGIC|..|bs| - 8], bs[|bs| - 8..];
    match KindAt(body, ALL_KINDS)
    case None => None
    case Some(kind) =>
      match Decode(body[|AsBytes(kind)|..])
      case None => None
      case Some(origin) => Some(AadFields(kind, origin, FromBigEndian(tail)))
  }

  lemma {:induction false} KindAtFinds(kind: AadKind, rest: seq<byte>, kinds: seq<AadKind>)
    requires kind in kinds
    ensures KindAt(AsBytes(kind) + rest, kinds) == Some(kind)
  {
    var bs := AsBytes(kind) + rest;
    if kinds[0] == kind {
    } else if AsBytes(kinds[0]) <= bs {
      assert bs == AsBytes(kinds[0]) + bs[|AsBytes(kinds[0])|..];
      KindsArePrefixFree(kind, kinds[0], rest, bs[|AsBytes(kinds[0])|..]);
    } else {
      KindAtFinds(kind, rest, kinds[1..]);
    }
  }

  lemma KindsAreListed(kind: AadKind)
    ensures kind in ALL_KINDS
  {
    assert ALL_KINDS[0] == Text && ALL_KINDS[1] == ImagePng && ALL_KINDS[2] == File && ALL_KINDS[3] == Trust
        && ALL_KINDS[4] == Ban && ALL_KINDS[5] == Leave && ALL_KINDS[6] == DeleteHistory
        && ALL_KINDS[7] == ClearHistory && ALL_KINDS[8] == Approval;
  }

  lemma AadParts(kind: AadKind, origin: string, seqNo: u64)
    ensures var bs := Aad(kind, origin, seqNo);
      && |AAD_MAGIC| + 8 <= |bs|
      && bs[|AAD_MAGIC|..|bs| - 8] == AsBytes(kind) + Encode(origin) && bs[|bs| - 8..] == ToBigEndian(seqNo, 8)
  {
    var bs := Ascii(AAD_MAGIC) + (AsBytes(kind) + Encode(origin)) + ToBigEndian(seqNo, 8);
    assert Aad(kind, origin, seqNo) == bs;
    assert |Ascii(AAD_MAGIC)| == |AAD_MAGIC|;
  }

  /** The additional data determines kind, origin and sequence number: the parser recovers all three. */
  lemma AadRoundTrip(kind: AadKind, origin: string, seqNo: u64)
    ensures ParseAad(Aad(kind, origin, seqNo)) == Some(AadFields(kind, origin, seqNo))
  {
    AadParts(kind, origin, seqNo);
    KindsAreListed(kind);
    KindAtFinds(kind, Encode(origin), ALL_KINDS);
    assert (AsBytes(kind) + Encode(origin))[|AsBytes(kind)|..] == Encode(origin);
    DecodeOfEncode(origin);
    SeqRoundTrip(seqNo);
  }

  // ---------------------------------------------------------------------------
  // Idealised primitives
  // ---------------------------------------------------------------------------

  type Key = seq<byte>
  type PublicKey = seq<byte>
  type Secret = nat

  /** What travels: nonce and ciphertext in their transfer encoding. */
  type Sealed = seq<nat>

  /** The `KeyExchange` interface: the public key of a secret, and secret plus foreign public key to a key. */
  datatype KeyExchange = KeyExchange(publicOf: Secret -> PublicKey, derive: (Secret, PublicKey) -> Key)

  /** Both sides of an exchange derive the same key (section 6.1 of RFC 7748). */
  ghost predicate Symmetric(kx: KeyExchange) {
    forall a, b :: kx.derive(a, kx.publicOf(b)) == kx.derive(b, kx.publicOf(a))
  }

  /** Only the same two secrets come to the same key. */
  ghost predicate NoCollisions(kx: KeyExchange) {
    forall a, b, c, d | kx.derive(a, kx.publicOf(b)) == kx.derive(c, kx.publicOf(d)) :: (a == c && b == d) || (a == d && b == c)
  }

  /** The `Sealer` interface; the random nonce the sealer draws is an argument here. */
  datatype Aead = Aead(
    encrypt: (Key, nat, seq<byte>, seq<byte>) -> Sealed,
    decrypt: (Key, Sealed, seq<byte>) -> Option<seq<byte>>)

  /** Ideal authenticated encryption (section 2 of RFC 5116): a sealed message opens to its plaintext under
      the key and the additional data it was sealed with, and not at all under others. */
  ghost predicate Ideal(aead: Aead) {
    forall k, nonce, plaintext, aad, k', aad' ::
      aead.decrypt(k', aead.encrypt(k, nonce, plaintext, aad), aad')
        == if k' == k && aad' == aad then Some(plaintext) else None
  }

  /** A ciphertext opens only for the key, kind, origin and sequence number it was sealed with. */
  lemma OpensOnlyAsSealed(aead: Aead, k: Key, nonce: nat, plaintext: seq<byte>,
      kind: AadKind, origin: string, seqNo: u64, k': Key, kind': AadKind, origin': string, seqNo': u64)
    requires Ideal(aead)
    ensures aead.decrypt(k', aead.encrypt(k, nonce, plaintext, Aad(kind, origin, seqNo)), Aad(kind', origin', seqNo'))
      == if k' == k && kind' == kind && origin' == origin && seqNo' == seqNo then Some(plaintext) else None
  {
    AadRoundTrip(kind, origin, seqNo);
    AadRoundTrip(kind', origin', seqNo');
  }
}
