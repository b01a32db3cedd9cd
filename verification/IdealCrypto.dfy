/** The laws assumed of the key exchange and of the sealer can be met, so what follows from them is not vacuous. */
module IdealCrypto {
  import opened Wrappers
  import opened Utf8
  import opened Crypto

  /** A transparent box that carries key and additional data along. */
  function Box(k: Key, nonce: nat, plaintext: seq<byte>, aad: seq<byte>): Sealed {
    [|k|, |plaintext|] + (k + (plaintext + aad))
  }

  function Unbox(k: Key, c: Sealed, aad: seq<byte>): Option<seq<byte>> {
    if |c| < 2 || c[0] != |k| || |c| != 2 + |k| + c[1] + |aad| then None else
    var payload := c[2 + |k|..2 + |k| + c[1]];
    if c[2..2 + |k|] == k && c[2 + |k| + c[1]..] == aad && forall i | 0 <= i < |payload| :: payload[i] < 0x100
    then Some(AsByteSeq(payload)) else None
  }

  function AsByteSeq(s: seq<nat>): seq<byte>
    requires forall i | 0 <= i < |s| :: s[i] < 0x100
  {
    seq(|s|, i requires 0 <= i < |s| => s[i])
  }

  lemma BoxOpens(k: Key, nonce: nat, plaintext: seq<byte>, aad: seq<byte>, k': Key, aad': seq<byte>)
    ensures Unbox(k', Box(k, nonce, plaintext, aad), aad') == if k' == k && aad' == aad then Some(plaintext) else None
  {
    var c := Box(k, nonce, plaintext, aad);
    assert c[0] == |k| && c[1] == |plaintext| && |c| == 2 + |k| + |plaintext| + |aad|;
    assert c[2..2 + |k|] == k;
    assert c[2 + |k|..2 + |k| + |plaintext|] == plaintext;
    assert c[2 + |k| + |plaintext|..] == aad;
    assert AsByteSeq(plaintext) == plaintext;
  }

  lemma IdealAeadExists()
    ensures exists aead :: Ideal(aead)
  {
    var aead := Aead(Box, Unbox);
    forall k, nonce, plaintext, aad, k', aad'
      ensures aead.decrypt(k', aead.encrypt(k, nonce, plaintext, aad), aad')
        == if k' == k && aad' == aad then Some(plaintext) else None
    {
      BoxOpens(k, nonce, plaintext, aad, k', aad');
    }
    assert Ideal(aead);
  }

  function Copies(n: nat, b: byte): seq<byte> { seq(n, _ => b) }

  /** A transparent exchange whose key tells the two secrets, but not which is whose. */
  function PublicOf(s: Secret): PublicKey { Copies(s, 0) }

  function Derive(s: Secret, p: PublicKey): Key {
    if s <= |p| then Copies(s, 0) + Copies(|p|, 1) else Copies(|p|, 0) + Copies(s, 1)
  }

  lemma ZerosThenOnes(m: nat, n: nat, m': nat, n': nat)
    requires Copies(m, 0) + Copies(n, 1) == Copies(m', 0) + Copies(n', 1) && 0 < n && 0 < n'
    ensures m == m' && n == n'
  {
    var s := Copies(m, 0) + Copies(n, 1);
    assert forall i | 0 <= i < |s| :: s[i] == 0 <==> i < m;
    assert forall i | 0 <= i < |s| :: s[i] == 0 <==> i < m';
    assert s[m] == 1 && s[m'] == 1;
  }

  lemma DeriveTellsSecrets(a: Secret, b: Secret, c: Secret, d: Secret)
    requires Derive(a, PublicOf(b)) == Derive(c, PublicOf(d))
    ensures (a == c && b == d) || (a == d && b == c)
  {
    var m, n := if a <= b then a else b, if a <= b then b else a;
    var m', n' := if c <= d then c else d, if c <= d then d else c;
    assert |Derive(a, PublicOf(b))| == m + n && |Derive(c, PublicOf(d))| == m' + n';
    if 0 < n && 0 < n' {
      ZerosThenOnes(m, n, m', n');
    }
  }

  lemma SymmetricExchangeExists()
    ensures exists kx :: Symmetric(kx) && NoCollisions(kx)
  {
    var kx := KeyExchange(PublicOf, Derive);
    forall a, b, c, d | kx.derive(a, kx.publicOf(b)) == kx.derive(c, kx.publicOf(d)) ensures (a == c && b == d) || (a == d && b == c) {
      DeriveTellsSecrets(a, b, c, d);
    }
    assert Symmetric(kx) && NoCollisions(kx);
  }
}
