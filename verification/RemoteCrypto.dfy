/**
 Session keys of the remote protocol (packages/remote-control/src/crypto.ts).

 X25519 and HKDF are parameters: `Primitives` holds them as functions, and the laws the
 protocol relies on are stated as predicates. A sealed frame remembers the key it was
 sealed under; opening it succeeds for that key only.
 */
module RemoteCrypto {
  import opened Results

  type Byte = b: int | 0 <= b < 256

  type Bytes = seq<Byte>

  const KEY_LENGTH := 32

  datatype Role = Mobile | Desktop

  function Opposite(role: Role): Role {
    if role == Mobile then Desktop else Mobile
  }

  datatype KeyPair = KeyPair(secretKey: Bytes, publicKey: Bytes)

  datatype SessionKeys = SessionKeys(sendKey: Bytes, receiveKey: Bytes)

  // `hkdf` yields the two halves of the 64 bytes it derives.
  datatype Primitives = Primitives(
    publicKey: Bytes -> Bytes,
    sharedSecret: (Bytes, Bytes) -> Bytes,
    hkdf: (Bytes, Bytes) -> (Bytes, Bytes))

  // Diffie-Hellman commutes.
  ghost predicate Commutes(p: Primitives) {
    forall a, b :: p.sharedSecret(a, p.publicKey(b)) == p.sharedSecret(b, p.publicKey(a))
  }

  ghost predicate FixedLength(p: Primitives) {
    forall a :: |p.publicKey(a)| == KEY_LENGTH
  }

  // No two different inputs of HKDF share their first or their second half.
  ghost predicate CollisionFree(p: Primitives) {
    forall ikm, salt, ikm', salt' ::
      p.hkdf(ikm, salt).0 == p.hkdf(ikm', salt').0 || p.hkdf(ikm, salt).1 == p.hkdf(ikm', salt').1 ==>
        ikm == ikm' && salt == salt'
  }

  function MakeKeyPair(p: Primitives, secretKey: Bytes): (pair: KeyPair) {
    KeyPair(secretKey, p.publicKey(secretKey))
  }

  ghost predicate Matching(p: Primitives, pair: KeyPair) {
    pair == MakeKeyPair(p, pair.secretKey)
  }

  // `decodePublicKey` accepts 32 bytes.
  predicate IsPublicKey(key: Bytes) {
    |key| == KEY_LENGTH
  }

  function DeriveSessionKeys(p: Primitives, role: Role, identity: KeyPair, ephemeral: KeyPair,
                             peerIdentityKey: Bytes, peerEphemeralKey: Bytes): SessionKeys
  {
    var ephemeralShared := p.sharedSecret(ephemeral.secretKey, peerEphemeralKey);
    var staticToPeerEphemeral := p.sharedSecret(identity.secretKey, peerEphemeralKey);
    var ephemeralToPeerStatic := p.sharedSecret(ephemeral.secretKey, peerIdentityKey);
    var mobileFirst := role == Mobile;
    var ikm := ephemeralShared
               + (if mobileFirst then staticToPeerEphemeral else ephemeralToPeerStatic)
               + (if mobileFirst then ephemeralToPeerStatic else staticToPeerEphemeral);
    var salt := if mobileFirst
                then identity.publicKey + peerIdentityKey + ephemeral.publicKey + peerEphemeralKey
                else peerIdentityKey + identity.publicKey + peerEphemeralKey + ephemeral.publicKey;
    var (mobileToDesktop, desktopToMobile) := p.hkdf(ikm, salt);
    if mobileFirst
    then SessionKeys(mobileToDesktop, desktopToMobile)
    else SessionKeys(desktopToMobile, mobileToDesktop)
  }

  // What one end seals the other end can open, in both directions.
  predicate Agree(a: SessionKeys, b: SessionKeys) {
    a.sendKey == b.receiveKey && b.sendKey == a.receiveKey
  }

  // Both ends derive mirrored keys when each used the other's public keys.
  lemma DerivedKeysAgree(p: Primitives, identityM: KeyPair, ephemeralM: KeyPair, identityD: KeyPair, ephemeralD: KeyPair)
    requires Commutes(p)
    requires Matching(p, identityM) && Matching(p, ephemeralM) && Matching(p, identityD) && Matching(p, ephemeralD)
    ensures Agree(
              DeriveSessionKeys(p, Mobile, identityM, ephemeralM, identityD.publicKey, ephemeralD.publicKey),
              DeriveSessionKeys(p, Desktop, identityD, ephemeralD, identityM.publicKey, ephemeralM.publicKey))
  {
    assert p.sharedSecret(ephemeralM.secretKey, p.publicKey(ephemeralD.secretKey))
        == p.sharedSecret(ephemeralD.secretKey, p.publicKey(ephemeralM.secretKey));
    assert p.sharedSecret(identityM.secretKey, p.publicKey(ephemeralD.secretKey))
        == p.sharedSecret(ephemeralD.secretKey, p.publicKey(identityM.secretKey));
    assert p.sharedSecret(ephemeralM.secretKey, p.publicKey(identityD.secretKey))
        == p.sharedSecret(identityD.secretKey, p.publicKey(ephemeralM.secretKey));
  }

  lemma SplitFour(a: Bytes, b: Bytes, c: Bytes, d: Bytes, a': Bytes, b': Bytes, c': Bytes, d': Bytes)
    requires |a| == |a'| == |b| == |b'| == |c| == |c'|
    requires a + b + c + d == a' + b' + c' + d'
    ensures a == a' && b == b' && c == c' && d == d'
  {
    var all := a + b + c + d;
    var n := |a|;
    assert all[..n] == a && all[n..2 * n] == b && all[2 * n..3 * n] == c && all[3 * n..] == d;
    assert all[..n] == a' && all[n..2 * n] == b' && all[2 * n..3 * n] == c' && all[3 * n..] == d';
  }

  // Conversely, one end can open what the other seals, in either direction, only if both
  // derived their keys from the same four public keys.
  lemma SharedKeyMeansSharedInputs(p: Primitives, identityM: KeyPair, ephemeralM: KeyPair, peerIdentityM: Bytes, peerEphemeralM: Bytes,
                                   identityD: KeyPair, ephemeralD: KeyPair, peerIdentityD: Bytes, peerEphemeralD: Bytes)
    requires CollisionFree(p)
    requires IsPublicKey(identityM.publicKey) && IsPublicKey(ephemeralM.publicKey)
    requires IsPublicKey(identityD.publicKey) && IsPublicKey(ephemeralD.publicKey)
    requires IsPublicKey(peerIdentityM) && IsPublicKey(peerEphemeralM)
    requires IsPublicKey(peerIdentityD) && IsPublicKey(peerEphemeralD)
    requires var m := DeriveSessionKeys(p, Mobile, identityM, ephemeralM, peerIdentityM, peerEphemeralM);
             var d := DeriveSessionKeys(p, Desktop, identityD, ephemeralD, peerIdentityD, peerEphemeralD);
             m.sendKey == d.receiveKey || d.sendKey == m.receiveKey
    ensures peerEphemeralD == ephemeralM.publicKey && peerEphemeralM == ephemeralD.publicKey
    ensures peerIdentityD == identityM.publicKey && peerIdentityM == identityD.publicKey
  {
    SplitFour(identityM.publicKey, peerIdentityM, ephemeralM.publicKey, peerEphemeralM,
              peerIdentityD, identityD.publicKey, peerEphemeralD, ephemeralD.publicKey);
  }

  // Both ends make their keys from one secret: what the ephemeral keys share, then what the identity of the
  // mobile shares with the ephemeral key of the desktop, then the converse; salted with the public keys, each
  // time the mobile first. The first half of what is derived protects what the mobile sends.
  lemma KeysComeFromOneSecret(p: Primitives, identityM: KeyPair, ephemeralM: KeyPair, identityD: KeyPair, ephemeralD: KeyPair)
    requires Commutes(p)
    requires Matching(p, identityM) && Matching(p, ephemeralM) && Matching(p, identityD) && Matching(p, ephemeralD)
    ensures
      var secret := p.sharedSecret(ephemeralM.secretKey, ephemeralD.publicKey)
                    + p.sharedSecret(identityM.secretKey, ephemeralD.publicKey)
                    + p.sharedSecret(ephemeralM.secretKey, identityD.publicKey);
      var salt := identityM.publicKey + identityD.publicKey + ephemeralM.publicKey + ephemeralD.publicKey;
      var mobile := DeriveSessionKeys(p, Mobile, identityM, ephemeralM, identityD.publicKey, ephemeralD.publicKey);
      var desktop := DeriveSessionKeys(p, Desktop, identityD, ephemeralD, identityM.publicKey, ephemeralM.publicKey);
      && mobile.sendKey == desktop.receiveKey == p.hkdf(secret, salt).0
      && desktop.sendKey == mobile.receiveKey == p.hkdf(secret, salt).1
  {
    DerivedKeysAgree(p, identityM, ephemeralM, identityD, ephemeralD);
  }
}
