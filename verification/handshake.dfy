/** The approval handshake over symbolic cryptography: every primitive is a constructor, so two terms
    are equal exactly when they were built alike. Base64url and hex spellings are left out. */
module Handshake {
  import opened RelayIds
  import opened Wrappers

  /** An ephemeral private key, and the id a knock goes by. */
  type Scalar(==, !new)
  type KnockId(==, !new)
  type Nonce(==, !new)

  datatype Point = Pub(of: Scalar)

  /** The Diffie-Hellman secret of two key pairs, the same from either side. */
  datatype Secret = Shared(pair: set<Scalar>)

  datatype Purpose = TokenWrap | ClaimTag

  datatype Key = Hkdf(secret: Secret, info: Purpose)

  /** A claim tag. Foreign stands for any other string a client may send. */
  datatype Tag = Hmac(key: Key, knock: KnockId) | Foreign(n: int)

  datatype Digest = Sha256(of: Tag)

  datatype Ciphertext = AesGcm(key: Key, nonce: Nonce, plain: TokenId)

  datatype Wrapped = Wrapped(approver: Point, nonce: Nonce, ct: Ciphertext)

  function Agree(own: Scalar, peer: Point): Secret {
    Shared({own, peer.of})
  }

  /** What an approver holds between /approve and /token. */
  datatype Binding = Binding(approver: Point, claimTagHash: Digest, wrapKey: Key)

  function BeginApprove(ephemeral: Scalar, knocker: Point, knock: KnockId): Binding {
    var secret := Agree(ephemeral, knocker);
    Binding(Pub(ephemeral), Sha256(Hmac(Hkdf(secret, ClaimTag), knock)), Hkdf(secret, TokenWrap))
  }

  function Wrap(b: Binding, nonce: Nonce, token: TokenId): Wrapped {
    Wrapped(b.approver, nonce, AesGcm(b.wrapKey, nonce, token))
  }

  datatype Unwrapped = Unwrapped(token: TokenId, tag: Tag)

  /** Authenticated decryption fails under any other key or nonce. */
  function UnwrapAndDeriveClaim(own: Scalar, w: Wrapped, knock: KnockId): Option<Unwrapped> {
    var secret := Agree(own, w.approver);
    if w.ct.key == Hkdf(secret, TokenWrap) && w.ct.nonce == w.nonce
    then Some(Unwrapped(w.ct.plain, Hmac(Hkdf(secret, ClaimTag), knock)))
    else None
  }

  lemma AgreeCommutes(a: Scalar, b: Scalar)
    ensures Agree(a, Pub(b)) == Agree(b, Pub(a))
  {
    assert {a, b} == {b, a};
  }

  /** The knocker gets exactly the token that was wrapped, and a tag that meets the commitment. */
  lemma HandshakeAgrees(ephemeral: Scalar, own: Scalar, knock: KnockId, nonce: Nonce, token: TokenId)
    ensures var b := BeginApprove(ephemeral, Pub(own), knock);
            var u := UnwrapAndDeriveClaim(own, Wrap(b, nonce, token), knock);
            u.Some? && u.value.token == token && Sha256(u.value.tag) == b.claimTagHash
  {
    AgreeCommutes(ephemeral, own);
  }

  lemma AgreeInjective(a: Scalar, b: Scalar, c: Scalar)
    requires Agree(a, Pub(c)) == Agree(b, Pub(c))
    ensures a == b
  {
    assert a in {a, c} && b in {b, c};
  }

  /** Nobody else does: the wrap opens for one private key only, and only the id of the very knock
      that was approved derives the committed tag. */
  lemma HandshakeIsExclusive(ephemeral: Scalar, own: Scalar, knock: KnockId, nonce: Nonce, token: TokenId,
                             other: Scalar, otherKnock: KnockId)
    ensures var b := BeginApprove(ephemeral, Pub(own), knock);
            var u := UnwrapAndDeriveClaim(other, Wrap(b, nonce, token), otherKnock);
            && (u.Some? <==> other == own)
            && (u.Some? ==> (Sha256(u.value.tag) == b.claimTagHash <==> otherKnock == knock))
  {
    AgreeCommutes(ephemeral, own);
    if Agree(other, Pub(ephemeral)) == Agree(own, Pub(ephemeral)) {
      AgreeInjective(other, own, ephemeral);
    }
  }
}
