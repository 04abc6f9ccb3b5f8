/** Judging a submitted nonce: the block header is hashed with the nonce in place and the digest is
    compared with the share target and the Chain target. */
module ShareVerify {
  import opened Basics
  import opened Bytes
  import opened ShareTarget
  import Sha256

  const HEADER_SIZE: nat := 168
  const NONCE_OFFSET: nat := 152

  /** The hash domain, with the terminating zero that sizeof counts. */
  const DOMAIN: seq<byte> := Ascii("STN-CHAIN:BLOCK:ID:1") + [0]

  /** "STN-CHAIN:BLOCK:ID:1" and the zero byte. */
  lemma DomainBytes()
    ensures DOMAIN == [0x53, 0x54, 0x4e, 0x2d, 0x43, 0x48, 0x41, 0x49, 0x4e, 0x3a, 0x42, 0x4c, 0x4f, 0x43, 0x4b, 0x3a,
                       0x49, 0x44, 0x3a, 0x31, 0]
  {
  }

  datatype ShareClass = InvalidShare | QualifyingShare | BlockShare

  /** The header with its nonce field replaced and nothing else. */
  function WithNonce(header: seq<byte>, nonce: nat): (r: seq<byte>)
    requires |header| >= HEADER_SIZE
    ensures |r| == |header|
  {
    Splice(header, NONCE_OFFSET, EncodeBE(8, nonce))
  }

  /** The digest a nonce earns on a block. */
  function ProofDigest(block: seq<byte>, nonce: nat): Target
    requires |block| >= HEADER_SIZE
  {
    Sha256.Hash(DOMAIN + WithNonce(block[..HEADER_SIZE], nonce))
  }

  /** The verdict, stated on the numbers the byte strings denote. */
  function Verdict(block: seq<byte>, nonce: nat, share: Target, chain: Target): ShareClass {
    if |block| < HEADER_SIZE || ValueBE(ProofDigest(block, nonce)) > ValueBE(share) then InvalidShare
    else if ValueBE(ProofDigest(block, nonce)) <= ValueBE(chain) then BlockShare
    else QualifyingShare
  }

  /** le: the early-exit byte scan is integer order. */
  method Le(a: Target, b: Target) returns (r: bool)
    ensures r <==> ValueBE(a) <= ValueBE(b)
  {
    hide ValueBE;
    for i := 0 to 32
      invariant a[..i] == b[..i]
    {
      if a[i] < b[i] {
        ValueOrder(a, b, i);
        return true;
      }
      if a[i] > b[i] {
        ValueOrder(b, a, i);
        return false;
      }
    }
    assert a[..32] == a && b[..32] == b;
    return true;
  }

  /** stn_share_classify: a short block is invalid; otherwise the digest is delivered only with a
      qualifying or block verdict. */
  method Classify(block: seq<byte>, nonce: uint64, share: Target, chain: Target)
    returns (verdict: ShareClass, digest: Option<Target>)
    ensures verdict == Verdict(block, nonce as int, share, chain)
    ensures digest.Some? <==> verdict != InvalidShare
    ensures digest.Some? ==> digest.value == ProofDigest(block, nonce as int)
  {
    hide ProofDigest, ValueBE;
    if |block| < HEADER_SIZE {
      return InvalidShare, None;
    }
    var hash := ProofHash(block, nonce as int);
    var reachesShare := Le(hash, share);
    if !reachesShare {
      return InvalidShare, None;
    }
    var reachesChain := Le(hash, chain);
    return if reachesChain then BlockShare else QualifyingShare, Some(hash);
  }

  /** The header is copied, its nonce overwritten in place, and hashed behind the domain. */
  method ProofHash(block: seq<byte>, nonce: nat) returns (hash: Target)
    requires |block| >= HEADER_SIZE
    ensures hash == ProofDigest(block, nonce)
  {
    hide Sha256.Hash, Sha256.Absorbed, EncodeBE;
    var header := new byte[HEADER_SIZE](i requires 0 <= i < HEADER_SIZE => block[i]);
    assert header[..] == block[..HEADER_SIZE];
    WriteBE(header, NONCE_OFFSET, 8, nonce);
    var patched := header[..];
    var c := new Sha256.Context();
    c.Update(DOMAIN);
    c.Update(patched);
    assert c.fed == DOMAIN + patched;
    hash := c.Finish();
  }

  /** Whenever the server's share target exists the three verdicts partition the digests numerically:
      block up to the Chain target, qualifying from there to min(2^255 - 1, 10 * Chain target). */
  lemma NumericPartition(block: seq<byte>, nonce: nat, chain: Target)
    requires |block| >= HEADER_SIZE && 1 <= ValueBE(chain) <= MaxTarget()
    ensures var d := ValueBE(ProofDigest(block, nonce));
            var v := Verdict(block, nonce, ShareTargetOf(chain), chain);
            && (v == BlockShare <==> d <= ValueBE(chain))
            && (v == QualifyingShare <==> ValueBE(chain) < d <= ShareValue(chain))
            && (v == InvalidShare <==> d > ShareValue(chain))
  {
    hide ProofDigest, ValueBE, ShareTargetOf;
    ShareIsEasier(chain);
  }
}
