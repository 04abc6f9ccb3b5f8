/** The JOB message: a 116-byte header derived from one Chain template, followed by the block. */
module MinerJob {
  import opened Basics
  import opened Bytes
  import opened ShareTarget
  import opened RpcClient

  const JOB_MAGIC: seq<byte> := [0x53, 0x54, 0x4e, 0x4d]  // "STNM"
  const JOB_HEADER_SIZE: nat := 116
  const JOB_TAG: seq<byte> := JOB_MAGIC + [1, 1, 0, 0]

  /** The Chain target inside a template. */
  function ChainTarget(t: seq<byte>): Target
    requires |t| >= PREFIX_SIZE + BLOCK_HEADER_SIZE
  {
    t[188..220]
  }

  /** Templates a JOB can be built from. */
  predicate Buildable(t: seq<byte>) {
    PREFIX_SIZE + BLOCK_HEADER_SIZE <= |t| && |t| - PREFIX_SIZE < 0x1_0000_0000
  }

  function JobHeader(t: seq<byte>): (h: seq<byte>)
    requires Buildable(t)
    ensures |h| == JOB_HEADER_SIZE
  {
    JOB_TAG + t[32..64] + ShareTargetOf(ChainTarget(t)) + ChainTarget(t)
    + EncodeBE(4, |t| - PREFIX_SIZE) + t[220..228]
  }

  /** What a miner reads out of the header: the work id, a share target that is the economic rule's
      number and no harder than the Chain's, the Chain target, the length of the block that follows, and
      the initial nonce. */
  lemma JobFields(t: seq<byte>)
    requires Buildable(t)
    ensures var h := JobHeader(t);
            && h[..8] == [0x53, 0x54, 0x4e, 0x4d, 1, 1, 0, 0]
            && h[8..40] == t[32..64]
            && ValueBE(h[40..72]) == ShareValue(ChainTarget(t))
            && h[72..104] == t[188..220]
            && ValueBE(h[104..108]) == |t[PREFIX_SIZE..]|
            && h[108..116] == t[220..228]
  {
    hide ShareTargetOf, ShareValue, ValueBE, EncodeBE;
    ShareIsEasier(ChainTarget(t));
    PowWidths(2, 4, 8);
    hide Pow256;
    ValueOfEncode(4, |t| - PREFIX_SIZE);
    var h := JobHeader(t);
    assert h[40..72] == ShareTargetOf(ChainTarget(t));
    assert h[104..108] == EncodeBE(4, |t| - PREFIX_SIZE);
  }

  /** stn_miner_job_build: fails exactly on templates that are too short, or too long for a u32. */
  method BuildJob(t: seq<byte>) returns (header: Option<seq<byte>>)
    ensures header.Some? <==> Buildable(t)
    ensures header.Some? ==> header.value == JobHeader(t)
  {
    hide ShareTargetOf, EncodeBE;
    if |t| < PREFIX_SIZE {
      return None;
    }
    var block := |t| - PREFIX_SIZE;
    if block < BLOCK_HEADER_SIZE || block > 0xffff_ffff {
      return None;
    }
    var share := JobShareTarget(t[188..220]);
    var h := new byte[JOB_HEADER_SIZE](_ => 0);
    forall i | 0 <= i < 8 { h[i] := JOB_TAG[i]; }
    forall i | 0 <= i < 32 { h[8 + i] := t[32 + i]; }
    forall i | 0 <= i < 32 { h[40 + i] := share[i]; }
    forall i | 0 <= i < 32 { h[72 + i] := t[188 + i]; }
    assert h[..104] == JOB_TAG + t[32..64] + share + t[188..220];
    WriteBE(h, 104, 4, block);
    forall i | 0 <= i < 8 { h[108 + i] := t[220 + i]; }
    assert h[..] == JOB_TAG + t[32..64] + share + t[188..220] + EncodeBE(4, block) + t[220..228];
    return Some(h[..]);
  }
}
