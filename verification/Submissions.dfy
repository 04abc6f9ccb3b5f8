/** What is judged is what is forwarded, and it is forwarded at most once. */
module Submissions {
  import opened Basics
  import opened Bytes
  import opened RpcClient
  import opened Transport
  import ShareTarget
  import ShareVerify
  import Sha256
  import StratumCore
  import opened ServerModel

  /** The header the verdict hashes. */
  function JudgedHeader(t: seq<byte>, nonce: nat): seq<byte>
    requires |t| >= PREFIX_SIZE + BLOCK_HEADER_SIZE
  {
    ShareVerify.WithNonce(t[PREFIX_SIZE..PREFIX_SIZE + BLOCK_HEADER_SIZE], nonce)
  }

  /** The header of a SUBMIT_SHARE payload, with the payload's nonce put in place. */
  function ShareHeader(s: seq<byte>): (h: seq<byte>)
    requires |s| == SHARE_SIZE
    ensures |h| == BLOCK_HEADER_SIZE
  {
    Splice(s[109..277], ShareVerify.NONCE_OFFSET, s[101..109])
  }

  /** The digest is that header's, behind the domain; the block in SUBMIT_WORK starts with the same header
      and differs from the template in the nonce field only; the header in SUBMIT_SHARE becomes the same
      header once the share's own nonce field is put in place. */
  lemma JudgedIsForwarded(t: seq<byte>, jobId: Id32, identity: seq<byte>, nonce: nat)
    requires |t| >= PREFIX_SIZE + BLOCK_HEADER_SIZE && |identity| == IDENTITY_SIZE
    ensures ShareVerify.ProofDigest(t[PREFIX_SIZE..], nonce) == Sha256.Hash(ShareVerify.DOMAIN + JudgedHeader(t, nonce))
    ensures var w := WorkPayload(t, identity, nonce);
            && |w| == |t| + IDENTITY_SIZE
            && w[..68] == t[..68] && w[68..137] == identity
            && w[137..305] == JudgedHeader(t, nonce)
            && w[137..289] == t[68..220] && w[289..297] == EncodeBE(8, nonce) && w[297..] == t[228..]
    ensures var s := SharePayload(t, jobId, identity, nonce);
            && |s| == SHARE_SIZE
            && s[..32] == jobId && s[32..101] == identity && s[101..109] == EncodeBE(8, nonce)
            && ShareHeader(s) == JudgedHeader(t, nonce)
  {
    hide EncodeBE, Sha256.Hash;
    assert t[PREFIX_SIZE..][..BLOCK_HEADER_SIZE] == t[PREFIX_SIZE..PREFIX_SIZE + BLOCK_HEADER_SIZE];
    CandidateParts(t, EncodeBE(8, nonce));
    ShareParts(t, jobId, identity, EncodeBE(8, nonce));
  }

  lemma CandidateParts(t: seq<byte>, field: seq<byte>)
    requires |t| >= PREFIX_SIZE + BLOCK_HEADER_SIZE && |field| == 8
    ensures var b := Splice(t[68..], 152, field);
            b[..152] == t[68..220] && b[152..160] == field && b[160..] == t[228..]
            && b[..168] == Splice(t[68..236], 152, field)
  {
    var block, head := t[68..], t[68..236];
    SpliceParts(block, 152, field);
    assert block[..152] == t[68..220] && block[160..] == t[228..];
    assert head[..152] == block[..152] && head[160..] == block[160..168];
    assert Splice(block, 152, field)[..168] == block[..152] + field + block[160..168];
  }

  lemma ShareParts(t: seq<byte>, jobId: Id32, identity: seq<byte>, field: seq<byte>)
    requires |t| >= PREFIX_SIZE + BLOCK_HEADER_SIZE && |field| == 8 && |identity| == IDENTITY_SIZE
    ensures var s := jobId + identity + field + t[68..236];
            |s| == 277 && s[..32] == jobId && s[32..101] == identity && s[101..109] == field && s[109..277] == t[68..236]
  {
  }

  /** The live encoder and the adapter's produce the same bytes for the same base, id, block, identity
      and nonce exactly when the template's own length field is right and the adapter does not refuse the
      block for leaving no room for the identity. */
  lemma EncodersAgree(t: seq<byte>, identity: seq<byte>, nonce: nat)
    requires |t| >= PREFIX_SIZE + BLOCK_HEADER_SIZE && |t| <= MAX_PAYLOAD
    ensures StratumCore.AdapterRequest(t[..32], t[32..64], t[68..], identity, nonce) == Some(WorkPayload(t, identity, nonce))
            <==> TemplateUsable(t) && |t| + IDENTITY_SIZE <= MAX_PAYLOAD
  {
    PowWidths(2, 4, 8);
    FieldReads(t[64..68], |t| - PREFIX_SIZE);
    hide EncodeBE, ValueBE, Pow256;
    var l, c := EncodeBE(4, |t| - PREFIX_SIZE), Candidate(t, nonce);
    var a := t[..32] + t[32..64] + l + identity + c;
    var w := t[..68] + identity + c;
    assert a[64..68] == l && w[64..68] == t[64..68];
    if l == t[64..68] {
      assert t[..68] == t[..32] + t[32..64] + t[64..68];
    }
  }

  /** The two paths nevertheless never carry the same identity: the server wants a hexadecimal digit where
      the session core wants a terminator. */
  lemma IdentitiesDiffer(frame: seq<byte>)
    requires |frame| == 77 && AddressValid(frame)
    ensures !StratumCore.IdentityOk(frame[8..77])
  {
    assert frame[8..77][68] == frame[76];
    assert frame[76] in HEX;
    assert forall i :: 0 <= i < |HEX| ==> HEX[i] >= 48;
  }

  /** The process_submission scratch buffer: template prefix, identity, block, then the nonce written
      into the block in place. */
  method BuildWorkPayload(t: seq<byte>, identity: seq<byte>, nonce: nat) returns (payload: seq<byte>)
    requires |t| >= PREFIX_SIZE + BLOCK_HEADER_SIZE && |identity| == IDENTITY_SIZE
    ensures payload == WorkPayload(t, identity, nonce)
  {
    hide EncodeBE;
    var all := t[..68] + identity + t[68..];
    var p := new byte[|all|](i requires 0 <= i < |all| => all[i]);
    assert p[..] == all;
    WriteBE(p, 137 + 152, 8, nonce);
    payload := p[..];
    PatchBehind(t[..68] + identity, t[68..], 152, EncodeBE(8, nonce));
  }

  /** The qualifying-share payload: the nonce is stored behind the identity, the header is copied as is. */
  method BuildSharePayload(t: seq<byte>, jobId: Id32, identity: seq<byte>, nonce: nat) returns (payload: seq<byte>)
    requires |t| >= PREFIX_SIZE + BLOCK_HEADER_SIZE && |identity| == IDENTITY_SIZE
    ensures payload == SharePayload(t, jobId, identity, nonce)
  {
    hide EncodeBE;
    var all := jobId + identity + Zeros(8) + t[68..236];
    var p := new byte[|all|](i requires 0 <= i < |all| => all[i]);
    assert p[..] == all;
    WriteBE(p, 101, 8, nonce);
    payload := p[..];
  }

  // ----- at most one mutation per submission

  /** The requests handed to the transport, in order. */
  ghost function Requests(log: seq<Event>): seq<seq<byte>> {
    if log == [] then []
    else
      var e, before := log[|log| - 1], Requests(log[..|log| - 1]);
      if e.Asked? then before + [e.request] else before
  }

  lemma RequestsSnoc(log: seq<Event>, e: Event)
    ensures Requests(log + [e]) == if e.Asked? then Requests(log) + [e.request] else Requests(log)
  {
    assert (log + [e])[..|log|] == log;
  }

  lemma ResultAsksNothing(st: State, k: nat, code: Code, delivered: bool)
    requires k < |st.sessions|
    ensures Requests(SendResult(st, k, code, delivered).log) == Requests(st.log)
    ensures Requests(Remove(st, k).log) == Requests(st.log)
  {
    RequestsSnoc(st.log, ResultSent(st.sessions[k].serial, ResultCode(code)));
    RequestsSnoc(st.log, Removed(st.sessions[k].serial));
  }

  lemma ClearAsksNothing(st: State)
    ensures Requests(ClearWork(st).log) == Requests(st.log)
    ensures Requests(NextServer(st).log) == Requests(st.log)
  {
    RequestsSnoc(st.log, WorkEnded);
  }

  /** Nothing was asked, or one request was, and it is not one the transport would repeat. */
  ghost predicate AsksOnce(log: seq<Event>, log': seq<Event>) {
    || Requests(log') == Requests(log)
    || (exists r: seq<byte> :: !IsRead(r) && Requests(log') == Requests(log) + [r])
  }

  lemma ForwardAsksOnce(st: State, k: nat, op: Word16, payload: seq<byte>, capacity: nat, c: Called, env: Env)
    requires k < |st.sessions| && (op == SUBMIT_WORK || op == SUBMIT_SHARE)
    requires c == Call(st.nextId, op, payload, capacity, env.memory, env.reply) || c == Called(Answer(Invalid, []), st.nextId, None)
    ensures |Recorded(st, c, env.reply).sessions| == |st.sessions|
    ensures var st' := SendResult(Recorded(st, c, env.reply), k, c.answer.code, env.delivered);
            && AsksOnce(st.log, st'.log) && AsksOnce(st.log, ClearWork(st').log)
            && AsksOnce(st.log, NextServer(st').log) && AsksOnce(st.log, NextServer(ClearWork(st')).log)
  {
    hide Requests, IsRead, Request, Judge, SendResult, ClearWork, NextServer;
    var st1 := Recorded(st, c, env.reply);
    if c.request.Some? {
      RequestsSnoc(st.log, Asked(c.request.value, env.reply));
      RequestIsRead(op, TakeId(st.nextId).0, payload);
    }
    var st2 := SendResult(st1, k, c.answer.code, env.delivered);
    ResultAsksNothing(st1, k, c.answer.code, env.delivered);
    ClearAsksNothing(st2);
    ClearAsksNothing(ClearWork(st2));
  }

  lemma SubmitAsksOnce(st: State, k: nat, frame: seq<byte>, env: Env)
    requires k < |st.sessions| && |frame| == 48
    ensures AsksOnce(st.log, HandleSubmit(st, k, frame, env).log)
  {
    hide Requests, SendResult, Remove, ClearWork, NextServer, Recorded, VerdictOf, TargetUsable, SharePayload, WorkPayload, ValueBE, Call;
    ResultAsksNothing(st, k, Stale, env.delivered);
    ResultAsksNothing(st, k, Invalid, env.delivered);
    ResultAsksNothing(st, k, Rejected, env.delivered);
    ResultAsksNothing(st, k, Provider, env.delivered);
    if TemplateUsable(st.template) {
      var nonce := ValueBE(frame[40..48]);
      var share := SharePayload(st.template, st.jobId, st.sessions[k].address, nonce);
      var work := WorkPayload(st.template, st.sessions[k].address, nonce);
      ForwardAsksOnce(st, k, SUBMIT_SHARE, share, 32, SubmitShare(st.nextId, share, env.memory, env.reply), env);
      ForwardAsksOnce(st, k, SUBMIT_WORK, work, 80, SubmitWork(st.nextId, work, env.memory, env.reply), env);
    }
  }

  /** At most once: whatever the network does, one miner SUBMIT asks the Chain for at most one mutation
      and puts at most one complete copy of it on the wire. */
  lemma AtMostOneMutation(st: State, k: nat, frame: seq<byte>, env: Env, link: Link, script: Script, capacity: nat)
    requires k < |st.sessions| && |frame| == 48 && Aligned(link) && capacity >= Transport.HEADER_SIZE
    ensures var st' := HandleSubmit(st, k, frame, env);
            || Requests(st'.log) == Requests(st.log)
            || exists r: seq<byte> ::
                 && Requests(st'.log) == Requests(st.log) + [r]
                 && Copies(Exchange(link, script, r, capacity).attempts, r) <= 1
  {
    hide HandleSubmit, Requests, IsRead, Exchange, Copies, Aligned;
    SubmitAsksOnce(st, k, frame, env);
    var st' := HandleSubmit(st, k, frame, env);
    if Requests(st'.log) != Requests(st.log) {
      var r: seq<byte> :| !IsRead(r) && Requests(st'.log) == Requests(st.log) + [r];
      ExchangeSafety(link, script, r, capacity);
    }
  }

  // ----- winning blocks

  /** The number the header of a submission hashes to. */
  function ProofValue(t: seq<byte>, nonce: nat): nat
    requires |t| >= PREFIX_SIZE + BLOCK_HEADER_SIZE
  {
    ValueBE(Sha256.Hash(ShareVerify.DOMAIN + JudgedHeader(t, nonce)))
  }

  /** The template's own target field, as a number. */
  function ChainValue(t: seq<byte>): nat
    requires |t| >= PREFIX_SIZE + BLOCK_HEADER_SIZE
  {
    ValueBE(t[188..220])
  }

  function ShareLimit(t: seq<byte>): nat
    requires |t| >= PREFIX_SIZE + BLOCK_HEADER_SIZE
  {
    ShareTarget.ShareValue(t[188..220])
  }

  /** A SUBMIT of session k that can be judged: on active work whose target is in range. */
  ghost predicate Judged(st: State, k: nat, frame: seq<byte>) {
    && k < |st.sessions| && |frame| == 48 && st.sessions[k].registered
    && st.haveWork && frame[8..40] == st.jobId
    && TemplateUsable(st.template) && 1 <= ChainValue(st.template) <= ShareTarget.MaxTarget()
  }

  ghost function ProofOf(st: State, frame: seq<byte>): nat
    requires |frame| == 48 && |st.template| >= PREFIX_SIZE + BLOCK_HEADER_SIZE
  {
    ProofValue(st.template, ValueBE(frame[40..48]))
  }

  /** A SUBMIT of session k that wins a block. */
  ghost predicate Winning(st: State, k: nat, frame: seq<byte>) {
    Judged(st, k, frame) && ProofOf(st, frame) <= ChainValue(st.template)
  }

  /** A SUBMIT of session k that is a share and no block. */
  ghost predicate Sharing(st: State, k: nat, frame: seq<byte>) {
    Judged(st, k, frame) && ChainValue(st.template) < ProofOf(st, frame) <= ShareLimit(st.template)
  }

  /** The server's verdict is the comparison of these numbers. */
  lemma VerdictNumbers(t: seq<byte>, nonce: nat)
    requires |t| >= PREFIX_SIZE + BLOCK_HEADER_SIZE && 1 <= ChainValue(t) <= ShareTarget.MaxTarget()
    ensures TargetUsable(t)
    ensures VerdictOf(t, nonce) == ShareVerify.BlockShare <==> ProofValue(t, nonce) <= ChainValue(t)
    ensures VerdictOf(t, nonce) == ShareVerify.QualifyingShare <==> ChainValue(t) < ProofValue(t, nonce) <= ShareLimit(t)
    ensures VerdictOf(t, nonce) == ShareVerify.InvalidShare <==> ProofValue(t, nonce) > ShareLimit(t)
  {
    hide ShareVerify.ProofDigest, Sha256.Hash, JudgedHeader, ShareHeader, WorkPayload, SharePayload, ValueBE, EncodeBE,
         ShareVerify.Verdict, ShareTarget.ShareValue, ShareTarget.MaxTarget, ShareTarget.ShareTargetOf;
    JudgedIsForwarded(t, ZERO, NO_ADDRESS, nonce);
    ShareVerify.NumericPartition(t[PREFIX_SIZE..], nonce, t[188..220]);
  }

  lemma UsableRange(t: seq<byte>)
    requires |t| >= PREFIX_SIZE + BLOCK_HEADER_SIZE
    ensures TargetUsable(t) <==> 1 <= ChainValue(t) <= ShareTarget.MaxTarget()
  {
    hide ValueBE, ShareTarget.MaxTarget;
  }

  ghost predicate Fits(t: seq<byte>) {
    |t| + IDENTITY_SIZE <= MAX_PAYLOAD
  }

  /** A winning block is put to the Chain exactly when all buffers can be had and the template leaves room
      for the miner's identity in one STNC payload; otherwise nothing is asked. */
  lemma BlockReachesChain(st: State, k: nat, frame: seq<byte>, env: Env)
    requires Winning(st, k, frame)
    ensures var w := WorkPayload(st.template, st.sessions[k].address, ValueBE(frame[40..48]));
            |w| <= MAX_PAYLOAD <==> Fits(st.template)
    ensures var w := WorkPayload(st.template, st.sessions[k].address, ValueBE(frame[40..48]));
            Requests(HandleSubmit(st, k, frame, env).log)
            == if env.scratch && env.memory && Fits(st.template)
               then Requests(st.log) + [Request(SUBMIT_WORK, TakeId(st.nextId).0, w)] else Requests(st.log)
  {
    hide Requests, SendResult, ClearWork, NextServer, VerdictOf, TargetUsable, Judge, Request, ValueBE, ProofValue, ChainValue,
         ShareTarget.MaxTarget, ShareLimit;
    var nonce := ValueBE(frame[40..48]);
    VerdictNumbers(st.template, nonce);
    var w := WorkPayload(st.template, st.sessions[k].address, nonce);
    assert |w| == |st.template| + IDENTITY_SIZE by {
      hide EncodeBE;
    }
    hide WorkPayload;
    var c := SubmitWork(st.nextId, w, env.memory, env.reply);
    ResultAsksNothing(st, k, Provider, env.delivered);
    WorkAsks(st, k, c, env);
  }

  /** A share is put to the Chain exactly when the RPC buffers can be had. */
  lemma ShareReachesChain(st: State, k: nat, frame: seq<byte>, env: Env)
    requires Sharing(st, k, frame)
    ensures var s := SharePayload(st.template, st.jobId, st.sessions[k].address, ValueBE(frame[40..48]));
            && |s| <= MAX_PAYLOAD
            && Requests(HandleSubmit(st, k, frame, env).log)
               == if env.memory then Requests(st.log) + [Request(SUBMIT_SHARE, TakeId(st.nextId).0, s)] else Requests(st.log)
  {
    hide Requests, SendResult, ClearWork, NextServer, VerdictOf, TargetUsable, Judge, Request, ValueBE, ProofValue, ChainValue,
         ShareTarget.MaxTarget, ShareLimit, SharePayload;
    var nonce := ValueBE(frame[40..48]);
    VerdictNumbers(st.template, nonce);
    var s := SharePayload(st.template, st.jobId, st.sessions[k].address, nonce);
    WorkAsks(st, k, SubmitShare(st.nextId, s, env.memory, env.reply), env);
  }

  /** Everything else asks nothing. */
  lemma NothingElseAsks(st: State, k: nat, frame: seq<byte>, env: Env)
    requires k < |st.sessions| && |frame| == 48 && !Winning(st, k, frame) && !Sharing(st, k, frame)
    ensures Requests(HandleSubmit(st, k, frame, env).log) == Requests(st.log)
  {
    hide Requests, SendResult, Remove, ClearWork, NextServer, VerdictOf, TargetUsable, ForwardShare, ForwardBlock, ValueBE,
         ProofValue, ChainValue, ShareTarget.MaxTarget, ShareLimit;
    ResultAsksNothing(st, k, Stale, env.delivered);
    ResultAsksNothing(st, k, Invalid, env.delivered);
    ResultAsksNothing(st, k, Rejected, env.delivered);
    if TemplateUsable(st.template) {
      UsableRange(st.template);
      if TargetUsable(st.template) {
        VerdictNumbers(st.template, ValueBE(frame[40..48]));
      }
    }
  }

  /** What a SUBMIT asks of the Chain, in numbers: with d the value its header hashes to, the work request
      when d is within the Chain target, all buffers can be had and the block fits; the share request when
      d is above that and within the share limit and the buffers can be had; and otherwise nothing. */
  lemma WhatIsAsked(st: State, k: nat, frame: seq<byte>, env: Env)
    requires k < |st.sessions| && |frame| == 48 && (st.haveWork ==> TemplateUsable(st.template))
    ensures var asked := Requests(HandleSubmit(st, k, frame, env).log);
            var s := st.sessions[k];
            if s.registered && st.haveWork && frame[8..40] == st.jobId && 1 <= ValueBE(st.template[188..220]) <= ShareTarget.MaxTarget()
            then
              var t, nonce := st.template, ValueBE(frame[40..48]);
              var d := ValueBE(Sha256.Hash(ShareVerify.DOMAIN + JudgedHeader(t, nonce)));
              if d <= ValueBE(t[188..220]) then
                (if env.scratch && env.memory && |t| + 69 <= MAX_PAYLOAD
                 then |WorkPayload(t, s.address, nonce)| <= MAX_PAYLOAD
                      && asked == Requests(st.log) + [Request(0x2003, TakeId(st.nextId).0, WorkPayload(t, s.address, nonce))]
                 else asked == Requests(st.log))
              else if d <= ShareTarget.ShareValue(t[188..220]) then
                (if env.memory
                 then |SharePayload(t, st.jobId, s.address, nonce)| <= MAX_PAYLOAD
                      && asked == Requests(st.log) + [Request(0x2004, TakeId(st.nextId).0, SharePayload(t, st.jobId, s.address, nonce))]
                 else asked == Requests(st.log))
              else asked == Requests(st.log)
            else asked == Requests(st.log)
  {
    hide Requests, HandleSubmit, Request, ValueBE, ShareTarget.MaxTarget, ShareTarget.ShareValue, WorkPayload, SharePayload,
         Sha256.Hash, JudgedHeader;
    if Winning(st, k, frame) {
      BlockReachesChain(st, k, frame, env);
    } else if Sharing(st, k, frame) {
      ShareReachesChain(st, k, frame, env);
    } else {
      NothingElseAsks(st, k, frame, env);
    }
  }

  lemma WorkAsks(st: State, k: nat, c: Called, env: Env)
    requires k < |st.sessions|
    ensures Recorded(st, c, env.reply).sessions == st.sessions
    ensures var st' := SendResult(Recorded(st, c, env.reply), k, c.answer.code, env.delivered);
            var asked := if c.request.Some? then Requests(st.log) + [c.request.value] else Requests(st.log);
            && Requests(st'.log) == asked && Requests(ClearWork(st').log) == asked
            && Requests(NextServer(st').log) == asked && Requests(NextServer(ClearWork(st')).log) == asked
  {
    hide Requests, SendResult, ClearWork, NextServer;
    var st1 := Recorded(st, c, env.reply);
    if c.request.Some? {
      RequestsSnoc(st.log, Asked(c.request.value, env.reply));
    }
    var st2 := SendResult(st1, k, c.answer.code, env.delivered);
    ResultAsksNothing(st1, k, c.answer.code, env.delivered);
    ClearAsksNothing(st2);
    ClearAsksNothing(ClearWork(st2));
  }
}
