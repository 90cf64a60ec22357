/** What compilation preserves, stated on the instructions themselves and on the message that is read back. */
module CompilerMeaning {
  import opened Common
  import opened MessageFormat
  import opened MessageCompiler
  import opened CompilerGuarantees

  // ── What is asked for ──

  /** Some account of the instruction is this key. */
  ghost predicate Uses(ix: Instruction, key: Bytes) {
    exists j :: 0 <= j < |ix.accounts| && ix.accounts[j].pubkey == key
  }

  ghost predicate Signs(ix: Instruction, key: Bytes) {
    exists j :: 0 <= j < |ix.accounts| && ix.accounts[j].pubkey == key && ix.accounts[j].isSigner
  }

  ghost predicate Writes(ix: Instruction, key: Bytes) {
    exists j :: 0 <= j < |ix.accounts| && ix.accounts[j].pubkey == key && ix.accounts[j].isWritable
  }

  /** The payer, the signer, and every account and program of an instruction. */
  ghost predicate IsAsked(decode: Decoder, ixs: seq<Instruction>, feePayer: Bytes, signer: Bytes, key: Bytes) {
    || key == feePayer || key == signer
    || (exists k :: 0 <= k < |ixs| && Uses(ixs[k], key))
    || (exists k :: 0 <= k < |ixs| && decode(ixs[k].programId) == Some(key))
  }

  ghost predicate MustSign(ixs: seq<Instruction>, feePayer: Bytes, signer: Bytes, key: Bytes) {
    key == feePayer || key == signer || exists k :: 0 <= k < |ixs| && Signs(ixs[k], key)
  }

  ghost predicate MayBeWritten(ixs: seq<Instruction>, feePayer: Bytes, signer: Bytes, key: Bytes) {
    key == feePayer || key == signer || exists k :: 0 <= k < |ixs| && Writes(ixs[k], key)
  }

  ghost function AskedKeys(decode: Decoder, ixs: seq<Instruction>, feePayer: Bytes, signer: Bytes): set<Bytes> {
    {feePayer, signer}
    + (set k, j | 0 <= k < |ixs| && 0 <= j < |ixs[k].accounts| :: ixs[k].accounts[j].pubkey)
    + (set k | 0 <= k < |ixs| && decode(ixs[k].programId).Some? :: decode(ixs[k].programId).value)
  }

  ghost function SigningKeys(ixs: seq<Instruction>, feePayer: Bytes, signer: Bytes): set<Bytes> {
    {feePayer, signer}
    + (set k, j | 0 <= k < |ixs| && 0 <= j < |ixs[k].accounts| && ixs[k].accounts[j].isSigner :: ixs[k].accounts[j].pubkey)
  }

  // ── What the message says ──

  ghost predicate KeySays(m: Message, i: nat, decode: Decoder, ixs: seq<Instruction>, feePayer: Bytes, signer: Bytes)
    requires i < |m.keys|
  {
    && IsAsked(decode, ixs, feePayer, signer, m.keys[i])
    && (i < m.signers <==> MustSign(ixs, feePayer, signer, m.keys[i]))
    && ((i < m.signers - m.readonlySigned || (m.signers <= i < |m.keys| - m.readonlyUnsigned))
        <==> MayBeWritten(ixs, feePayer, signer, m.keys[i]))
  }

  ghost predicate SaysInstruction(decode: Decoder, m: Message, c: Compiled, ix: Instruction) {
    && c.program < |m.keys| && decode(ix.programId) == Some(m.keys[c.program])
    && |c.accounts| == |ix.accounts|
    && (forall j :: 0 <= j < |ix.accounts| ==> c.accounts[j] < |m.keys| && m.keys[c.accounts[j]] == ix.accounts[j].pubkey)
    && c.data == ix.data
  }

  /** The message asks for exactly what the instructions ask for, and means these instructions. */
  ghost predicate Says(
    decode: Decoder, m: Message, ixs: seq<Instruction>, feePayer: Bytes, signer: Bytes, blockhash: Bytes)
  {
    && |m.keys| > 0 && m.keys[0] == feePayer
    && (forall i, j :: 0 <= i < j < |m.keys| ==> m.keys[i] != m.keys[j])
    && (forall key :: IsAsked(decode, ixs, feePayer, signer, key) ==> key in m.keys)
    && (forall i :: 0 <= i < |m.keys| ==> KeySays(m, i, decode, ixs, feePayer, signer))
    && m.blockhash == blockhash
    && |m.ixs| == |ixs|
    && (forall k :: 0 <= k < |ixs| ==> SaysInstruction(decode, m, m.ixs[k], ixs[k]))
  }

  // ── The same as requests ──

  lemma {:induction false} AccountIff(ixs: seq<Instruction>, key: Bytes)
    ensures Requested(AccountRequests(ixs), key) <==> exists k :: 0 <= k < |ixs| && Uses(ixs[k], key)
    ensures SignerRequested(AccountRequests(ixs), key) <==> exists k :: 0 <= k < |ixs| && Signs(ixs[k], key)
    ensures WritableRequested(AccountRequests(ixs), key) <==> exists k :: 0 <= k < |ixs| && Writes(ixs[k], key)
    decreases ixs
  {
    if ixs != [] {
      var init, last := ixs[..|ixs| - 1], ixs[|ixs| - 1];
      AccountIff(init, key);
      RequestsConcat(AccountRequests(init), last.accounts, key);
      SomeSnoc(init, last, key);
      assert init + [last] == ixs;
    }
  }

  lemma {:induction false} SomeSnoc(ixs: seq<Instruction>, last: Instruction, key: Bytes)
    ensures (exists k :: 0 <= k < |ixs + [last]| && Uses((ixs + [last])[k], key))
      <==> (exists k :: 0 <= k < |ixs| && Uses(ixs[k], key)) || Uses(last, key)
    ensures (exists k :: 0 <= k < |ixs + [last]| && Signs((ixs + [last])[k], key))
      <==> (exists k :: 0 <= k < |ixs| && Signs(ixs[k], key)) || Signs(last, key)
    ensures (exists k :: 0 <= k < |ixs + [last]| && Writes((ixs + [last])[k], key))
      <==> (exists k :: 0 <= k < |ixs| && Writes(ixs[k], key)) || Writes(last, key)
  {
    var all := ixs + [last];
    assert all[|ixs|] == last;
    assert forall k :: 0 <= k < |ixs| ==> all[k] == ixs[k];
  }

  lemma {:induction false} RequestsConcat(a: seq<Meta>, b: seq<Meta>, key: Bytes)
    ensures Requested(a + b, key) <==> Requested(a, key) || Requested(b, key)
    ensures SignerRequested(a + b, key) <==> SignerRequested(a, key) || SignerRequested(b, key)
    ensures WritableRequested(a + b, key) <==> WritableRequested(a, key) || WritableRequested(b, key)
  {
    assert forall i :: 0 <= i < |a| ==> (a + b)[i] == a[i];
    assert forall i :: 0 <= i < |b| ==> (a + b)[|a| + i] == b[i];
  }

  lemma {:induction false} ProgramIff(decode: Decoder, ixs: seq<Instruction>, key: Bytes)
    requires Decodable(decode, ProgramIds(ixs))
    ensures Requested(ProgramRequests(decode, ProgramIds(ixs)), key)
      <==> exists k :: 0 <= k < |ixs| && decode(ixs[k].programId) == Some(key)
    ensures !SignerRequested(ProgramRequests(decode, ProgramIds(ixs)), key)
    ensures !WritableRequested(ProgramRequests(decode, ProgramIds(ixs)), key)
  {
    var ids := ProgramIds(ixs);
    if Requested(ProgramRequests(decode, ids), key) {
      var i :| 0 <= i < |ids| && ProgramRequests(decode, ids)[i].pubkey == key;
      HasIff(ids, ids[i]);
      ProgramIdsCover(ixs, ids[i]);
      var k :| 0 <= k < |ixs| && ixs[k].programId == ids[i];
      assert decode(ixs[k].programId) == Some(key);
    }
    if k :| 0 <= k < |ixs| && decode(ixs[k].programId) == Some(key) {
      ProgramIdsCover(ixs, ixs[k].programId);
      HasIff(ids, ixs[k].programId);
      var i :| 0 <= i < |ids| && ids[i] == ixs[k].programId;
      assert ProgramRequests(decode, ids)[i].pubkey == key;
    }
  }

  lemma {:induction false} RequestsMean(decode: Decoder, ixs: seq<Instruction>, feePayer: Bytes, signer: Bytes, key: Bytes)
    requires Decodable(decode, ProgramIds(ixs))
    ensures var requests := AllRequests(decode, ixs, feePayer, signer);
      && (Requested(requests, key) <==> IsAsked(decode, ixs, feePayer, signer, key))
      && (SignerRequested(requests, key) <==> MustSign(ixs, feePayer, signer, key))
      && (WritableRequested(requests, key) <==> MayBeWritten(ixs, feePayer, signer, key))
  {
    var payers := PayerRequests(feePayer, signer);
    assert payers[0] == Meta(feePayer, true, true) && payers[1] == Meta(signer, true, true);
    AccountIff(ixs, key);
    ProgramIff(decode, ixs, key);
    RequestsConcat(payers, AccountRequests(ixs), key);
    RequestsConcat(payers + AccountRequests(ixs), ProgramRequests(decode, ProgramIds(ixs)), key);
  }

  lemma {:induction false} AskedKeysAre(decode: Decoder, ixs: seq<Instruction>, feePayer: Bytes, signer: Bytes)
    requires Decodable(decode, ProgramIds(ixs))
    ensures RequestedKeys(AllRequests(decode, ixs, feePayer, signer)) == AskedKeys(decode, ixs, feePayer, signer)
    ensures SignerKeys(AllRequests(decode, ixs, feePayer, signer)) == SigningKeys(ixs, feePayer, signer)
  {
    var requests := AllRequests(decode, ixs, feePayer, signer);
    forall key
      ensures key in RequestedKeys(requests) <==> key in AskedKeys(decode, ixs, feePayer, signer)
      ensures key in SignerKeys(requests) <==> key in SigningKeys(ixs, feePayer, signer)
    {
      RequestsMean(decode, ixs, feePayer, signer, key);
      KeySetsMean(decode, ixs, feePayer, signer, key);
    }
  }

  lemma {:induction false} KeySetsMean(decode: Decoder, ixs: seq<Instruction>, feePayer: Bytes, signer: Bytes, key: Bytes)
    ensures key in AskedKeys(decode, ixs, feePayer, signer) <==> IsAsked(decode, ixs, feePayer, signer, key)
    ensures key in SigningKeys(ixs, feePayer, signer) <==> MustSign(ixs, feePayer, signer, key)
  {
    if k :| 0 <= k < |ixs| && Uses(ixs[k], key) {
      var j :| 0 <= j < |ixs[k].accounts| && ixs[k].accounts[j].pubkey == key;
    }
    if k :| 0 <= k < |ixs| && Signs(ixs[k], key) {
      var j :| 0 <= j < |ixs[k].accounts| && ixs[k].accounts[j].pubkey == key && ixs[k].accounts[j].isSigner;
    }
  }

  lemma {:induction false} SaysIff(
    decode: Decoder, m: Message, ixs: seq<Instruction>, feePayer: Bytes, signer: Bytes, blockhash: Bytes)
    requires Decodable(decode, ProgramIds(ixs))
    ensures Says(decode, m, ixs, feePayer, signer, blockhash)
      <==> Preserves(decode, m, ixs, AllRequests(decode, ixs, feePayer, signer), feePayer, blockhash)
  {
    var requests := AllRequests(decode, ixs, feePayer, signer);
    forall i | 0 <= i < |m.keys| ensures KeySays(m, i, decode, ixs, feePayer, signer) <==> KeyMeans(m, i, requests) {
      RequestsMean(decode, ixs, feePayer, signer, m.keys[i]);
    }
    assert (forall key :: IsAsked(decode, ixs, feePayer, signer, key) ==> key in m.keys)
      <==> forall k :: 0 <= k < |requests| ==> requests[k].pubkey in m.keys by {
      AskedAreRequested(decode, m, ixs, feePayer, signer);
    }
    InstructionsSay(decode, m, ixs);
  }

  lemma {:induction false} AskedAreRequested(decode: Decoder, m: Message, ixs: seq<Instruction>, feePayer: Bytes, signer: Bytes)
    requires Decodable(decode, ProgramIds(ixs))
    ensures (forall key :: IsAsked(decode, ixs, feePayer, signer, key) ==> key in m.keys)
      <==> var requests := AllRequests(decode, ixs, feePayer, signer);
           forall k :: 0 <= k < |requests| ==> requests[k].pubkey in m.keys
  {
    var requests := AllRequests(decode, ixs, feePayer, signer);
    forall key ensures Requested(requests, key) <==> IsAsked(decode, ixs, feePayer, signer, key) {
      RequestsMean(decode, ixs, feePayer, signer, key);
    }
    forall k | 0 <= k < |requests| ensures Requested(requests, requests[k].pubkey) {
    }
  }

  lemma {:induction false} InstructionsSay(decode: Decoder, m: Message, ixs: seq<Instruction>)
    ensures |m.ixs| == |ixs| ==>
      ((forall k :: 0 <= k < |ixs| ==> SaysInstruction(decode, m, m.ixs[k], ixs[k]))
       <==> forall k :: 0 <= k < |ixs| ==> ResolvesTo(decode, m, m.ixs[k], ixs[k]))
  {
    forall k | 0 <= k < |ixs| && k < |m.ixs|
      ensures SaysInstruction(decode, m, m.ixs[k], ixs[k]) <==> ResolvesTo(decode, m, m.ixs[k], ixs[k])
    {
    }
  }

  // ── The theorem ──

  /** Keys of 32 bytes, and lists whose lengths fit in sixteen bits. */
  ghost predicate HasRoom(decode: Decoder, ixs: seq<Instruction>, feePayer: Bytes, signer: Bytes, blockhash: Bytes) {
    && |blockhash| == 32 && |ixs| < 0x1_0000
    && (forall k :: 0 <= k < |ixs| ==> |ixs[k].accounts| < 0x1_0000 && |ixs[k].data| < 0x1_0000)
    && (forall key :: IsAsked(decode, ixs, feePayer, signer, key) ==> |key| == 32)
    && |AskedKeys(decode, ixs, feePayer, signer)| < 0x1_0000
  }

  lemma {:induction false} RoomIs(decode: Decoder, ixs: seq<Instruction>, feePayer: Bytes, signer: Bytes, blockhash: Bytes)
    requires Decodable(decode, ProgramIds(ixs)) && HasRoom(decode, ixs, feePayer, signer, blockhash)
    ensures WellSized(decode, ixs, feePayer, signer, blockhash)
    ensures |RequestedKeys(AllRequests(decode, ixs, feePayer, signer))| < COMPACT_LIMIT
  {
    var requests := AllRequests(decode, ixs, feePayer, signer);
    forall r | 0 <= r < |requests| ensures |requests[r].pubkey| == 32 {
      RequestsMean(decode, ixs, feePayer, signer, requests[r].pubkey);
    }
    AskedKeysAre(decode, ixs, feePayer, signer);
  }

  /**
   There is a message exactly when every program name decodes. Reading its bytes back says exactly what the instructions
   asked for if and only if they mention at most 256 keys and at most 255 of these must sign.
   */
  lemma {:induction false} CompiledSaysIff(
    decode: Decoder, ixs: seq<Instruction>, feePayer: Bytes, signer: Bytes, blockhash: Bytes)
    requires HasRoom(decode, ixs, feePayer, signer, blockhash)
    ensures var message := MessageOf(decode, ixs, feePayer, signer, blockhash);
      && (message.Some? <==> forall k :: 0 <= k < |ixs| ==> decode(ixs[k].programId).Some?)
      && (message.Some? ==>
            var read := ReadMessage(Write(message.value));
            && read.Some?
            && (Says(decode, read.value, ixs, feePayer, signer, blockhash)
                <==> && |AskedKeys(decode, ixs, feePayer, signer)| <= 256
                     && |SigningKeys(ixs, feePayer, signer)| <= 255))
  {
    DecodableIff(decode, ixs);
    if ProgramsDecode(decode, ixs) {
      RoomIs(decode, ixs, feePayer, signer, blockhash);
      CompilationPreservesIff(decode, ixs, feePayer, signer, blockhash);
      AskedKeysAre(decode, ixs, feePayer, signer);
      var message := MessageOf(decode, ixs, feePayer, signer, blockhash).value;
      SaysIff(decode, ReadMessage(Write(message)).value, ixs, feePayer, signer, blockhash);
    }
  }
}
