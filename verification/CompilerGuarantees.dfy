/** Compilation preserves meaning: what reading the compiled bytes gives back. */
module CompilerGuarantees {
  import opened Common
  import opened MessageFormat
  import opened MessageCompiler
  import Base58

  ghost function RequestedKeys(requests: seq<Meta>): set<Bytes> {
    set i | 0 <= i < |requests| :: requests[i].pubkey
  }

  ghost function SignerKeys(requests: seq<Meta>): set<Bytes> {
    set i | 0 <= i < |requests| && requests[i].isSigner :: requests[i].pubkey
  }

  ghost predicate ResolvesTo(decode: Decoder, m: Message, c: Compiled, ix: Instruction) {
    && decode(ix.programId).Some?
    && c.program < |m.keys| && m.keys[c.program] == decode(ix.programId).value
    && |c.accounts| == |ix.accounts|
    && (forall j :: 0 <= j < |ix.accounts| ==> c.accounts[j] < |m.keys| && m.keys[c.accounts[j]] == ix.accounts[j].pubkey)
    && c.data == ix.data
  }

  ghost predicate KeyMeans(m: Message, i: nat, requests: seq<Meta>)
    requires i < |m.keys|
  {
    && Requested(requests, m.keys[i])
    && (IsSigner(m, i) <==> SignerRequested(requests, m.keys[i]))
    && (IsWritable(m, i) <==> WritableRequested(requests, m.keys[i]))
  }

  /**
   The message says what was asked: each requested key once, the payer first, privileges exactly the union of those
   requested, and instructions that resolve to the originals.
   */
  ghost predicate Preserves(decode: Decoder, m: Message, ixs: seq<Instruction>, requests: seq<Meta>, feePayer: Bytes, blockhash: Bytes) {
    && |m.keys| > 0 && m.keys[0] == feePayer
    && (forall i, j :: 0 <= i < j < |m.keys| ==> m.keys[i] != m.keys[j])
    && (forall k :: 0 <= k < |requests| ==> requests[k].pubkey in m.keys)
    && (forall i :: 0 <= i < |m.keys| ==> KeyMeans(m, i, requests))
    && m.blockhash == blockhash
    && |m.ixs| == |ixs|
    && (forall k :: 0 <= k < |ixs| ==> ResolvesTo(decode, m, m.ixs[k], ixs[k]))
  }

  // ── Positions and privileges ──

  lemma {:induction false} Classes(table: seq<Meta>, feePayer: Bytes)
    requires Find(table, feePayer).Some?
    requires table[Find(table, feePayer).value].isSigner && table[Find(table, feePayer).value].isWritable
    ensures var ordered := Ordered(table, feePayer);
            var sw, sr := |Select(table, feePayer, true, true)|, |Select(table, feePayer, true, false)|;
            var ur := |Select(table, feePayer, false, false)|;
            && |ordered| >= 1 + sw + sr + ur
            && forall i :: 0 <= i < |ordered| ==>
                 && (ordered[i].isSigner <==> i < 1 + sw + sr)
                 && (ordered[i].isWritable <==> i < 1 + sw || (1 + sw + sr <= i < |ordered| - ur))
  {
    var fp := table[Find(table, feePayer).value];
    var sw, sr := Select(table, feePayer, true, true), Select(table, feePayer, true, false);
    var uw, ur := Select(table, feePayer, false, true), Select(table, feePayer, false, false);
    var ordered := Ordered(table, feePayer);
    assert ordered == [fp] + sw + sr + uw + ur;
    forall i | 0 <= i < |ordered|
      ensures ordered[i].isSigner <==> i < 1 + |sw| + |sr|
      ensures ordered[i].isWritable <==> i < 1 + |sw| || (1 + |sw| + |sr| <= i < |ordered| - |ur|)
    {
      SelectIff(table, feePayer, true, true, ordered[i]);
      SelectIff(table, feePayer, true, false, ordered[i]);
      SelectIff(table, feePayer, false, true, ordered[i]);
      SelectIff(table, feePayer, false, false, ordered[i]);
      if i == 0 {
      } else if i < 1 + |sw| {
        assert ordered[i] == sw[i - 1];
      } else if i < 1 + |sw| + |sr| {
        assert ordered[i] == sr[i - 1 - |sw|];
      } else if i < 1 + |sw| + |sr| + |uw| {
        assert ordered[i] == uw[i - 1 - |sw| - |sr|];
      } else {
        assert ordered[i] == ur[i - 1 - |sw| - |sr| - |uw|];
      }
    }
  }

  lemma {:induction false} RequestedKeysSnoc(table: seq<Meta>)
    requires table != []
    ensures RequestedKeys(table) == RequestedKeys(table[..|table| - 1]) + {table[|table| - 1].pubkey}
  {
    var init, last := table[..|table| - 1], table[|table| - 1];
    forall key | key in RequestedKeys(table) ensures key in RequestedKeys(init) + {last.pubkey} {
      var i :| 0 <= i < |table| && table[i].pubkey == key;
      if i < |init| { assert init[i].pubkey == key; }
    }
    forall key | key in RequestedKeys(init) ensures key in RequestedKeys(table) {
      var i :| 0 <= i < |init| && init[i].pubkey == key;
      assert table[i].pubkey == key;
    }
    assert table[|init|].pubkey == last.pubkey;
  }

  lemma {:induction false} DistinctCount(table: seq<Meta>)
    requires DistinctKeys(table)
    ensures |RequestedKeys(table)| == |table|
  {
    if table != [] {
      var init, last := table[..|table| - 1], table[|table| - 1];
      DistinctCount(init);
      RequestedKeysSnoc(table);
      assert last.pubkey !in RequestedKeys(init);
    }
  }

  /** The facts about the ordered table that the header and the indexes rest on. */
  ghost predicate Layouted(ordered: seq<Meta>, signers: nat, requests: seq<Meta>, feePayer: Bytes) {
    && DistinctKeys(ordered)
    && 0 < signers <= |ordered|
    && ordered[0].pubkey == feePayer
    && (forall i :: 0 <= i < |ordered| ==> EntryMeans(ordered[i], requests))
    && (forall i :: 0 <= i < |ordered| ==> (ordered[i].isSigner <==> i < signers))
    && (forall k :: 0 <= k < |requests| ==> Find(ordered, requests[k].pubkey).Some?)
  }

  lemma {:induction false} OrderedIsLayouted(table: seq<Meta>, requests: seq<Meta>, feePayer: Bytes)
    requires TableMeans(table, requests) && Find(table, feePayer).Some?
    requires requests != [] && requests[0] == Meta(feePayer, true, true)
    ensures table[Find(table, feePayer).value].isSigner && table[Find(table, feePayer).value].isWritable
    ensures Layouted(Ordered(table, feePayer),
                     1 + |Select(table, feePayer, true, true)| + |Select(table, feePayer, true, false)|, requests, feePayer)
  {
    var fp := table[Find(table, feePayer).value];
    assert EntryMeans(fp, requests);
    assert SignerRequested(requests, feePayer) && WritableRequested(requests, feePayer);
    Classes(table, feePayer);
    OrderedIsTable(table, feePayer);
    var ordered := Ordered(table, feePayer);
    forall i | 0 <= i < |ordered| ensures EntryMeans(ordered[i], requests) {
      assert ordered[i] in table;
    }
    forall k | 0 <= k < |requests| ensures Find(ordered, requests[k].pubkey).Some? {
      var entry := table[Find(table, requests[k].pubkey).value];
      assert entry in ordered;
    }
  }

  lemma {:induction false} LayoutCounts(ordered: seq<Meta>, signers: nat, requests: seq<Meta>, feePayer: Bytes)
    requires Layouted(ordered, signers, requests, feePayer)
    ensures |RequestedKeys(requests)| == |ordered|
    ensures |SignerKeys(requests)| == signers
  {
    DistinctCount(ordered);
    DistinctCount(ordered[..signers]);
    forall key ensures key in RequestedKeys(requests) <==> key in RequestedKeys(ordered) {
      if key in RequestedKeys(requests) {
        var k :| 0 <= k < |requests| && requests[k].pubkey == key;
        assert ordered[Find(ordered, requests[k].pubkey).value].pubkey == key;
      }
      if key in RequestedKeys(ordered) {
        var i :| 0 <= i < |ordered| && ordered[i].pubkey == key;
        assert EntryMeans(ordered[i], requests);
      }
    }
    assert RequestedKeys(requests) == RequestedKeys(ordered);
    forall key ensures key in SignerKeys(requests) <==> key in RequestedKeys(ordered[..signers]) {
      if key in SignerKeys(requests) {
        var k :| 0 <= k < |requests| && requests[k].pubkey == key && requests[k].isSigner;
        var i := Find(ordered, requests[k].pubkey).value;
        assert EntryMeans(ordered[i], requests);
        assert ordered[..signers][i].pubkey == key;
      }
      if key in RequestedKeys(ordered[..signers]) {
        var i :| 0 <= i < signers && ordered[..signers][i].pubkey == key;
        assert EntryMeans(ordered[i], requests);
      }
    }
    assert SignerKeys(requests) == RequestedKeys(ordered[..signers]);
  }

  // ── Instructions resolve ──

  lemma {:induction false} AccountsAreRequested(ixs: seq<Instruction>, k: nat, j: nat)
    requires k < |ixs| && j < |ixs[k].accounts|
    ensures ixs[k].accounts[j] in AccountRequests(ixs)
  {
    if k < |ixs| - 1 {
      AccountsAreRequested(ixs[..|ixs| - 1], k, j);
    }
  }

  lemma {:induction false} InstructionKeysAreRequested(decode: Decoder, ixs: seq<Instruction>, feePayer: Bytes, signer: Bytes, k: nat)
    requires Decodable(decode, ProgramIds(ixs)) && k < |ixs|
    ensures decode(ixs[k].programId).Some?
    ensures Requested(AllRequests(decode, ixs, feePayer, signer), decode(ixs[k].programId).value)
    ensures forall j :: 0 <= j < |ixs[k].accounts| ==> Requested(AllRequests(decode, ixs, feePayer, signer), ixs[k].accounts[j].pubkey)
  {
    var requests := AllRequests(decode, ixs, feePayer, signer);
    var accounts, programs := AccountRequests(ixs), ProgramRequests(decode, ProgramIds(ixs));
    ProgramIdsCover(ixs, ixs[k].programId);
    HasIff(ProgramIds(ixs), ixs[k].programId);
    var p :| 0 <= p < |ProgramIds(ixs)| && ProgramIds(ixs)[p] == ixs[k].programId;
    assert requests[2 + |accounts| + p] == programs[p];
    forall j | 0 <= j < |ixs[k].accounts| ensures Requested(requests, ixs[k].accounts[j].pubkey) {
      AccountsAreRequested(ixs, k, j);
      var a :| 0 <= a < |accounts| && accounts[a] == ixs[k].accounts[j];
      assert requests[2 + a] == accounts[a];
    }
  }

  lemma {:induction false} RequestedIsFound(ordered: seq<Meta>, signers: nat, requests: seq<Meta>, feePayer: Bytes, key: Bytes)
    requires Layouted(ordered, signers, requests, feePayer)
    requires Requested(requests, key)
    ensures Find(ordered, key).Some?
  {
    var k :| 0 <= k < |requests| && requests[k].pubkey == key;
  }

  lemma {:induction false} SmallIndexResolves(ordered: seq<Meta>, key: Bytes)
    requires Find(ordered, key).Some? && |ordered| <= 256
    ensures IndexByte(ordered, key) < |KeysOf(ordered)| && KeysOf(ordered)[IndexByte(ordered, key)] == key
  {
  }

  lemma {:induction false} InstructionResolves(decode: Decoder, 
    m: Message, ordered: seq<Meta>, signers: nat, ixs: seq<Instruction>, feePayer: Bytes, signer: Bytes, k: nat)
    requires Decodable(decode, ProgramIds(ixs)) && k < |ixs|
    requires Layouted(ordered, signers, AllRequests(decode, ixs, feePayer, signer), feePayer)
    requires |ordered| <= 256 && m.keys == KeysOf(ordered)
    ensures decode(ixs[k].programId).Some?
    ensures ResolvesTo(decode, m, CompileInstruction(decode, ordered, ixs[k]), ixs[k])
  {
    var requests := AllRequests(decode, ixs, feePayer, signer);
    InstructionKeysAreRequested(decode, ixs, feePayer, signer, k);
    var program := decode(ixs[k].programId).value;
    RequestedIsFound(ordered, signers, requests, feePayer, program);
    SmallIndexResolves(ordered, program);
    var c := CompileInstruction(decode, ordered, ixs[k]);
    forall j | 0 <= j < |ixs[k].accounts|
      ensures c.accounts[j] < |m.keys| && m.keys[c.accounts[j]] == ixs[k].accounts[j].pubkey
    {
      RequestedIsFound(ordered, signers, requests, feePayer, ixs[k].accounts[j].pubkey);
      SmallIndexResolves(ordered, ixs[k].accounts[j].pubkey);
    }
  }

  // ── Within the limits the meaning is preserved ──

  lemma {:induction false} FittingKeysMean(table: seq<Meta>, requests: seq<Meta>, feePayer: Bytes, m: Message)
    requires TableMeans(table, requests) && Find(table, feePayer).Some?
    requires requests != [] && requests[0] == Meta(feePayer, true, true)
    requires |RequestedKeys(requests)| <= 256 && |SignerKeys(requests)| <= 255
    requires m.keys == KeysOf(Ordered(table, feePayer))
    requires HeaderCounts(table, feePayer, m)
    ensures |m.keys| > 0 && m.keys[0] == feePayer
    ensures forall i, j :: 0 <= i < j < |m.keys| ==> m.keys[i] != m.keys[j]
    ensures forall k :: 0 <= k < |requests| ==> requests[k].pubkey in m.keys
    ensures forall i :: 0 <= i < |m.keys| ==> KeyMeans(m, i, requests)
  {
    OrderedIsLayouted(table, requests, feePayer);
    Classes(table, feePayer);
    var ordered := Ordered(table, feePayer);
    var signers := 1 + |Select(table, feePayer, true, true)| + |Select(table, feePayer, true, false)|;
    LayoutCounts(ordered, signers, requests, feePayer);
    HeaderFits(table, feePayer, m, |ordered|);
    KeysMean(m, ordered, signers, requests, feePayer);
  }

  /** The header bytes are the class sizes, cut to eight bits. */
  predicate HeaderCounts(table: seq<Meta>, feePayer: Bytes, m: Message) {
    && m.signers == (1 + |Select(table, feePayer, true, true)| + |Select(table, feePayer, true, false)|) % 256
    && m.readonlySigned == |Select(table, feePayer, true, false)| % 256
    && m.readonlyUnsigned == |Select(table, feePayer, false, false)| % 256
  }

  lemma {:induction false} HeaderFits(table: seq<Meta>, feePayer: Bytes, m: Message, count: nat)
    requires HeaderCounts(table, feePayer, m)
    requires count <= 256
    requires 1 + |Select(table, feePayer, true, true)| + |Select(table, feePayer, true, false)| <= 255
    requires 1 + |Select(table, feePayer, true, true)| + |Select(table, feePayer, true, false)| + |Select(table, feePayer, false, false)| <= count
    ensures m.signers == 1 + |Select(table, feePayer, true, true)| + |Select(table, feePayer, true, false)|
    ensures m.readonlySigned == |Select(table, feePayer, true, false)|
    ensures m.readonlyUnsigned == |Select(table, feePayer, false, false)|
  {
  }

  lemma {:induction false} FittingResolves(
    decode: Decoder, ixs: seq<Instruction>, feePayer: Bytes, signer: Bytes, table: seq<Meta>, m: Message)
    requires Decodable(decode, ProgramIds(ixs)) && ProgramsDecode(decode, ixs)
    requires TableMeans(table, AllRequests(decode, ixs, feePayer, signer)) && Find(table, feePayer).Some?
    requires |RequestedKeys(AllRequests(decode, ixs, feePayer, signer))| <= 256
    requires m.keys == KeysOf(Ordered(table, feePayer))
    ensures forall k :: 0 <= k < |ixs| ==>
              ResolvesTo(decode, m, CompileInstruction(decode, Ordered(table, feePayer), ixs[k]), ixs[k])
  {
    var requests := AllRequests(decode, ixs, feePayer, signer);
    OrderedIsLayouted(table, requests, feePayer);
    var ordered := Ordered(table, feePayer);
    var signers := 1 + |Select(table, feePayer, true, true)| + |Select(table, feePayer, true, false)|;
    LayoutCounts(ordered, signers, requests, feePayer);
    forall k | 0 <= k < |ixs| ensures ResolvesTo(decode, m, CompileInstruction(decode, ordered, ixs[k]), ixs[k]) {
      InstructionResolves(decode, m, ordered, signers, ixs, feePayer, signer, k);
    }
  }

  lemma {:induction false} FittingPreserves(decode: Decoder, ixs: seq<Instruction>, feePayer: Bytes, signer: Bytes, blockhash: Bytes)
    requires Decodable(decode, ProgramIds(ixs)) && ProgramsDecode(decode, ixs)
    requires |RequestedKeys(AllRequests(decode, ixs, feePayer, signer))| <= 256
    requires |SignerKeys(AllRequests(decode, ixs, feePayer, signer))| <= 255
    ensures Preserves(decode, MessageOf(decode, ixs, feePayer, signer, blockhash).value, ixs,
                      AllRequests(decode, ixs, feePayer, signer), feePayer, blockhash)
  {
    var requests := AllRequests(decode, ixs, feePayer, signer);
    var table := TableOf(decode, ixs, feePayer, signer);
    TableMeansRequests(decode, ixs, feePayer, signer);
    PayerIsInTable(decode, ixs, feePayer, signer);
    var m := MessageOf(decode, ixs, feePayer, signer, blockhash).value;
    assert m == Assemble(decode, table, ixs, feePayer, blockhash);
    FittingKeysMean(table, requests, feePayer, m);
    FittingResolves(decode, ixs, feePayer, signer, table, m);
  }

  lemma {:induction false} KeysMean(m: Message, ordered: seq<Meta>, signers: nat, requests: seq<Meta>, feePayer: Bytes)
    requires Layouted(ordered, signers, requests, feePayer)
    requires m.keys == KeysOf(ordered)
    requires forall i :: 0 <= i < |ordered| ==>
               (ordered[i].isSigner <==> IsSigner(m, i)) && (ordered[i].isWritable <==> IsWritable(m, i))
    ensures |m.keys| > 0 && m.keys[0] == feePayer
    ensures forall i, j :: 0 <= i < j < |m.keys| ==> m.keys[i] != m.keys[j]
    ensures forall k :: 0 <= k < |requests| ==> requests[k].pubkey in m.keys
    ensures forall i :: 0 <= i < |m.keys| ==> KeyMeans(m, i, requests)
  {
    forall i | 0 <= i < |m.keys| ensures KeyMeans(m, i, requests) {
      assert EntryMeans(ordered[i], requests);
    }
    forall k | 0 <= k < |requests| ensures requests[k].pubkey in m.keys {
      assert m.keys[Find(ordered, requests[k].pubkey).value] == requests[k].pubkey;
    }
  }

  // ── Beyond the limits it is lost ──

  lemma {:induction false} RequestedAccountIsUsed(ixs: seq<Instruction>, m: Meta)
    requires m in AccountRequests(ixs)
    ensures exists k :: 0 <= k < |ixs| && m in ixs[k].accounts
  {
    var init, last := ixs[..|ixs| - 1], ixs[|ixs| - 1];
    if m in last.accounts {
      assert m in ixs[|ixs| - 1].accounts;
    } else {
      RequestedAccountIsUsed(init, m);
      var k :| 0 <= k < |init| && m in init[k].accounts;
      assert m in ixs[k].accounts;
    }
  }

  ghost predicate Names(decode: Decoder, ix: Instruction, key: Bytes) {
    decode(ix.programId) == Some(key) || exists j :: 0 <= j < |ix.accounts| && ix.accounts[j].pubkey == key
  }

  lemma {:induction false} ProgramIsNamed(decode: Decoder, ixs: seq<Instruction>, p: nat) returns (k: nat)
    requires Decodable(decode, ProgramIds(ixs)) && p < |ProgramIds(ixs)|
    ensures k < |ixs| && Names(decode, ixs[k], ProgramRequests(decode, ProgramIds(ixs))[p].pubkey)
  {
    HasIff(ProgramIds(ixs), ProgramIds(ixs)[p]);
    ProgramIdsCover(ixs, ProgramIds(ixs)[p]);
    k :| 0 <= k < |ixs| && ixs[k].programId == ProgramIds(ixs)[p];
  }

  lemma {:induction false} AccountIsNamed(decode: Decoder, ixs: seq<Instruction>, a: nat) returns (k: nat)
    requires a < |AccountRequests(ixs)|
    ensures k < |ixs| && Names(decode, ixs[k], AccountRequests(ixs)[a].pubkey)
  {
    RequestedAccountIsUsed(ixs, AccountRequests(ixs)[a]);
    k :| 0 <= k < |ixs| && AccountRequests(ixs)[a] in ixs[k].accounts;
  }

  /** A key that is requested but is neither payer nor signer is named by some instruction. */
  lemma {:induction false} NamedBySomeInstruction(decode: Decoder, ixs: seq<Instruction>, feePayer: Bytes, signer: Bytes, key: Bytes) returns (k: nat)
    requires Decodable(decode, ProgramIds(ixs))
    requires Requested(AllRequests(decode, ixs, feePayer, signer), key) && key != feePayer && key != signer
    ensures k < |ixs| && Names(decode, ixs[k], key)
  {
    var requests := AllRequests(decode, ixs, feePayer, signer);
    var accounts := AccountRequests(ixs);
    var r :| 0 <= r < |requests| && requests[r].pubkey == key;
    if r < 2 + |accounts| {
      assert requests[r] == accounts[r - 2];
      k := AccountIsNamed(decode, ixs, r - 2);
    } else {
      k := ProgramIsNamed(decode, ixs, r - 2 - |accounts|);
    }
  }

  lemma {:induction false} FindInDistinct(ordered: seq<Meta>, i: nat)
    requires DistinctKeys(ordered) && i < |ordered|
    ensures Find(ordered, ordered[i].pubkey) == Some(i)
  {
  }

  lemma {:induction false} OverflowLoses(decode: Decoder, ixs: seq<Instruction>, feePayer: Bytes, signer: Bytes, blockhash: Bytes)
    requires Decodable(decode, ProgramIds(ixs)) && ProgramsDecode(decode, ixs)
    requires |RequestedKeys(AllRequests(decode, ixs, feePayer, signer))| > 256 || |SignerKeys(AllRequests(decode, ixs, feePayer, signer))| > 255
    ensures !Preserves(decode, MessageOf(decode, ixs, feePayer, signer, blockhash).value, ixs, AllRequests(decode, ixs, feePayer, signer), feePayer, blockhash)
  {
    var requests := AllRequests(decode, ixs, feePayer, signer);
    var table := TableOf(decode, ixs, feePayer, signer);
    TableMeansRequests(decode, ixs, feePayer, signer);
    PayerIsInTable(decode, ixs, feePayer, signer);
    OrderedIsLayouted(table, requests, feePayer);
    var ordered := Ordered(table, feePayer);
    var signers := 1 + |Select(table, feePayer, true, true)| + |Select(table, feePayer, true, false)|;
    LayoutCounts(ordered, signers, requests, feePayer);
    var m := MessageOf(decode, ixs, feePayer, signer, blockhash).value;
    assert m == Assemble(decode, table, ixs, feePayer, blockhash);
    if signers > 255 {
      TooManySignersLose(m, ordered, signers, requests, feePayer);
    } else {
      var key := ordered[256].pubkey;
      assert EntryMeans(ordered[256], requests);
      assert requests[0] == Meta(feePayer, true, true) && requests[1] == Meta(signer, true, true);
      assert SignerRequested(requests, feePayer) && SignerRequested(requests, signer);
      var k := NamedBySomeInstruction(decode, ixs, feePayer, signer, key);
      FindInDistinct(ordered, 256);
      assert IndexByte(ordered, key) == 0;
      WrappedIndexMisses(decode, m, ordered, ixs[k], key);
    }
  }

  lemma {:induction false} TooManySignersLose(m: Message, ordered: seq<Meta>, signers: nat, requests: seq<Meta>, feePayer: Bytes)
    requires Layouted(ordered, signers, requests, feePayer) && signers > 255
    requires m.keys == KeysOf(ordered) && m.signers == signers % 256
    ensures exists i :: 0 <= i < |m.keys| && !KeyMeans(m, i, requests)
  {
    var i := signers - 1;
    assert EntryMeans(ordered[i], requests);
    assert !KeyMeans(m, i, requests);
  }

  lemma {:induction false} WrappedIndexMisses(decode: Decoder, m: Message, ordered: seq<Meta>, ix: Instruction, key: Bytes)
    requires |ordered| > 0 && m.keys == KeysOf(ordered) && key != ordered[0].pubkey
    requires IndexByte(ordered, key) == 0
    requires decode(ix.programId).Some?
    requires Names(decode, ix, key)
    ensures !ResolvesTo(decode, m, CompileInstruction(decode, ordered, ix), ix)
  {
    var c := CompileInstruction(decode, ordered, ix);
    if decode(ix.programId) == Some(key) {
      assert c.program == 0;
    } else {
      var j :| 0 <= j < |ix.accounts| && ix.accounts[j].pubkey == key;
      assert c.accounts[j] == 0;
    }
  }

  // ── The theorem ──

  /** Input a legacy message has room for: 32-byte keys and lists whose lengths fit a compact-u16. */
  predicate WellSized(decode: Decoder, ixs: seq<Instruction>, feePayer: Bytes, signer: Bytes, blockhash: Bytes)
    requires Decodable(decode, ProgramIds(ixs))
  {
    && |blockhash| == KEY_BYTES
    && |ixs| < COMPACT_LIMIT
    && (forall k :: 0 <= k < |ixs| ==> |ixs[k].accounts| < COMPACT_LIMIT && |ixs[k].data| < COMPACT_LIMIT)
    && (forall r :: 0 <= r < |AllRequests(decode, ixs, feePayer, signer)| ==> |AllRequests(decode, ixs, feePayer, signer)[r].pubkey| == KEY_BYTES)
  }

  lemma {:induction false} CompiledBytesRead(decode: Decoder, ixs: seq<Instruction>, feePayer: Bytes, signer: Bytes, blockhash: Bytes)
    requires Decodable(decode, ProgramIds(ixs)) && ProgramsDecode(decode, ixs) && WellSized(decode, ixs, feePayer, signer, blockhash)
    requires |RequestedKeys(AllRequests(decode, ixs, feePayer, signer))| < COMPACT_LIMIT
    ensures var m := MessageOf(decode, ixs, feePayer, signer, blockhash).value; ReadMessage(Write(m)) == Some(m)
  {
    var requests := AllRequests(decode, ixs, feePayer, signer);
    var table := TableOf(decode, ixs, feePayer, signer);
    TableMeansRequests(decode, ixs, feePayer, signer);
    PayerIsInTable(decode, ixs, feePayer, signer);
    OrderedIsLayouted(table, requests, feePayer);
    var ordered := Ordered(table, feePayer);
    LayoutCounts(ordered, 1 + |Select(table, feePayer, true, true)| + |Select(table, feePayer, true, false)|, requests, feePayer);
    var m := MessageOf(decode, ixs, feePayer, signer, blockhash).value;
    assert m == Assemble(decode, table, ixs, feePayer, blockhash);
    forall i | 0 <= i < |m.keys| ensures |m.keys[i]| == KEY_BYTES {
      assert EntryMeans(ordered[i], requests);
      var r :| 0 <= r < |requests| && requests[r].pubkey == ordered[i].pubkey;
    }
    forall k | 0 <= k < |m.ixs| ensures MessageFormat.Writable(m.ixs[k]) {
      assert m.ixs[k] == CompileInstruction(decode, ordered, ixs[k]);
    }
    ReadBack(m);
  }

  /**
   Reading the compiled bytes back gives a message that says exactly what was asked if and only if there are at most
   256 distinct accounts and at most 255 distinct signers.
   */
  lemma {:induction false} CompilationPreservesIff(decode: Decoder, ixs: seq<Instruction>, feePayer: Bytes, signer: Bytes, blockhash: Bytes)
    requires Decodable(decode, ProgramIds(ixs)) && ProgramsDecode(decode, ixs) && WellSized(decode, ixs, feePayer, signer, blockhash)
    requires |RequestedKeys(AllRequests(decode, ixs, feePayer, signer))| < COMPACT_LIMIT
    ensures var read := ReadMessage(Write(MessageOf(decode, ixs, feePayer, signer, blockhash).value));
            var requests := AllRequests(decode, ixs, feePayer, signer);
            && read.Some?
            && (Preserves(decode, read.value, ixs, requests, feePayer, blockhash) <==>
                |RequestedKeys(requests)| <= 256 && |SignerKeys(requests)| <= 255)
  {
    CompiledBytesRead(decode, ixs, feePayer, signer, blockhash);
    if |RequestedKeys(AllRequests(decode, ixs, feePayer, signer))| <= 256 && |SignerKeys(AllRequests(decode, ixs, feePayer, signer))| <= 255 {
      FittingPreserves(decode, ixs, feePayer, signer, blockhash);
    } else {
      OverflowLoses(decode, ixs, feePayer, signer, blockhash);
    }
  }
}
