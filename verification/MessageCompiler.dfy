/** The payment page's compiler from instruction lists to the bytes of a legacy Solana message. */
module MessageCompiler {
  import opened Common
  import opened MessageFormat
  import Base58

  /** How program names become keys; the payment page uses base58. */
  type Decoder = string -> Option<Bytes>

  datatype Meta = Meta(pubkey: Bytes, isSigner: bool, isWritable: bool)

  /** The program is named by its base58 text. */
  datatype Instruction = Instruction(programId: string, accounts: seq<Meta>, data: Bytes)


  // ── The account table ──

  function Find(table: seq<Meta>, key: Bytes): (r: Option<nat>)
    ensures r.Some? ==> r.value < |table| && table[r.value].pubkey == key
    ensures r.None? ==> forall i :: 0 <= i < |table| ==> table[i].pubkey != key
  {
    if table == [] then None
    else if table[0].pubkey == key then Some(0)
    else match Find(table[1..], key) case Some(i) => Some(i + 1) case None => None
  }

  /** Merge one request into the table: new keys are appended, known keys gain the requested privileges. */
  function Absorb(table: seq<Meta>, m: Meta): seq<Meta> {
    match Find(table, m.pubkey)
    case None => table + [m]
    case Some(i) =>
      table[i := Meta(m.pubkey, table[i].isSigner || m.isSigner, table[i].isWritable || m.isWritable)]
  }

  function AbsorbAll(table: seq<Meta>, requests: seq<Meta>): seq<Meta> {
    if requests == [] then table
    else Absorb(AbsorbAll(table, requests[..|requests| - 1]), requests[|requests| - 1])
  }

  function AccountRequests(ixs: seq<Instruction>): seq<Meta> {
    if ixs == [] then [] else AccountRequests(ixs[..|ixs| - 1]) + ixs[|ixs| - 1].accounts
  }

  predicate Has(ids: seq<string>, id: string) {
    ids != [] && (ids[|ids| - 1] == id || Has(ids[..|ids| - 1], id))
  }

  lemma {:induction false} HasIff(ids: seq<string>, id: string)
    ensures Has(ids, id) <==> exists i :: 0 <= i < |ids| && ids[i] == id
  {
    if ids != [] {
      HasIff(ids[..|ids| - 1], id);
    }
  }

  /** The distinct program names, in order of first use. */
  function ProgramIds(ixs: seq<Instruction>): seq<string> {
    if ixs == [] then []
    else
      var before := ProgramIds(ixs[..|ixs| - 1]);
      if Has(before, ixs[|ixs| - 1].programId) then before else before + [ixs[|ixs| - 1].programId]
  }

  predicate Decodable(decode: Decoder, ids: seq<string>) {
    forall i :: 0 <= i < |ids| ==> decode(ids[i]).Some?
  }

  function ProgramRequests(decode: Decoder, ids: seq<string>): seq<Meta>
    requires Decodable(decode, ids)
  {
    seq(|ids|, i requires 0 <= i < |ids| => Meta(decode(ids[i]).value, false, false))
  }

  function PayerRequests(feePayer: Bytes, signer: Bytes): seq<Meta> {
    [Meta(feePayer, true, true), Meta(signer, true, true)]
  }

  function StartTable(feePayer: Bytes, signer: Bytes): seq<Meta> {
    [Meta(feePayer, true, true)] + if signer != feePayer then [Meta(signer, true, true)] else []
  }

  function TableOf(decode: Decoder, ixs: seq<Instruction>, feePayer: Bytes, signer: Bytes): seq<Meta>
    requires Decodable(decode, ProgramIds(ixs))
  {
    AbsorbAll(AbsorbAll(StartTable(feePayer, signer), AccountRequests(ixs)), ProgramRequests(decode, ProgramIds(ixs)))
  }

  // ── What the table means ──

  ghost predicate Requested(requests: seq<Meta>, key: Bytes) {
    exists i :: 0 <= i < |requests| && requests[i].pubkey == key
  }

  ghost predicate SignerRequested(requests: seq<Meta>, key: Bytes) {
    exists i :: 0 <= i < |requests| && requests[i].pubkey == key && requests[i].isSigner
  }

  ghost predicate WritableRequested(requests: seq<Meta>, key: Bytes) {
    exists i :: 0 <= i < |requests| && requests[i].pubkey == key && requests[i].isWritable
  }

  ghost predicate DistinctKeys(table: seq<Meta>) {
    forall i, j :: 0 <= i < j < |table| ==> table[i].pubkey != table[j].pubkey
  }

  ghost predicate EntryMeans(entry: Meta, requests: seq<Meta>) {
    && Requested(requests, entry.pubkey)
    && (entry.isSigner <==> SignerRequested(requests, entry.pubkey))
    && (entry.isWritable <==> WritableRequested(requests, entry.pubkey))
  }

  /** One entry per requested key, holding the union of the privileges requested for it. */
  ghost predicate TableMeans(table: seq<Meta>, requests: seq<Meta>) {
    && DistinctKeys(table)
    && (forall i :: 0 <= i < |table| ==> EntryMeans(table[i], requests))
    && (forall i :: 0 <= i < |requests| ==> Find(table, requests[i].pubkey).Some?)
  }

  lemma {:induction false} RequestsSnoc(requests: seq<Meta>, m: Meta, key: Bytes)
    ensures Requested(requests + [m], key) <==> Requested(requests, key) || m.pubkey == key
    ensures SignerRequested(requests + [m], key) <==> SignerRequested(requests, key) || (m.pubkey == key && m.isSigner)
    ensures WritableRequested(requests + [m], key) <==> WritableRequested(requests, key) || (m.pubkey == key && m.isWritable)
  {
    var all := requests + [m];
    assert all[|requests|] == m;
    assert forall i :: 0 <= i < |requests| ==> all[i] == requests[i];
  }

  lemma {:induction false} AbsorbMeans(table: seq<Meta>, requests: seq<Meta>, m: Meta)
    requires TableMeans(table, requests)
    ensures TableMeans(Absorb(table, m), requests + [m])
  {
    var table' := Absorb(table, m);
    var all := requests + [m];
    var at := Find(table, m.pubkey);
    forall i | 0 <= i < |table'| ensures EntryMeans(table'[i], all) {
      AbsorbedEntry(table, requests, m, i);
    }
    forall i | 0 <= i < |all| ensures Find(table', all[i].pubkey).Some? {
      if i < |requests| {
        var j := Find(table, requests[i].pubkey).value;
        assert table'[j].pubkey == all[i].pubkey;
      } else {
        var j := if at.Some? then at.value else |table|;
        assert table'[j].pubkey == all[i].pubkey;
      }
    }
  }

  lemma {:induction false} AbsorbedEntry(table: seq<Meta>, requests: seq<Meta>, m: Meta, i: nat)
    requires TableMeans(table, requests) && i < |Absorb(table, m)|
    ensures EntryMeans(Absorb(table, m)[i], requests + [m])
  {
    var table' := Absorb(table, m);
    RequestsSnoc(requests, m, table'[i].pubkey);
    if i < |table| {
      assert EntryMeans(table[i], requests);
      assert table'[i].pubkey == table[i].pubkey;
      if table[i].pubkey == m.pubkey { assert i == Find(table, m.pubkey).value; }
    } else {
      NotRequested(table, requests, m.pubkey);
    }
  }

  lemma {:induction false} NotRequested(table: seq<Meta>, requests: seq<Meta>, key: Bytes)
    requires TableMeans(table, requests)
    requires Find(table, key).None?
    ensures !Requested(requests, key) && !SignerRequested(requests, key) && !WritableRequested(requests, key)
  {
  }

  lemma {:induction false} AbsorbAllMeans(table: seq<Meta>, requests: seq<Meta>, more: seq<Meta>)
    requires TableMeans(table, requests)
    ensures TableMeans(AbsorbAll(table, more), requests + more)
  {
    if more == [] {
      assert requests + more == requests;
    } else {
      var init, last := more[..|more| - 1], more[|more| - 1];
      AbsorbAllMeans(table, requests, init);
      AbsorbMeans(AbsorbAll(table, init), requests + init, last);
      assert requests + init + [last] == requests + more;
    }
  }

  lemma {:induction false} StartMeans(feePayer: Bytes, signer: Bytes)
    ensures TableMeans(StartTable(feePayer, signer), PayerRequests(feePayer, signer))
  {
    var table, requests := StartTable(feePayer, signer), PayerRequests(feePayer, signer);
    assert requests[0] == Meta(feePayer, true, true) && requests[1] == Meta(signer, true, true);
    forall i | 0 <= i < |table| ensures EntryMeans(table[i], requests) {
      if i == 1 { assert requests[1].pubkey == table[1].pubkey; }
    }
    assert table[0].pubkey == feePayer;
    assert signer != feePayer ==> table[1].pubkey == signer;
  }

  /** Everything the message must grant: the payer and the signer sign and write, accounts as flagged, programs bare. */
  function AllRequests(decode: Decoder, ixs: seq<Instruction>, feePayer: Bytes, signer: Bytes): seq<Meta>
    requires Decodable(decode, ProgramIds(ixs))
  {
    PayerRequests(feePayer, signer) + AccountRequests(ixs) + ProgramRequests(decode, ProgramIds(ixs))
  }

  lemma {:induction false} TableMeansRequests(decode: Decoder, ixs: seq<Instruction>, feePayer: Bytes, signer: Bytes)
    requires Decodable(decode, ProgramIds(ixs))
    ensures TableMeans(TableOf(decode, ixs, feePayer, signer), AllRequests(decode, ixs, feePayer, signer))
  {
    StartMeans(feePayer, signer);
    AbsorbAllMeans(StartTable(feePayer, signer), PayerRequests(feePayer, signer), AccountRequests(ixs));
    AbsorbAllMeans(AbsorbAll(StartTable(feePayer, signer), AccountRequests(ixs)),
                   PayerRequests(feePayer, signer) + AccountRequests(ixs), ProgramRequests(decode, ProgramIds(ixs)));
  }

  // ── Ordering by privilege class ──

  /** The entries other than the payer with the given privileges, in table order. */
  function Select(table: seq<Meta>, feePayer: Bytes, isSigner: bool, isWritable: bool): seq<Meta> {
    if table == [] then []
    else
      var last := table[|table| - 1];
      Select(table[..|table| - 1], feePayer, isSigner, isWritable) +
      if last.pubkey != feePayer && last.isSigner == isSigner && last.isWritable == isWritable then [last] else []
  }

  function Ordered(table: seq<Meta>, feePayer: Bytes): seq<Meta>
    requires Find(table, feePayer).Some?
  {
    [table[Find(table, feePayer).value]]
    + Select(table, feePayer, true, true) + Select(table, feePayer, true, false)
    + Select(table, feePayer, false, true) + Select(table, feePayer, false, false)
  }

  lemma {:induction false} SelectIff(table: seq<Meta>, feePayer: Bytes, s: bool, w: bool, m: Meta)
    ensures m in Select(table, feePayer, s, w) <==>
            m in table && m.pubkey != feePayer && m.isSigner == s && m.isWritable == w
  {
    if table != [] {
      var init := table[..|table| - 1];
      SelectIff(init, feePayer, s, w, m);
      assert table == init + [table[|table| - 1]];
    }
  }

  lemma {:induction false} SelectDistinct(table: seq<Meta>, feePayer: Bytes, s: bool, w: bool)
    requires DistinctKeys(table)
    ensures DistinctKeys(Select(table, feePayer, s, w))
  {
    if table != [] {
      var init, last := table[..|table| - 1], table[|table| - 1];
      SelectDistinct(init, feePayer, s, w);
      var chosen := Select(init, feePayer, s, w);
      forall i | 0 <= i < |chosen| ensures chosen[i].pubkey != last.pubkey {
        SelectIff(init, feePayer, s, w, chosen[i]);
        var j :| 0 <= j < |init| && init[j] == chosen[i];
        assert table[j] == init[j];
      }
    }
  }

  lemma {:induction false} SameKeySameEntry(table: seq<Meta>, a: Meta, b: Meta)
    requires DistinctKeys(table) && a in table && b in table && a.pubkey == b.pubkey
    ensures a == b
  {
  }

  lemma {:induction false} DistinctConcat(a: seq<Meta>, b: seq<Meta>, table: seq<Meta>)
    requires DistinctKeys(table) && DistinctKeys(a) && DistinctKeys(b)
    requires forall m :: m in a || m in b ==> m in table
    requires forall m :: m in a ==> m !in b
    ensures DistinctKeys(a + b)
  {
    forall i, j | 0 <= i < |a| && 0 <= j < |b| ensures a[i].pubkey != b[j].pubkey {
      if a[i].pubkey == b[j].pubkey {
        SameKeySameEntry(table, a[i], b[j]);
      }
    }
  }

  /** The ordered list is the table rearranged: same entries, still distinct, payer first. */
  lemma {:induction false} OrderedIsTable(table: seq<Meta>, feePayer: Bytes)
    requires DistinctKeys(table) && Find(table, feePayer).Some?
    ensures DistinctKeys(Ordered(table, feePayer))
    ensures forall m :: m in Ordered(table, feePayer) <==> m in table
    ensures Ordered(table, feePayer)[0].pubkey == feePayer
  {
    var fp := table[Find(table, feePayer).value];
    var sw, sr := Select(table, feePayer, true, true), Select(table, feePayer, true, false);
    var uw, ur := Select(table, feePayer, false, true), Select(table, feePayer, false, false);
    SelectDistinct(table, feePayer, true, true);
    SelectDistinct(table, feePayer, true, false);
    SelectDistinct(table, feePayer, false, true);
    SelectDistinct(table, feePayer, false, false);
    forall m
      ensures m in sw <==> m in table && m.pubkey != feePayer && m.isSigner && m.isWritable
      ensures m in sr <==> m in table && m.pubkey != feePayer && m.isSigner && !m.isWritable
      ensures m in uw <==> m in table && m.pubkey != feePayer && !m.isSigner && m.isWritable
      ensures m in ur <==> m in table && m.pubkey != feePayer && !m.isSigner && !m.isWritable
    {
      SelectIff(table, feePayer, true, true, m);
      SelectIff(table, feePayer, true, false, m);
      SelectIff(table, feePayer, false, true, m);
      SelectIff(table, feePayer, false, false, m);
    }
    DistinctConcat([fp], sw, table);
    DistinctConcat([fp] + sw, sr, table);
    DistinctConcat([fp] + sw + sr, uw, table);
    DistinctConcat([fp] + sw + sr + uw, ur, table);
    forall m | m in table ensures m in Ordered(table, feePayer) {
      if m.pubkey == feePayer { SameKeySameEntry(table, m, fp); }
    }
  }

  // ── Compiling ──

  /** The index byte of a key: its position cut to eight bits, and 0 for a key that is not in the list. */
  function IndexByte(ordered: seq<Meta>, key: Bytes): byte {
    match Find(ordered, key) case Some(i) => i % 256 case None => 0
  }

  function CompileInstruction(decode: Decoder, ordered: seq<Meta>, ix: Instruction): Compiled
    requires decode(ix.programId).Some?
  {
    Compiled(IndexByte(ordered, decode(ix.programId).value),
             seq(|ix.accounts|, j requires 0 <= j < |ix.accounts| => IndexByte(ordered, ix.accounts[j].pubkey)),
             ix.data)
  }

  predicate ProgramsDecode(decode: Decoder, ixs: seq<Instruction>) {
    forall k :: 0 <= k < |ixs| ==> decode(ixs[k].programId).Some?
  }

  function CompileInstructions(decode: Decoder, ordered: seq<Meta>, ixs: seq<Instruction>): seq<Compiled>
    requires ProgramsDecode(decode, ixs)
  {
    seq(|ixs|, k requires 0 <= k < |ixs| => CompileInstruction(decode, ordered, ixs[k]))
  }

  function KeysOf(table: seq<Meta>): (keys: seq<Bytes>)
    ensures |keys| == |table| && forall i :: 0 <= i < |table| ==> keys[i] == table[i].pubkey
  {
    seq(|table|, i requires 0 <= i < |table| => table[i].pubkey)
  }

  function Assemble(decode: Decoder, table: seq<Meta>, ixs: seq<Instruction>, feePayer: Bytes, blockhash: Bytes): Message
    requires Find(table, feePayer).Some? && ProgramsDecode(decode, ixs)
  {
    var sw, sr := Select(table, feePayer, true, true), Select(table, feePayer, true, false);
    var ur := Select(table, feePayer, false, false);
    var ordered := Ordered(table, feePayer);
    Message((1 + |sw| + |sr|) % 256, |sr| % 256, |ur| % 256, KeysOf(ordered), blockhash, CompileInstructions(decode, ordered, ixs))
  }

  lemma {:induction false} HasSnoc(ids: seq<string>, last: string, id: string)
    ensures Has(ids + [last], id) <==> Has(ids, id) || last == id
  {
    assert (ids + [last])[..|ids|] == ids;
  }

  predicate UsesProgram(ixs: seq<Instruction>, id: string) {
    exists k :: 0 <= k < |ixs| && ixs[k].programId == id
  }

  lemma {:induction false} ProgramIdsCover(ixs: seq<Instruction>, id: string)
    ensures Has(ProgramIds(ixs), id) <==> UsesProgram(ixs, id)
  {
    if ixs != [] {
      var init, last := ixs[..|ixs| - 1], ixs[|ixs| - 1];
      ProgramIdsCover(init, id);
      HasSnoc(ProgramIds(init), last.programId, id);
      if UsesProgram(init, id) {
        var k :| 0 <= k < |init| && init[k].programId == id;
        assert ixs[k].programId == id;
      }
      if UsesProgram(ixs, id) && last.programId != id {
        var k :| 0 <= k < |ixs| && ixs[k].programId == id;
        assert init[k].programId == id;
      }
      if last.programId == id {
        assert ixs[|ixs| - 1].programId == id;
      }
    }
  }

  lemma {:induction false} DecodableIff(decode: Decoder, ixs: seq<Instruction>)
    ensures Decodable(decode, ProgramIds(ixs)) <==> ProgramsDecode(decode, ixs)
  {
    var ids := ProgramIds(ixs);
    if Decodable(decode, ids) {
      forall k | 0 <= k < |ixs| ensures decode(ixs[k].programId).Some? {
        ProgramIdsCover(ixs, ixs[k].programId);
        HasIff(ids, ixs[k].programId);
        var i :| 0 <= i < |ids| && ids[i] == ixs[k].programId;
      }
    }
    if ProgramsDecode(decode, ixs) {
      forall i | 0 <= i < |ids| ensures decode(ids[i]).Some? {
        HasIff(ids, ids[i]);
        ProgramIdsCover(ixs, ids[i]);
        var k :| 0 <= k < |ixs| && ixs[k].programId == ids[i];
      }
    }
  }

  lemma {:induction false} PayerIsInTable(decode: Decoder, ixs: seq<Instruction>, feePayer: Bytes, signer: Bytes)
    requires Decodable(decode, ProgramIds(ixs))
    ensures Find(TableOf(decode, ixs, feePayer, signer), feePayer).Some?
  {
    TableMeansRequests(decode, ixs, feePayer, signer);
    assert AllRequests(decode, ixs, feePayer, signer)[0].pubkey == feePayer;
  }

  /** The message the bytes are written from; absent when a program name is not base58. */
  function MessageOf(decode: Decoder, ixs: seq<Instruction>, feePayer: Bytes, signer: Bytes, blockhash: Bytes): Option<Message> {
    DecodableIff(decode, ixs);
    if !ProgramsDecode(decode, ixs) then None
    else
      PayerIsInTable(decode, ixs, feePayer, signer);
      Some(Assemble(decode, TableOf(decode, ixs, feePayer, signer), ixs, feePayer, blockhash))
  }

  // ── The compiler as written ──

  lemma {:induction false} AbsorbConcat(table: seq<Meta>, a: seq<Meta>, b: seq<Meta>)
    ensures AbsorbAll(AbsorbAll(table, a), b) == AbsorbAll(table, a + b)
  {
    if b == [] {
      assert a + b == a;
    } else {
      assert (a + b)[..|a + b| - 1] == a + b[..|b| - 1];
      AbsorbConcat(table, a, b[..|b| - 1]);
    }
  }

  method AbsorbAccounts(accounts: seq<Meta>, start: seq<Meta>) returns (table: seq<Meta>)
    ensures table == AbsorbAll(start, accounts)
  {
    table := start;
    for j := 0 to |accounts|
      invariant table == AbsorbAll(start, accounts[..j])
    {
      assert accounts[..j + 1][..j] == accounts[..j];
      table := Absorb(table, accounts[j]);
    }
    assert accounts[..|accounts|] == accounts;
  }

  lemma {:induction false} InstructionStep(ixs: seq<Instruction>, k: nat, start: seq<Meta>)
    requires k < |ixs|
    ensures AbsorbAll(start, AccountRequests(ixs[..k + 1]))
      == AbsorbAll(AbsorbAll(start, AccountRequests(ixs[..k])), ixs[k].accounts)
    ensures var progs := ProgramIds(ixs[..k]);
      ProgramIds(ixs[..k + 1]) == if Has(progs, ixs[k].programId) then progs else progs + [ixs[k].programId]
  {
    assert ixs[..k + 1][..k] == ixs[..k];
    AbsorbConcat(start, AccountRequests(ixs[..k]), ixs[k].accounts);
  }

  method AbsorbInstructions(ixs: seq<Instruction>, start: seq<Meta>) returns (table: seq<Meta>, progs: seq<string>)
    ensures table == AbsorbAll(start, AccountRequests(ixs))
    ensures progs == ProgramIds(ixs)
  {
    table, progs := start, [];
    for k := 0 to |ixs|
      invariant table == AbsorbAll(start, AccountRequests(ixs[..k]))
      invariant progs == ProgramIds(ixs[..k])
    {
      var ix := ixs[k];
      InstructionStep(ixs, k, start);
      if !Has(progs, ix.programId) {
        progs := progs + [ix.programId];
      }
      table := AbsorbAccounts(ix.accounts, table);
    }
    assert ixs[..|ixs|] == ixs;
  }

  lemma {:induction false} BareAbsorb(table: seq<Meta>, key: Bytes)
    ensures Absorb(table, Meta(key, false, false)) ==
            if Find(table, key).Some? then table else table + [Meta(key, false, false)]
  {
  }

  lemma {:induction false} ProgramStep(decode: Decoder, progs: seq<string>, k: nat, start: seq<Meta>, key: Bytes)
    requires k < |progs| && Decodable(decode, progs[..k])
    requires decode(progs[k]) == Some(key)
    ensures Decodable(decode, progs[..k + 1])
    ensures AbsorbAll(start, ProgramRequests(decode, progs[..k + 1])) ==
            Absorb(AbsorbAll(start, ProgramRequests(decode, progs[..k])), Meta(key, false, false))
  {
    assert progs[..k + 1] == progs[..k] + [progs[k]];
    var requests := ProgramRequests(decode, progs[..k + 1]);
    assert requests[..k] == ProgramRequests(decode, progs[..k]);
    assert requests[k] == Meta(key, false, false);
  }

  method AbsorbPrograms(progs: seq<string>, start: seq<Meta>) returns (r: Option<seq<Meta>>)
    ensures r.Some? <==> Decodable(Base58.DecodeOf, progs)
    ensures r.Some? ==> r.value == AbsorbAll(start, ProgramRequests(Base58.DecodeOf, progs))
  {
    var table := start;
    for k := 0 to |progs|
      invariant Decodable(Base58.DecodeOf, progs[..k])
      invariant table == AbsorbAll(start, ProgramRequests(Base58.DecodeOf, progs[..k]))
    {
      var key := Base58.Decode(progs[k]);
      if key.None? { return None; }
      ProgramStep(Base58.DecodeOf, progs, k, start, key.value);
      BareAbsorb(table, key.value);
      if Find(table, key.value).None? {
        table := table + [Meta(key.value, false, false)];
      }
    }
    assert progs[..|progs|] == progs;
    return Some(table);
  }

  method Filter(table: seq<Meta>, feePayer: Bytes, isSigner: bool, isWritable: bool) returns (chosen: seq<Meta>)
    ensures chosen == Select(table, feePayer, isSigner, isWritable)
  {
    chosen := [];
    for k := 0 to |table|
      invariant chosen == Select(table[..k], feePayer, isSigner, isWritable)
    {
      assert table[..k + 1][..k] == table[..k];
      if table[k].pubkey != feePayer && table[k].isSigner == isSigner && table[k].isWritable == isWritable {
        chosen := chosen + [table[k]];
      }
    }
    assert table[..|table|] == table;
  }

  lemma {:induction false} FlattenConcat(a: seq<Bytes>, b: seq<Bytes>)
    ensures Flatten(a + b) == Flatten(a) + Flatten(b)
  {
    if a == [] {
      assert a + b == b;
    } else {
      assert (a + b)[1..] == a[1..] + b;
      FlattenConcat(a[1..], b);
    }
  }

  /** Allocate the output once and copy every part to its offset. */
  method CopyParts(parts: seq<Bytes>) returns (out: array<byte>)
    ensures fresh(out)
    ensures out[..] == Flatten(parts)
  {
    var total := 0;
    for k := 0 to |parts|
      invariant total == |Flatten(parts[..k])|
    {
      assert parts[..k + 1] == parts[..k] + [parts[k]];
      FlattenConcat(parts[..k], [parts[k]]);
      assert Flatten([parts[k]]) == parts[k];
      total := total + |parts[k]|;
    }
    assert parts[..|parts|] == parts;
    out := new byte[total];
    var off := 0;
    for k := 0 to |parts|
      invariant off == |Flatten(parts[..k])| <= out.Length
      invariant out[..off] == Flatten(parts[..k])
    {
      assert parts == parts[..k] + ([parts[k]] + parts[k + 1..]);
      FlattenConcat(parts[..k], [parts[k]] + parts[k + 1..]);
      FlattenConcat([parts[k]], parts[k + 1..]);
      assert Flatten([parts[k]]) == parts[k];
      ghost var done := out[..off];
      var part := parts[k];
      forall j | 0 <= j < |part| { out[off + j] := part[j]; }
      assert out[..off] == done;
      assert out[..off + |part|] == done + part;
      assert parts[..k + 1] == parts[..k] + [parts[k]];
      FlattenConcat(parts[..k], [parts[k]]);
      off := off + |part|;
    }
    assert parts[..|parts|] == parts;
  }

  function InstructionParts(ixs: seq<Compiled>): seq<Bytes> {
    if ixs == [] then []
    else
      var ix := ixs[|ixs| - 1];
      InstructionParts(ixs[..|ixs| - 1])
      + [[ix.program], CompactU16(|ix.accounts|), ix.accounts, CompactU16(|ix.data|), ix.data]
  }

  lemma {:induction false} WriteSnoc(ixs: seq<Compiled>, ix: Compiled)
    ensures WriteInstructions(ixs + [ix]) == WriteInstructions(ixs) + WriteInstruction(ix)
  {
    if ixs == [] {
      assert ixs + [ix] == [ix];
      assert WriteInstructions([ix][1..]) == [];
    } else {
      assert (ixs + [ix])[1..] == ixs[1..] + [ix];
      WriteSnoc(ixs[1..], ix);
    }
  }

  lemma {:induction false} FlattenCons(a: Bytes, rest: seq<Bytes>)
    ensures Flatten([a] + rest) == a + Flatten(rest)
  {
    assert ([a] + rest)[1..] == rest;
  }

  lemma {:induction false} FlattenTwo(a: Bytes, b: Bytes)
    ensures Flatten([a, b]) == a + b
  {
    assert [a, b] == [a] + ([b] + []);
    FlattenCons(a, [b] + []);
    FlattenCons(b, []);
  }

  lemma {:induction false} FlattenFive(a: Bytes, b: Bytes, c: Bytes, d: Bytes, e: Bytes)
    ensures Flatten([a, b, c, d, e]) == a + b + c + d + e
  {
    assert [a, b, c, d, e] == [a, b] + ([c] + [d, e]);
    FlattenConcat([a, b], [c] + [d, e]);
    FlattenTwo(a, b);
    FlattenCons(c, [d, e]);
    FlattenTwo(d, e);
    assert a + b + c + d + e == (a + b) + (c + (d + e));
  }

  lemma {:induction false} InstructionPartsFlatten(ixs: seq<Compiled>)
    ensures Flatten(InstructionParts(ixs)) == WriteInstructions(ixs)
  {
    if ixs != [] {
      var init, ix := ixs[..|ixs| - 1], ixs[|ixs| - 1];
      InstructionPartsFlatten(init);
      FlattenConcat(InstructionParts(init), [[ix.program], CompactU16(|ix.accounts|), ix.accounts, CompactU16(|ix.data|), ix.data]);
      FlattenFive([ix.program], CompactU16(|ix.accounts|), ix.accounts, CompactU16(|ix.data|), ix.data);
      assert init + [ix] == ixs;
      WriteSnoc(init, ix);
    }
  }

  /** Collect the parts of the message in order, then copy them into one buffer. */
  method Emit(m: Message) returns (out: array<byte>)
    ensures fresh(out)
    ensures out[..] == Write(m)
  {
    var parts: seq<Bytes> := [[m.signers, m.readonlySigned, m.readonlyUnsigned], CompactU16(|m.keys|)];
    parts := parts + m.keys;
    parts := parts + [m.blockhash, CompactU16(|m.ixs|)];
    ghost var head := parts;
    for k := 0 to |m.ixs|
      invariant parts == head + InstructionParts(m.ixs[..k])
    {
      var ix := m.ixs[k];
      assert m.ixs[..k + 1][..k] == m.ixs[..k];
      parts := parts + [[ix.program], CompactU16(|ix.accounts|), ix.accounts, CompactU16(|ix.data|), ix.data];
    }
    assert m.ixs[..|m.ixs|] == m.ixs;
    out := CopyParts(parts);
    PartsFlatten(m);
  }

  lemma {:induction false} PartsFlatten(m: Message)
    ensures Flatten([[m.signers, m.readonlySigned, m.readonlyUnsigned], CompactU16(|m.keys|)] + m.keys
                    + [m.blockhash, CompactU16(|m.ixs|)] + InstructionParts(m.ixs)) == Write(m)
  {
    var header: seq<Bytes> := [[m.signers, m.readonlySigned, m.readonlyUnsigned], CompactU16(|m.keys|)];
    var hash: seq<Bytes> := [m.blockhash, CompactU16(|m.ixs|)];
    FlattenConcat(header + m.keys + hash, InstructionParts(m.ixs));
    FlattenConcat(header + m.keys, hash);
    FlattenConcat(header, m.keys);
    FlattenTwo([m.signers, m.readonlySigned, m.readonlyUnsigned], CompactU16(|m.keys|));
    FlattenTwo(m.blockhash, CompactU16(|m.ixs|));
    InstructionPartsFlatten(m.ixs);
  }

  lemma {:induction false} OrderedParts(table: seq<Meta>, feePayer: Bytes, ordered: seq<Meta>)
    requires Find(table, feePayer).Some?
    requires ordered == [table[Find(table, feePayer).value]] + Select(table, feePayer, true, true)
      + Select(table, feePayer, true, false) + Select(table, feePayer, false, true) + Select(table, feePayer, false, false)
    ensures ordered == Ordered(table, feePayer)
  {
  }

  lemma {:induction false} AssembleParts(
    table: seq<Meta>, ixs: seq<Instruction>, feePayer: Bytes, blockhash: Bytes, ordered: seq<Meta>, m: Message)
    requires Find(table, feePayer).Some? && ProgramsDecode(Base58.DecodeOf, ixs) && ordered == Ordered(table, feePayer)
    requires m == Message(
      (1 + |Select(table, feePayer, true, true)| + |Select(table, feePayer, true, false)|) % 256,
      |Select(table, feePayer, true, false)| % 256, |Select(table, feePayer, false, false)| % 256,
      KeysOf(ordered), blockhash, CompileInstructions(Base58.DecodeOf, ordered, ixs))
    ensures m == Assemble(Base58.DecodeOf, table, ixs, feePayer, blockhash)
  {
  }

  method Layout(table: seq<Meta>, ixs: seq<Instruction>, feePayer: Bytes, blockhash: Bytes) returns (out: array<byte>)
    requires Find(table, feePayer).Some? && ProgramsDecode(Base58.DecodeOf, ixs)
    ensures fresh(out)
    ensures out[..] == Write(Assemble(Base58.DecodeOf, table, ixs, feePayer, blockhash))
  {
    var fp := table[Find(table, feePayer).value];
    var sw := Filter(table, feePayer, true, true);
    var sr := Filter(table, feePayer, true, false);
    var uw := Filter(table, feePayer, false, true);
    var ur := Filter(table, feePayer, false, false);
    var ordered := [fp] + sw + sr + uw + ur;
    OrderedParts(table, feePayer, ordered);
    var m := Message((1 + |sw| + |sr|) % 256, |sr| % 256, |ur| % 256, KeysOf(ordered), blockhash,
                     CompileInstructions(Base58.DecodeOf, ordered, ixs));
    AssembleParts(table, ixs, feePayer, blockhash, ordered, m);
    out := Emit(m);
  }

  method CompileMessage(ixs: seq<Instruction>, feePayer: Bytes, signer: Bytes, blockhash: Bytes) returns (r: Option<array<byte>>)
    ensures r.Some? ==> fresh(r.value)
    ensures r.Some? <==> ProgramsDecode(Base58.DecodeOf, ixs)
    ensures r.Some? ==> r.value[..] == Write(MessageOf(Base58.DecodeOf, ixs, feePayer, signer, blockhash).value)
  {
    var complete := BuildTable(ixs, feePayer, signer);
    DecodableIff(Base58.DecodeOf, ixs);
    if complete.None? { return None; }
    PayerIsInTable(Base58.DecodeOf, ixs, feePayer, signer);
    var out := Layout(complete.value, ixs, feePayer, blockhash);
    return Some(out);
  }

  method BuildTable(ixs: seq<Instruction>, feePayer: Bytes, signer: Bytes) returns (r: Option<seq<Meta>>)
    ensures r.Some? <==> Decodable(Base58.DecodeOf, ProgramIds(ixs))
    ensures r.Some? ==> r.value == TableOf(Base58.DecodeOf, ixs, feePayer, signer)
  {
    var table := [Meta(feePayer, true, true)];
    if signer != feePayer {
      table := table + [Meta(signer, true, true)];
    }
    assert table == StartTable(feePayer, signer);
    var absorbed, progs := AbsorbInstructions(ixs, table);
    r := AbsorbPrograms(progs, absorbed);
  }
}
