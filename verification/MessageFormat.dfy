/** The wire format of a legacy Solana message: writing it and reading it back. */
module MessageFormat {
  import opened Common

  type Bytes = seq<byte>

  datatype Compiled = Compiled(program: byte, accounts: Bytes, data: Bytes)

  datatype Message = Message(
    signers: byte, readonlySigned: byte, readonlyUnsigned: byte, keys: seq<Bytes>, blockhash: Bytes, ixs: seq<Compiled>)

  const KEY_BYTES: nat := 32

  const COMPACT_LIMIT: nat := 0x1_0000

  function CompactU16(v: nat): Bytes {
    if v < 0x80 then [v]
    else if v < 0x4000 then [v % 0x80 + 0x80, v / 0x80]
    else [v % 0x80 + 0x80, (v / 0x80) % 0x80 + 0x80, (v / 0x4000) % 256]
  }

  // ── Writing ──

  function Flatten(parts: seq<Bytes>): Bytes {
    if parts == [] then [] else parts[0] + Flatten(parts[1..])
  }

  function WriteInstruction(ix: Compiled): Bytes {
    [ix.program] + CompactU16(|ix.accounts|) + ix.accounts + CompactU16(|ix.data|) + ix.data
  }

  function WriteInstructions(ixs: seq<Compiled>): Bytes {
    if ixs == [] then [] else WriteInstruction(ixs[0]) + WriteInstructions(ixs[1..])
  }

  function Write(m: Message): Bytes {
    [m.signers, m.readonlySigned, m.readonlyUnsigned] + CompactU16(|m.keys|) + Flatten(m.keys) + m.blockhash
    + CompactU16(|m.ixs|) + WriteInstructions(m.ixs)
  }

  // ── Reading ──

  datatype Reading<+T> = Read(value: T, rest: Bytes) | Bad

  function ReadCompact(b: Bytes): Reading<nat> {
    if |b| < 1 then Bad
    else if b[0] < 0x80 then Read(b[0], b[1..])
    else if |b| < 2 then Bad
    else if b[1] < 0x80 then Read(b[0] - 0x80 + 0x80 * (b[1] as nat), b[2..])
    else if |b| < 3 || b[2] > 3 then Bad
    else Read(b[0] - 0x80 + 0x80 * (b[1] - 0x80) as nat + 0x4000 * (b[2] as nat), b[3..])
  }

  function ReadBytes(n: nat, b: Bytes): Reading<Bytes> {
    if |b| < n then Bad else Read(b[..n], b[n..])
  }

  /** A length-prefixed byte list. */
  function ReadVector(b: Bytes): Reading<Bytes> {
    match ReadCompact(b)
    case Bad => Bad
    case Read(n, rest) => ReadBytes(n, rest)
  }

  function ReadKeys(n: nat, b: Bytes): Reading<seq<Bytes>> {
    if n == 0 then Read([], b)
    else
      match ReadBytes(KEY_BYTES, b)
      case Bad => Bad
      case Read(key, rest) =>
        match ReadKeys(n - 1, rest)
        case Bad => Bad
        case Read(keys, rest') => Read([key] + keys, rest')
  }

  function ReadInstruction(b: Bytes): Reading<Compiled> {
    if |b| < 1 then Bad
    else
      match ReadVector(b[1..])
      case Bad => Bad
      case Read(accounts, rest) =>
        match ReadVector(rest)
        case Bad => Bad
        case Read(data, rest') => Read(Compiled(b[0], accounts, data), rest')
  }

  function ReadInstructions(n: nat, b: Bytes): Reading<seq<Compiled>> {
    if n == 0 then Read([], b)
    else
      match ReadInstruction(b)
      case Bad => Bad
      case Read(ix, rest) =>
        match ReadInstructions(n - 1, rest)
        case Bad => Bad
        case Read(ixs, rest') => Read([ix] + ixs, rest')
  }

  /** The message the bytes denote; absent when they are malformed or bytes are left over. */
  function ReadMessage(b: Bytes): Option<Message> {
    if |b| < 3 then None
    else
      match ReadCompact(b[3..])
      case Bad => None
      case Read(keyCount, afterCount) =>
        match ReadKeys(keyCount, afterCount)
        case Bad => None
        case Read(keys, afterKeys) =>
          match ReadBytes(KEY_BYTES, afterKeys)
          case Bad => None
          case Read(blockhash, afterHash) =>
            match ReadCompact(afterHash)
            case Bad => None
            case Read(ixCount, afterIxCount) =>
              match ReadInstructions(ixCount, afterIxCount)
              case Bad => None
              case Read(ixs, rest) =>
                if rest == [] then Some(Message(b[0], b[1], b[2], keys, blockhash, ixs)) else None
  }

  // ── Reading back what was written ──

  lemma {:induction false} ReadCompactBack(v: nat, rest: Bytes)
    requires v < COMPACT_LIMIT
    ensures ReadCompact(CompactU16(v) + rest) == Read(v, rest)
  {
    var b := CompactU16(v) + rest;
    assert b[|CompactU16(v)|..] == rest;
    if v >= 0x4000 {
      assert v / 0x4000 == (v / 0x80) / 0x80;
    }
  }

  /** A length is written in as few bytes as possible; lengths beyond sixteen bits lose their high bits. */
  lemma {:induction false} CompactIsShortest(v: nat)
    ensures |CompactU16(v)| == if v <= 0x7F then 1 else if v <= 0x3FFF then 2 else 3
    ensures v >= 0x4000 ==> CompactU16(v)[2] == (v / 0x4000) % 0x100
  {
  }

  /** What is read as a length fits in sixteen bits. */
  lemma {:induction false} ReadCompactIsBounded(b: Bytes)
    ensures ReadCompact(b).Read? ==> ReadCompact(b).value < 0x1_0000
  {
  }

  lemma {:induction false} ReadVectorBack(v: Bytes, rest: Bytes)
    requires |v| < COMPACT_LIMIT
    ensures ReadVector(CompactU16(|v|) + v + rest) == Read(v, rest)
  {
    assert CompactU16(|v|) + v + rest == CompactU16(|v|) + (v + rest);
    ReadCompactBack(|v|, v + rest);
    assert (v + rest)[..|v|] == v && (v + rest)[|v|..] == rest;
  }

  lemma {:induction false} ReadKeysBack(keys: seq<Bytes>, rest: Bytes)
    requires forall i :: 0 <= i < |keys| ==> |keys[i]| == KEY_BYTES
    ensures ReadKeys(|keys|, Flatten(keys) + rest) == Read(keys, rest)
  {
    if keys == [] {
      assert Flatten(keys) + rest == rest;
    } else {
      var more := Flatten(keys[1..]) + rest;
      assert Flatten(keys) + rest == keys[0] + more;
      assert (keys[0] + more)[..KEY_BYTES] == keys[0] && (keys[0] + more)[KEY_BYTES..] == more;
      ReadKeysBack(keys[1..], rest);
      assert [keys[0]] + keys[1..] == keys;
    }
  }

  predicate Writable(ix: Compiled) {
    |ix.accounts| < COMPACT_LIMIT && |ix.data| < COMPACT_LIMIT
  }

  lemma {:induction false} ReadInstructionBack(ix: Compiled, rest: Bytes)
    requires Writable(ix)
    ensures ReadInstruction(WriteInstruction(ix) + rest) == Read(ix, rest)
  {
    var b := WriteInstruction(ix) + rest;
    var tail := CompactU16(|ix.data|) + ix.data + rest;
    assert b[1..] == CompactU16(|ix.accounts|) + ix.accounts + tail;
    ReadVectorBack(ix.accounts, tail);
    ReadVectorBack(ix.data, rest);
  }

  lemma {:induction false} ReadInstructionsBack(ixs: seq<Compiled>, rest: Bytes)
    requires forall i :: 0 <= i < |ixs| ==> Writable(ixs[i])
    ensures ReadInstructions(|ixs|, WriteInstructions(ixs) + rest) == Read(ixs, rest)
  {
    if ixs == [] {
      assert WriteInstructions(ixs) + rest == rest;
    } else {
      var more := WriteInstructions(ixs[1..]) + rest;
      assert WriteInstructions(ixs) + rest == WriteInstruction(ixs[0]) + more;
      ReadInstructionBack(ixs[0], more);
      ReadInstructionsBack(ixs[1..], rest);
      assert [ixs[0]] + ixs[1..] == ixs;
    }
  }

  /** Everything written within the format's limits is read back unchanged. */
  lemma {:induction false} ReadBack(m: Message)
    requires |m.keys| < COMPACT_LIMIT && |m.ixs| < COMPACT_LIMIT && |m.blockhash| == KEY_BYTES
    requires forall i :: 0 <= i < |m.keys| ==> |m.keys[i]| == KEY_BYTES
    requires forall i :: 0 <= i < |m.ixs| ==> Writable(m.ixs[i])
    ensures ReadMessage(Write(m)) == Some(m)
  {
    var ixBytes := WriteInstructions(m.ixs);
    var afterHash := CompactU16(|m.ixs|) + ixBytes;
    var afterKeys := m.blockhash + afterHash;
    var afterCount := Flatten(m.keys) + afterKeys;
    assert ReadCompact(CompactU16(|m.keys|) + afterCount) == Read(|m.keys|, afterCount) by {
      ReadCompactBack(|m.keys|, afterCount);
    }
    assert ReadKeys(|m.keys|, afterCount) == Read(m.keys, afterKeys) by { ReadKeysBack(m.keys, afterKeys); }
    assert ReadBytes(KEY_BYTES, afterKeys) == Read(m.blockhash, afterHash) by { ReadBytesBack(m.blockhash, afterHash); }
    assert ReadCompact(afterHash) == Read(|m.ixs|, ixBytes) by { ReadCompactBack(|m.ixs|, ixBytes); }
    assert ReadInstructions(|m.ixs|, ixBytes) == Read(m.ixs, []) by {
      ReadInstructionsBack(m.ixs, []);
      assert ixBytes + [] == ixBytes;
    }
    WriteSplits(m, afterCount);
    ReadMessageSteps(Write(m), m, afterCount, afterKeys, afterHash, ixBytes);
  }

  lemma {:induction false} ReadBytesBack(v: Bytes, rest: Bytes)
    ensures ReadBytes(|v|, v + rest) == Read(v, rest)
  {
    assert (v + rest)[..|v|] == v && (v + rest)[|v|..] == rest;
  }

  lemma {:induction false} WriteSplits(m: Message, afterCount: Bytes)
    requires afterCount
      == Flatten(m.keys) + (m.blockhash + (CompactU16(|m.ixs|) + WriteInstructions(m.ixs)))
    ensures |Write(m)| >= 3 && Write(m)[0] == m.signers && Write(m)[1] == m.readonlySigned
    ensures Write(m)[2] == m.readonlyUnsigned && Write(m)[3..] == CompactU16(|m.keys|) + afterCount
  {
    var header := [m.signers, m.readonlySigned, m.readonlyUnsigned];
    RightToLeft(header, CompactU16(|m.keys|), Flatten(m.keys), m.blockhash, CompactU16(|m.ixs|), WriteInstructions(m.ixs));
    DropHeader(header, CompactU16(|m.keys|) + afterCount);
  }

  lemma {:induction false} RightToLeft(a: Bytes, b: Bytes, c: Bytes, d: Bytes, e: Bytes, f: Bytes)
    ensures a + b + c + d + e + f == a + (b + (c + (d + (e + f))))
  {
    assert a + b + c + d + (e + f) == a + b + c + (d + (e + f));
    assert a + b + (c + (d + (e + f))) == a + (b + (c + (d + (e + f))));
  }

  lemma {:induction false} DropHeader(a: Bytes, b: Bytes)
    ensures (a + b)[|a|..] == b && (a + b)[..|a|] == a
  {
  }

  /** The message that a chain of successful readings yields. */
  lemma {:induction false} ReadMessageSteps(
      b: Bytes, m: Message, afterCount: Bytes, afterKeys: Bytes, afterHash: Bytes, afterIxCount: Bytes)
    requires |b| >= 3 && b[0] == m.signers && b[1] == m.readonlySigned && b[2] == m.readonlyUnsigned
    requires ReadCompact(b[3..]) == Read(|m.keys|, afterCount)
    requires ReadKeys(|m.keys|, afterCount) == Read(m.keys, afterKeys)
    requires ReadBytes(KEY_BYTES, afterKeys) == Read(m.blockhash, afterHash)
    requires ReadCompact(afterHash) == Read(|m.ixs|, afterIxCount)
    requires ReadInstructions(|m.ixs|, afterIxCount) == Read(m.ixs, [])
    ensures ReadMessage(b) == Some(m)
  {
  }

  // ── Privileges read off the header ──

  predicate IsSigner(m: Message, i: nat) {
    i < m.signers
  }

  predicate IsWritable(m: Message, i: nat) {
    i < m.signers - m.readonlySigned || (m.signers <= i < |m.keys| - m.readonlyUnsigned)
  }
}
