/** Reading the instructions sysvar (ignite-pay-program/src/lib.rs, last part):
    does an instruction of the expected program, before the current one, carry this key and message? */
module Introspection {
  import opened Bytes

  const SELF_REF: u16 := 0xFFFF

  /** The program id that the walk looks for: base58 of Ed25519SigVerify and 28 ones. */
  const EXPECTED_PROGRAM_ID: Digest :=
    [0xca, 0x62, 0x0c, 0x98, 0x39, 0x87, 0x09, 0x10, 0x4c, 0x79, 0x14, 0x83, 0xce, 0x00, 0xb9, 0xc7,
     0x3b, 0x7a, 0x58, 0x93, 0x0d, 0x67, 0x5a, 0xe1, 0x45, 0xdd, 0x6f, 0x85, 0x00, 0x00, 0x00, 0x00]

  /** The id of the precompile that verifies signatures: base58 of Ed25519SigVerify and 27 ones. */
  const ED25519_PRECOMPILE_ID: Digest :=
    [0x03, 0x7d, 0x46, 0xd6, 0x7c, 0x93, 0xfb, 0xbe, 0x12, 0xf9, 0x42, 0x8f, 0x83, 0x8d, 0x40, 0xff,
     0x05, 0x70, 0x74, 0x49, 0x27, 0xf4, 0x8a, 0x64, 0xfc, 0xca, 0x70, 0x44, 0x80, 0x00, 0x00, 0x00]

  // ----- The parser -----

  function ReadCurrentIxIndex(data: bytes): Option<u16>
  {
    if |data| < 2 then None else Some(U16At(data, |data| - 2))
  }

  /** The checks on the data of one instruction of the expected program. */
  predicate DataMatches(d: bytes, pubkey: Digest, message: bytes)
  {
    && |d| >= 16 && d[0] == 1 && d[1] == 0
    && U16At(d, 4) == SELF_REF && U16At(d, 8) == SELF_REF && U16At(d, 14) == SELF_REF
    && U16At(d, 6) + 32 <= |d| && U16At(d, 10) + U16At(d, 12) <= |d|
    && d[U16At(d, 6)..U16At(d, 6) + 32] == pubkey
    && d[U16At(d, 10)..U16At(d, 10) + U16At(d, 12)] == message
  }

  /** Program id and data of the instruction record at `offset`, if it lies before the last two bytes. */
  function ParseRecord(data: bytes, offset: nat): Option<(bytes, bytes)>
    requires |data| >= 2
  {
    var end := |data| - 2;
    if offset + 2 > end then None else
    var p: nat := offset + 2 + 33 * U16At(data, offset);
    if p + 34 > end then None else
    var n: nat := U16At(data, p + 32);
    if p + 34 + n > end then None else
    Some((data[p..p + 32], data[p + 34..p + 34 + n]))
  }

  predicate RecordMatches(data: bytes, offset: nat, pubkey: Digest, message: bytes)
    requires |data| >= 2
  {
    match ParseRecord(data, offset)
    case None => false
    case Some((programId, d)) => programId == EXPECTED_PROGRAM_ID && DataMatches(d, pubkey, message)
  }

  predicate EntryMatches(data: bytes, i: nat, pubkey: Digest, message: bytes)
    requires |data| >= 2
  {
    && 4 + 2 * i <= |data| - 2
    && RecordMatches(data, U16At(data, 2 + 2 * i), pubkey, message)
  }

  /** What the walk over the preceding instructions decides. */
  predicate Verified(data: bytes, pubkey: Digest, message: bytes, currentIxIndex: u16)
  {
    && |data| >= 4
    && exists i: nat :: i < U16At(data, 0) && i < currentIxIndex && EntryMatches(data, i, pubkey, message)
  }

  /** The program's walk. No read is out of bounds, whatever the bytes are. */
  method VerifyEd25519(data: bytes, expectedPubkey: Digest, message: bytes, currentIxIndex: u16) returns (ok: bool)
    ensures ok <==> Verified(data, expectedPubkey, message, currentIxIndex)
  {
    if |data| < 4 {
      return false;
    }
    var numInstructions := U16At(data, 0);
    var ixIdx := 0;
    while ixIdx < numInstructions
      invariant 0 <= ixIdx <= numInstructions
      invariant forall i: nat :: i < ixIdx ==> !EntryMatches(data, i, expectedPubkey, message)
      decreases numInstructions - ixIdx
    {
      if ixIdx >= currentIxIndex {
        break;
      }
      var tablePos := 2 + 2 * ixIdx;
      if tablePos + 2 > |data| - 2 {
        break;
      }
      var found := CheckRecord(data, U16At(data, tablePos), expectedPubkey, message);
      if found {
        assert EntryMatches(data, ixIdx, expectedPubkey, message);
        return true;
      }
      ixIdx := ixIdx + 1;
    }
    ok := false;
  }

  /** The body of the walk for one record, with a moving position. */
  method CheckRecord(data: bytes, ixOffset: u16, expectedPubkey: Digest, message: bytes) returns (ok: bool)
    requires |data| >= 4
    ensures ok <==> RecordMatches(data, ixOffset, expectedPubkey, message)
  {
    if ixOffset >= |data| - 2 {
      return false;
    }
    var pos: nat := ixOffset;
    if pos + 2 > |data| - 2 {
      return false;
    }
    var numAccounts: nat := U16At(data, pos);
    pos := pos + 2;
    pos := pos + numAccounts * 33;
    if pos + 32 > |data| - 2 {
      return false;
    }
    var programId := data[pos..pos + 32];
    pos := pos + 32;
    if programId != EXPECTED_PROGRAM_ID {
      return false;
    }
    if pos + 2 > |data| - 2 {
      return false;
    }
    var dataLen := U16At(data, pos);
    pos := pos + 2;
    if pos + dataLen > |data| - 2 {
      return false;
    }
    ok := CheckData(data[pos..pos + dataLen], expectedPubkey, message);
  }

  method CheckData(ixSlice: bytes, expectedPubkey: Digest, message: bytes) returns (ok: bool)
    ensures ok <==> DataMatches(ixSlice, expectedPubkey, message)
  {
    if |ixSlice| < 16 || ixSlice[0] != 1 || ixSlice[1] != 0 {
      return false;
    }
    var pkOffset := U16At(ixSlice, 6);
    var msgOffset := U16At(ixSlice, 10);
    var msgSize := U16At(ixSlice, 12);
    if U16At(ixSlice, 4) != SELF_REF || U16At(ixSlice, 8) != SELF_REF || U16At(ixSlice, 14) != SELF_REF {
      return false;
    }
    if pkOffset + 32 > |ixSlice| || msgOffset + msgSize > |ixSlice| {
      return false;
    }
    var pk := ixSlice[pkOffset..pkOffset + 32];
    var msg := ixSlice[msgOffset..msgOffset + msgSize];
    ok := pk == expectedPubkey && msg == message;
  }

  // ----- The documented layout -----

  datatype AccountMeta = AccountMeta(flags: byte, pubkey: Digest)
  datatype Instruction = Instruction(accounts: seq<AccountMeta>, programId: Digest, data: bytes)

  function SerializeAccounts(accounts: seq<AccountMeta>): (b: bytes)
    ensures |b| == 33 * |accounts|
  {
    if accounts == [] then [] else [accounts[0].flags] + accounts[0].pubkey + SerializeAccounts(accounts[1..])
  }

  function SerializeInstruction(ix: Instruction): (b: bytes)
    ensures |b| == 36 + 33 * |ix.accounts| + |ix.data|
  {
    LE16(|ix.accounts|) + (SerializeAccounts(ix.accounts) + (ix.programId + (LE16(|ix.data|) + ix.data)))
  }

  function Bodies(ixs: seq<Instruction>): bytes
  {
    if ixs == [] then [] else SerializeInstruction(ixs[0]) + Bodies(ixs[1..])
  }

  /** Byte offset of instruction `i` when the first one starts at `base`. */
  function OffsetOf(ixs: seq<Instruction>, base: nat, i: nat): (o: nat)
    requires i < |ixs|
    ensures o >= base
  {
    if i == 0 then base else OffsetOf(ixs[1..], base + |SerializeInstruction(ixs[0])|, i - 1)
  }

  function OffsetTable(ixs: seq<Instruction>, base: nat): (b: bytes)
    ensures |b| == 2 * |ixs|
  {
    if ixs == [] then [] else LE16(base) + OffsetTable(ixs[1..], base + |SerializeInstruction(ixs[0])|)
  }

  function Serialize(ixs: seq<Instruction>, current: u16): bytes
  {
    LE16(|ixs|) + (OffsetTable(ixs, 2 + 2 * |ixs|) + (Bodies(ixs) + LE16(current)))
  }

  /** Every count, length and offset of the layout fits its 16-bit field. */
  ghost predicate FitsU16(ixs: seq<Instruction>)
  {
    && |ixs| <= U16_MAX
    && forall i :: 0 <= i < |ixs| ==>
                     && |ixs[i].accounts| <= U16_MAX && |ixs[i].data| <= U16_MAX
                     && OffsetOf(ixs, 2 + 2 * |ixs|, i) <= U16_MAX
  }

  /** Header of ed25519 instruction data with one signature. */
  datatype SignatureOffsets = SignatureOffsets(
    sigOffset: u16, sigIx: u16, pkOffset: u16, pkIx: u16, msgOffset: u16, msgSize: u16, msgIx: u16)

  function Header(o: SignatureOffsets): (b: bytes)
    ensures |b| == 16
  {
    [1, 0] + (LE16(o.sigOffset) + (LE16(o.sigIx) + (LE16(o.pkOffset) + (LE16(o.pkIx)
    + (LE16(o.msgOffset) + (LE16(o.msgSize) + LE16(o.msgIx)))))))
  }

  /** An instruction of the expected program with one signature, which finds key and message in its own data. */
  ghost predicate Carries(ix: Instruction, o: SignatureOffsets, pubkey: Digest, message: bytes)
  {
    && ix.programId == EXPECTED_PROGRAM_ID
    && Header(o) <= ix.data
    && o.sigIx == o.pkIx == o.msgIx == SELF_REF
    && o.pkOffset + 32 <= |ix.data| && ix.data[o.pkOffset..o.pkOffset + 32] == pubkey
    && o.msgOffset + o.msgSize <= |ix.data| && ix.data[o.msgOffset..o.msgOffset + o.msgSize] == message
  }

  /** What the walk accepts. */
  ghost predicate IsAccepted(ix: Instruction, pubkey: Digest, message: bytes)
  {
    exists o :: Carries(ix, o, pubkey, message)
  }

  // ----- Parsing what was serialized -----

  /** `piece` stands in `data` at `offset`. */
  ghost predicate At(data: bytes, offset: nat, piece: bytes)
  {
    offset + |piece| <= |data| && data[offset..offset + |piece|] == piece
  }

  lemma AtSplit(data: bytes, offset: nat, p: bytes, q: bytes)
    requires At(data, offset, p + q)
    ensures At(data, offset, p) && At(data, offset + |p|, q)
  {
    var s := data[offset..offset + |p + q|];
    assert s[..|p|] == p && s[|p|..] == q;
    assert data[offset..offset + |p|] == s[..|p|];
    assert data[offset + |p|..offset + |p| + |q|] == s[|p|..];
  }

  lemma AtU16(data: bytes, offset: nat, n: u16)
    requires At(data, offset, LE16(n))
    ensures U16At(data, offset) == n
  {
    var s := data[offset..offset + 2];
    assert s[0] == data[offset] && s[1] == data[offset + 1];
  }

  lemma LE16OfU16(b: bytes, i: nat)
    requires i + 2 <= |b|
    ensures LE16(U16At(b, i)) == [b[i], b[i + 1]]
  {
  }

  lemma {:induction false} TableHolds(data: bytes, ixs: seq<Instruction>, at: nat, base: nat, i: nat)
    requires i < |ixs| && At(data, at, OffsetTable(ixs, base))
    ensures At(data, at + 2 * i, LE16(OffsetOf(ixs, base, i)))
  {
    var next := base + |SerializeInstruction(ixs[0])|;
    AtSplit(data, at, LE16(base), OffsetTable(ixs[1..], next));
    if i > 0 { TableHolds(data, ixs[1..], at + 2, next, i - 1); }
  }

  lemma {:induction false} BodyHolds(data: bytes, ixs: seq<Instruction>, base: nat, i: nat)
    requires i < |ixs| && At(data, base, Bodies(ixs))
    ensures At(data, OffsetOf(ixs, base, i), SerializeInstruction(ixs[i]))
    ensures OffsetOf(ixs, base, i) + |SerializeInstruction(ixs[i])| <= base + |Bodies(ixs)|
  {
    AtSplit(data, base, SerializeInstruction(ixs[0]), Bodies(ixs[1..]));
    if i > 0 { BodyHolds(data, ixs[1..], base + |SerializeInstruction(ixs[0])|, i - 1); }
  }

  lemma RecordFields(data: bytes, offset: nat, ix: Instruction)
    requires |ix.accounts| <= U16_MAX && |ix.data| <= U16_MAX
    requires At(data, offset, SerializeInstruction(ix))
    ensures
      var p := offset + 2 + 33 * |ix.accounts|;
      && U16At(data, offset) == |ix.accounts|
      && At(data, p, ix.programId)
      && p + 34 <= |data| && U16At(data, p + 32) == |ix.data|
      && At(data, p + 34, ix.data)
  {
    var tail := LE16(|ix.data|) + ix.data;
    var p := offset + 2 + 33 * |ix.accounts|;
    AtSplit(data, offset, LE16(|ix.accounts|), SerializeAccounts(ix.accounts) + (ix.programId + tail));
    AtSplit(data, offset + 2, SerializeAccounts(ix.accounts), ix.programId + tail);
    AtSplit(data, p, ix.programId, tail);
    AtSplit(data, p + 32, LE16(|ix.data|), ix.data);
    AtU16(data, offset, |ix.accounts|);
    AtU16(data, p + 32, |ix.data|);
  }

  lemma RecordHolds(data: bytes, offset: nat, ix: Instruction)
    requires |ix.accounts| <= U16_MAX && |ix.data| <= U16_MAX
    requires At(data, offset, SerializeInstruction(ix))
    requires offset + |SerializeInstruction(ix)| <= |data| - 2
    ensures ParseRecord(data, offset) == Some((ix.programId, ix.data))
  {
    RecordFields(data, offset, ix);
  }

  lemma HeaderFields(d: bytes, o: SignatureOffsets)
    requires Header(o) <= d
    ensures d[0] == 1 && d[1] == 0
    ensures U16At(d, 4) == o.sigIx && U16At(d, 6) == o.pkOffset && U16At(d, 8) == o.pkIx
    ensures U16At(d, 10) == o.msgOffset && U16At(d, 12) == o.msgSize && U16At(d, 14) == o.msgIx
  {
    var h6 := LE16(o.msgSize) + LE16(o.msgIx);
    var h5 := LE16(o.msgOffset) + h6;
    var h4 := LE16(o.pkIx) + h5;
    var h3 := LE16(o.pkOffset) + h4;
    var h2 := LE16(o.sigIx) + h3;
    var h1 := LE16(o.sigOffset) + h2;
    assert At(d, 0, [1, 0] + h1);
    AtSplit(d, 0, [1, 0], h1);
    AtSplit(d, 2, LE16(o.sigOffset), h2);
    AtSplit(d, 4, LE16(o.sigIx), h3);
    AtSplit(d, 6, LE16(o.pkOffset), h4);
    AtSplit(d, 8, LE16(o.pkIx), h5);
    AtSplit(d, 10, LE16(o.msgOffset), h6);
    AtSplit(d, 12, LE16(o.msgSize), LE16(o.msgIx));
    AtU16(d, 4, o.sigIx);
    AtU16(d, 6, o.pkOffset);
    AtU16(d, 8, o.pkIx);
    AtU16(d, 10, o.msgOffset);
    AtU16(d, 12, o.msgSize);
    AtU16(d, 14, o.msgIx);
    assert d[0..2] == [1, 0] && d[0..2][0] == d[0] && d[0..2][1] == d[1];
  }

  /** Every 16 bytes that start with 1, 0 are a header. */
  lemma HeaderOf(d: bytes) returns (o: SignatureOffsets)
    requires |d| >= 16 && d[0] == 1 && d[1] == 0
    ensures Header(o) <= d
  {
    o := SignatureOffsets(U16At(d, 2), U16At(d, 4), U16At(d, 6), U16At(d, 8), U16At(d, 10), U16At(d, 12), U16At(d, 14));
    LE16OfU16(d, 2);
    LE16OfU16(d, 4);
    LE16OfU16(d, 6);
    LE16OfU16(d, 8);
    LE16OfU16(d, 10);
    LE16OfU16(d, 12);
    LE16OfU16(d, 14);
  }

  lemma CarriesMatches(ix: Instruction, o: SignatureOffsets, pubkey: Digest, message: bytes)
    requires Carries(ix, o, pubkey, message)
    ensures DataMatches(ix.data, pubkey, message)
  {
    HeaderFields(ix.data, o);
  }

  lemma MatchesCarries(ix: Instruction, pubkey: Digest, message: bytes) returns (o: SignatureOffsets)
    requires ix.programId == EXPECTED_PROGRAM_ID && DataMatches(ix.data, pubkey, message)
    ensures Carries(ix, o, pubkey, message)
  {
    o := HeaderOf(ix.data);
    HeaderFields(ix.data, o);
  }

  /** The parser's byte checks say exactly that the instruction carries key and message. */
  lemma DataMatchesMeaning(ix: Instruction, pubkey: Digest, message: bytes)
    ensures ix.programId == EXPECTED_PROGRAM_ID && DataMatches(ix.data, pubkey, message)
            <==> IsAccepted(ix, pubkey, message)
  {
    if o :| Carries(ix, o, pubkey, message) {
      CarriesMatches(ix, o, pubkey, message);
    }
    if ix.programId == EXPECTED_PROGRAM_ID && DataMatches(ix.data, pubkey, message) {
      var o := MatchesCarries(ix, pubkey, message);
    }
  }

  lemma AtSplit4(p: bytes, q: bytes, r: bytes, t: bytes)
    ensures At(p + (q + (r + t)), 0, p)
    ensures At(p + (q + (r + t)), |p|, q)
    ensures At(p + (q + (r + t)), |p| + |q|, r)
    ensures At(p + (q + (r + t)), |p| + |q| + |r|, t)
  {
    var data := p + (q + (r + t));
    assert At(data, 0, data);
    AtSplit(data, 0, p, q + (r + t));
    AtSplit(data, |p|, q, r + t);
    AtSplit(data, |p| + |q|, r, t);
  }

  /** Where the parts of a serialized transaction stand. */
  ghost predicate Layout(data: bytes, ixs: seq<Instruction>, current: u16)
  {
    && |data| == 4 + 2 * |ixs| + |Bodies(ixs)|
    && At(data, 0, LE16(|ixs|))
    && At(data, 2, OffsetTable(ixs, 2 + 2 * |ixs|))
    && At(data, 2 + 2 * |ixs|, Bodies(ixs))
    && At(data, |data| - 2, LE16(current))
  }

  lemma SerializedLayout(ixs: seq<Instruction>, current: u16)
    ensures Layout(Serialize(ixs, current), ixs, current)
  {
    AtSplit4(LE16(|ixs|), OffsetTable(ixs, 2 + 2 * |ixs|), Bodies(ixs), LE16(current));
  }

  lemma LayoutEnds(data: bytes, ixs: seq<Instruction>, current: u16)
    requires Layout(data, ixs, current) && |ixs| <= U16_MAX
    ensures U16At(data, 0) == |ixs| && ReadCurrentIxIndex(data) == Some(current)
  {
    AtU16(data, 0, |ixs|);
    AtU16(data, |data| - 2, current);
  }

  lemma LayoutEntry(data: bytes, ixs: seq<Instruction>, current: u16, i: nat)
    requires Layout(data, ixs, current) && FitsU16(ixs) && i < |ixs|
    ensures ParseRecord(data, U16At(data, 2 + 2 * i)) == Some((ixs[i].programId, ixs[i].data))
  {
    var base := 2 + 2 * |ixs|;
    TableHolds(data, ixs, 2, base, i);
    assert |ixs[i].data| <= U16_MAX && OffsetOf(ixs, base, i) <= U16_MAX;
    AtU16(data, 2 + 2 * i, OffsetOf(ixs, base, i));
    BodyHolds(data, ixs, base, i);
    RecordHolds(data, OffsetOf(ixs, base, i), ixs[i]);
  }

  lemma LayoutVerified(data: bytes, ixs: seq<Instruction>, current: u16, pubkey: Digest, message: bytes)
    requires Layout(data, ixs, current) && FitsU16(ixs)
    ensures Verified(data, pubkey, message, current)
            <==> exists i: nat :: i < |ixs| && i < current && IsAccepted(ixs[i], pubkey, message)
  {
    LayoutEnds(data, ixs, current);
    forall i: nat | i < |ixs|
      ensures EntryMatches(data, i, pubkey, message) <==> IsAccepted(ixs[i], pubkey, message)
    {
      LayoutEntry(data, ixs, current, i);
      DataMatchesMeaning(ixs[i], pubkey, message);
    }
  }

  /** Parser correctness: over every transaction in the documented layout, verification succeeds
      exactly when an instruction before the current one carries the key and the message. */
  lemma SysvarParserCorrect(ixs: seq<Instruction>, current: u16, pubkey: Digest, message: bytes)
    requires FitsU16(ixs)
    ensures ReadCurrentIxIndex(Serialize(ixs, current)) == Some(current)
    ensures Verified(Serialize(ixs, current), pubkey, message, current)
            <==> exists i: nat :: i < |ixs| && i < current && IsAccepted(ixs[i], pubkey, message)
  {
    SerializedLayout(ixs, current);
    LayoutEnds(Serialize(ixs, current), ixs, current);
    LayoutVerified(Serialize(ixs, current), ixs, current, pubkey, message);
  }
}
