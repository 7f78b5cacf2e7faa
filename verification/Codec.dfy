/** Blocks to and from their message form. */
module Codec {
  import opened Ledger
  import opened Hashing

  const WORD32: nat := 0x1_0000_0000
  const HALF64: int := 0x8000_0000_0000_0000

  /** The C++ object: eight slots, of which the first `maxInd` are meant to be filled. `verifier`
      is what the pointer points at, up to its terminating NUL. */
  datatype RawBlock = RawBlock(
    number: nat, prev: Digest, magic: nat, root: Digest,
    slots: seq<Option<Transaction>>, maxInd: nat, verifier: Bytes, finhash: Digest)

  datatype TransactionMsg = TransactionMsg(key: Key, vote: Bytes, timestamp: real)

  /** `magic` is a signed 64-bit field; `number` and `numTransactions` are unsigned 32-bit ones. */
  datatype BlockMsg = BlockMsg(
    number: nat, prev: Digest, magic: int, root: Digest,
    transactions: seq<TransactionMsg>, numTransactions: nat, verifier: Bytes, finhash: Digest)

  /** What the source needs of an object before it may be encoded: no read past the array and no
      read through an unset pointer. */
  predicate Encodable(b: RawBlock) {
    |b.slots| == TXS_PER_BLOCK && b.maxInd <= TXS_PER_BLOCK &&
    forall i :: 0 <= i < b.maxInd ==> b.slots[i].Some?
  }

  function EncodeTransaction(t: Transaction): TransactionMsg {
    TransactionMsg(t.key, t.vote, t.timestamp)
  }

  function DecodeTransaction(m: TransactionMsg): Transaction {
    Transaction(m.key, m.vote, m.timestamp)
  }

  function ToSigned(word: nat): int {
    var w := word % WORD64;
    if w < HALF64 then w else w - WORD64
  }

  function ToUnsigned(i: int): int {
    if i < 0 then i + WORD64 else i
  }

  /** A C string ends at its first NUL. */
  function CString(s: Bytes): Bytes {
    if s == [] || s[0] == 0 then [] else [s[0]] + CString(s[1..])
  }

  predicate NulFree(s: Bytes) {
    forall i :: 0 <= i < |s| ==> s[i] != 0
  }

  function Encoded(b: RawBlock): BlockMsg
    requires Encodable(b)
  {
    BlockMsg(b.number % WORD32, b.prev, ToSigned(b.magic), b.root,
             seq(b.maxInd, i requires 0 <= i < b.maxInd => EncodeTransaction(b.slots[i].value)),
             b.maxInd, CString(b.verifier), b.finhash)
  }

  function Decoded(m: BlockMsg): RawBlock
    requires |m.transactions| <= TXS_PER_BLOCK && -HALF64 <= m.magic < HALF64
  {
    RawBlock(m.number, m.prev, ToUnsigned(m.magic), m.root,
             seq(8, i requires 0 <= i => if i < |m.transactions| then Some(DecodeTransaction(m.transactions[i])) else None),
             m.numTransactions, m.verifier, m.finhash)
  }

  /** `encode_block`. */
  method EncodeBlock(b: RawBlock) returns (m: BlockMsg)
    requires Encodable(b)
    ensures m == Encoded(b)
    ensures m.number == b.number % WORD32 && m.prev == b.prev && m.root == b.root && m.finhash == b.finhash
    ensures m.magic == (if b.magic % WORD64 < HALF64 then b.magic % WORD64 else b.magic % WORD64 - WORD64)
    ensures m.numTransactions == |m.transactions| == b.maxInd
    ensures forall i :: 0 <= i < b.maxInd ==>
              var t := b.slots[i].value;
              m.transactions[i].key == t.key && m.transactions[i].vote == t.vote && m.transactions[i].timestamp == t.timestamp
    ensures m.verifier <= b.verifier && NulFree(m.verifier)
    ensures |m.verifier| < |b.verifier| ==> b.verifier[|m.verifier|] == 0
  {
    CStringIsPrefix(b.verifier);
    var transactions: seq<TransactionMsg> := [];
    for i := 0 to b.maxInd
      invariant |transactions| == i
      invariant forall j :: 0 <= j < i ==> transactions[j] == EncodeTransaction(b.slots[j].value)
    {
      transactions := transactions + [EncodeTransaction(b.slots[i].value)];
    }
    m := BlockMsg(b.number % WORD32, b.prev, ToSigned(b.magic), b.root, transactions, b.maxInd,
                  CString(b.verifier), b.finhash);
  }

  /** `decode_block`. */
  method DecodeBlock(m: BlockMsg) returns (b: RawBlock)
    requires |m.transactions| <= TXS_PER_BLOCK && -HALF64 <= m.magic < HALF64
    ensures b == Decoded(m)
    ensures b.number == m.number && b.prev == m.prev && b.root == m.root && b.finhash == m.finhash
    ensures b.magic == (if m.magic < 0 then m.magic + WORD64 else m.magic)
    ensures b.maxInd == m.numTransactions && b.verifier == m.verifier && |b.slots| == TXS_PER_BLOCK
    ensures forall i :: 0 <= i < TXS_PER_BLOCK ==>
              if i < |m.transactions| then
                b.slots[i] == Some(Transaction(m.transactions[i].key, m.transactions[i].vote, m.transactions[i].timestamp))
              else b.slots[i] == None
  {
    var slots: seq<Option<Transaction>> := [None, None, None, None, None, None, None, None];
    for i := 0 to |m.transactions|
      invariant |slots| == TXS_PER_BLOCK
      invariant forall j :: 0 <= j < TXS_PER_BLOCK ==>
                  slots[j] == if j < i then Some(DecodeTransaction(m.transactions[j])) else None
    {
      slots := slots[i := Some(DecodeTransaction(m.transactions[i]))];
    }
    b := RawBlock(m.number, m.prev, ToUnsigned(m.magic), m.root, slots, m.numTransactions, m.verifier, m.finhash);
  }

  /** A C string is everything before the first NUL. */
  lemma {:induction false} CStringIsPrefix(s: Bytes)
    ensures CString(s) <= s && NulFree(CString(s))
    ensures |CString(s)| < |s| ==> s[|CString(s)|] == 0
  {
    if s != [] && s[0] != 0 {
      CStringIsPrefix(s[1..]);
      assert s == [s[0]] + s[1..];
    }
  }

  lemma {:induction false} CStringIsWhole(s: Bytes)
    ensures CString(s) == s <==> NulFree(s)
  {
    if s != [] && s[0] != 0 {
      CStringIsWhole(s[1..]);
      assert s == [s[0]] + s[1..];
      if NulFree(s) {
        assert NulFree(s[1..]);
      }
      if CString(s) == s {
        assert CString(s)[1..] == CString(s[1..]);
      }
    }
  }

  /** Every 64-bit nonce survives the signed field. */
  lemma SignedRoundTrip(word: nat)
    ensures -HALF64 <= ToSigned(word) < HALF64
    ensures 0 <= ToUnsigned(ToSigned(word)) < WORD64
    ensures ToUnsigned(ToSigned(word)) == word <==> word < WORD64
  {
    assert word < WORD64 ==> word % WORD64 == word;
  }

  /** An object that carries nothing but what the message can carry. */
  predicate Canonical(b: RawBlock) {
    && b.number < WORD32 && b.magic < WORD64 && NulFree(b.verifier)
    && |b.slots| == TXS_PER_BLOCK
    && forall i :: b.maxInd <= i < TXS_PER_BLOCK ==> b.slots[i].None?
  }

  lemma SlotsSurvive(b: RawBlock)
    requires Encodable(b)
    ensures var d := Decoded(Encoded(b).(magic := 0));
            forall i :: 0 <= i < TXS_PER_BLOCK ==> d.slots[i] == if i < b.maxInd then b.slots[i] else None
  {
  }

  /** Decoding an encoded block gives the block back exactly for the canonical ones. */
  lemma RoundTripIff(b: RawBlock)
    requires Encodable(b)
    ensures -HALF64 <= Encoded(b).magic < HALF64
    ensures Decoded(Encoded(b)) == b <==> Canonical(b)
  {
    var d := Decoded(Encoded(b).(magic := 0));
    SignedRoundTrip(b.magic);
    CStringIsWhole(b.verifier);
    SlotsSurvive(b);
    assert (b.number % WORD32 == b.number) <==> b.number < WORD32;
    assert d.slots == b.slots <==> forall i :: 0 <= i < TXS_PER_BLOCK ==> d.slots[i] == b.slots[i];
    assert Decoded(Encoded(b)).slots == d.slots;
  }

  predicate WellFormed(m: BlockMsg) {
    && m.number < WORD32 && -HALF64 <= m.magic < HALF64 && NulFree(m.verifier)
    && m.numTransactions == |m.transactions| <= TXS_PER_BLOCK
  }

  /** A well-formed message survives being decoded and sent on. */
  lemma MessageRoundTrip(m: BlockMsg)
    requires WellFormed(m)
    ensures Encodable(Decoded(m)) && Canonical(Decoded(m)) && Encoded(Decoded(m)) == m
  {
    CStringIsWhole(m.verifier);
    var e := Encoded(Decoded(m));
    assert forall i :: 0 <= i < |m.transactions| ==> e.transactions[i] == m.transactions[i];
    assert e.transactions == m.transactions;
  }

  // ----- blocks of the ledger -----

  /** How a ledger block sits in memory. */
  function InMemory(b: Block): RawBlock
    requires |b.txs| <= TXS_PER_BLOCK
  {
    RawBlock(b.number, b.prev, b.magic, b.root,
             seq(8, i requires 0 <= i => if i < |b.txs| then Some(b.txs[i]) else None),
             |b.txs|, b.verifier, b.finhash)
  }

  /** A block that travels between peers arrives as it was sent, so every hash recomputed from
      it is the sender's. */
  lemma BlockTravels(b: Block)
    requires b.number < WORD32 && b.magic < WORD64 && NulFree(b.verifier) && |b.txs| <= TXS_PER_BLOCK
    ensures Encodable(InMemory(b)) && -HALF64 <= Encoded(InMemory(b)).magic < HALF64
    ensures Decoded(Encoded(InMemory(b))) == InMemory(b)
    ensures forall c: Block :: |c.txs| <= TXS_PER_BLOCK && InMemory(c) == InMemory(b) ==> c == b
  {
    RoundTripIff(InMemory(b));
    forall c: Block | |c.txs| <= TXS_PER_BLOCK && InMemory(c) == InMemory(b)
      ensures c == b
    {
      forall i | 0 <= i < |b.txs|
        ensures c.txs[i] == b.txs[i]
      {
        assert InMemory(c).slots[i] == Some(c.txs[i]) && InMemory(b).slots[i] == Some(b.txs[i]);
      }
    }
  }
}
