/** Blocks enter and leave the enclave under the hash of their content. */
module SecureBlockIo {
  import opened ByteCodec
  import opened Addressing

  /** The cryptographic operations, with the state encryption key already applied. */
  datatype Crypto = Crypto(
    hash: Bytes -> Bytes,
    mac: Bytes -> Bytes,
    seal: (nat, Bytes) -> Bytes,
    unseal: Bytes -> Bytes)

  /** All that is used of them: hashes are 32 bytes, decryption undoes encryption under every
      nonce. No hash is assumed to be free of collisions. */
  ghost predicate CryptoOk(c: Crypto) {
    && (forall m {:trigger c.hash(m)} :: |c.hash(m)| == 32)
    && (forall nonce, m {:trigger c.seal(nonce, m)} :: c.unseal(c.seal(nonce, m)) == m)
  }

  /** How an operation ends. `Collision` hands out two different blocks with one hash, `Exhausted`
      says that one more block would leave the 32-bit address space, `Unavailable` is the exception
      for a block that the block store has lost or forged, `Thrown` is any other exception. A run
      ends with `Damaging` before an operation that would damage the trie. */
  datatype Outcome = Pass | Collision(first: Bytes, second: Bytes) | Exhausted | Unavailable | Thrown | Damaging {
    predicate IsFailure() { !Pass? }
    function PropagateFailure(): Outcome requires IsFailure() { this }
  }

  /** A reported collision is one. */
  ghost predicate Genuine(c: Crypto, r: Outcome) {
    r.Collision? ==> r.first != r.second && c.hash(r.first) == c.hash(r.second)
  }

  /** What may be relied on however an operation ends: a collision is genuine, no block is missing
      from an intact block store, and space runs out only if `need` bytes do not fit. */
  ghost predicate Fair(c: Crypto, r: Outcome, intact: bool, need: nat) {
    Genuine(c, r) && (r.Unavailable? ==> !intact) && (r.Exhausted? ==> need > LIMIT) && !r.Damaging?
  }

  datatype FetchStatus = Success | NotFound | BadAuthentication

  /** Every block of the first store is in the second one, unchanged. */
  ghost predicate Extends(before: map<Bytes, Bytes>, after: map<Bytes, Bytes>) {
    forall id :: id in before ==> id in after && after[id] == before[id]
  }

  /** Every block is filed under its own hash. */
  ghost predicate ContentAddressed(c: Crypto, blocks: map<Bytes, Bytes>) {
    forall id :: id in blocks ==> c.hash(blocks[id]) == id
  }

  /** The two sides of a block store: all blocks that were ever evicted, and what it answers now. */
  datatype Vault = Vault(blocks: map<Bytes, Bytes>, held: map<Bytes, Bytes>)

  /** Nothing has been lost or changed. */
  ghost predicate Intact(s: Vault) {
    forall id :: id in s.blocks ==> id in s.held && s.held[id] == s.blocks[id]
  }

  ghost predicate Grows(before: Vault, after: Vault) {
    Extends(before.blocks, after.blocks) && (Intact(before) ==> Intact(after))
  }

  /** When a block store may change what it answers: before a session begins, before one of its
      operations, and before it ends. */
  datatype Moment = Begin | Before(i: nat) | End

  /** A keeper decides what the block store answers from a moment on. */
  type Keeper = (Moment, Vault) -> map<Bytes, Bytes>

  /** The keeper neither loses nor changes a block. */
  ghost predicate Honest(keeper: Keeper) {
    forall at, v :: Intact(v) ==> Intact(Vault(v.blocks, keeper(at, v)))
  }

  ghost predicate GrowsUnder(honest: bool, before: Vault, after: Vault) {
    Extends(before.blocks, after.blocks) && (honest && Intact(before) ==> Intact(after))
  }

  lemma GrowsUnderInTurn(honest: bool, a: Vault, b: Vault, c: Vault)
    requires GrowsUnder(honest, a, b) && GrowsUnder(honest, b, c)
    ensures GrowsUnder(honest, a, c)
  {
  }

  /** The block store is not trusted: `held` is what it answers, and nothing is known about it.
      `blocks` records what has been evicted; it decides what contracts promise, and where the model
      stops because two different blocks have one hash. */
  class BlockStore {
    const crypto: Crypto
    var blocks: map<Bytes, Bytes>
    var held: map<Bytes, Bytes>

    ghost predicate Valid()
      reads this
    {
      CryptoOk(crypto) && ContentAddressed(crypto, blocks)
    }

    ghost function State(): Vault
      reads this
    {
      Vault(blocks, held)
    }

    ghost predicate AllHeld()
      reads this
    {
      Intact(State())
    }

    constructor (crypto: Crypto)
      requires CryptoOk(crypto)
      ensures Valid() && blocks == map[] && held == map[] && this.crypto == crypto
    {
      this.crypto := crypto;
      blocks, held := map[], map[];
    }

    /** The block store answers as its keeper wants from now on. */
    method Turn(keeper: Keeper, at: Moment)
      modifies this`held
      ensures GrowsUnder(Honest(keeper), old(State()), State()) && blocks == old(blocks)
      ensures held == keeper(at, old(State()))
    {
      held := keeper(at, Vault(blocks, held));
    }

    /** sebio_fetch_from_block_store without the optional decryption. */
    method Fetch(id: Bytes) returns (status: FetchStatus, block: Bytes)
      ensures status == Success <==> id in held && crypto.hash(held[id]) == id
      ensures status == NotFound <==> id !in held
      ensures status == Success ==> block == held[id]
    {
      if id !in held {
        return NotFound, [];
      }
      block := held[id];
      if crypto.hash(block) != id {
        return BadAuthentication, block;
      }
      return Success, block;
    }

    /** A fetch of a block that was evicted: it is returned unchanged, or the caller throws. */
    method FetchStored(id: Bytes) returns (r: Outcome, block: Bytes)
      requires Valid() && id in blocks
      ensures Fair(crypto, r, AllHeld(), 0) && !r.Thrown?
      ensures r.Pass? ==> block == blocks[id]
      ensures r.Unavailable? <==> id !in held || crypto.hash(held[id]) != id
    {
      var status;
      status, block := Fetch(id);
      if status != Success {
        return Unavailable, [];
      }
      if block != blocks[id] {
        return Collision(block, blocks[id]), [];
      }
      r := Pass;
    }

    /** sebio_evict_to_block_store without the optional encryption. The model stops where the block
        has the hash of a different block that was evicted before. */
    method Evict(block: Bytes) returns (r: Outcome, id: Bytes)
      requires Valid()
      modifies this
      ensures Genuine(crypto, r) && (r.Pass? || r.Collision?)
      ensures Valid()
      ensures r.Pass? ==> id == crypto.hash(block) && |id| == 32 && blocks == old(blocks)[id := block]
      ensures Grows(old(State()), State())
    {
      id := crypto.hash(block);
      if id in blocks && blocks[id] != block {
        return Collision(blocks[id], block), id;
      }
      blocks, held := blocks[id := block], held[id := block];
      r := Pass;
    }
  }
}
