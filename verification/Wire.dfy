/**
 * What travels between clients and the relay. Cryptography is ideal and symbolic: a ciphertext is
 * the MLS message it carries, a message id is an injective digest of it, and an authentication tag
 * names exactly the key, queue and envelope it was computed over.
 */
module Wire {

  type QueueId = nat
  type Chan = nat
  type Key = nat
  type MemberId = nat

  /** An MLS message. `nonce` stands for the randomness that makes every message unique. */
  datatype Content =
    | Commit(author: MemberId, epoch: nat, nonce: nat)
    | Application(author: MemberId, epoch: nat, nonce: nat)
    | Foreign(nonce: nat)

  datatype MessageId = Digest(content: Content)

  /** The dedup key: a pure, injective function of the message bytes. */
  function MessageIdFor(c: Content): MessageId {
    Digest(c)
  }

  datatype Envelope = Envelope(messageId: MessageId, content: Content, size: nat)

  datatype AuthTag = Tag(key: Key, queueId: QueueId, envelope: Envelope) | Forged(n: nat)

  function ComputeTag(key: Key, q: QueueId, env: Envelope): AuthTag {
    Tag(key, q, env)
  }

  datatype SendKind = CommitAt(epoch: nat) | Plain

  datatype Code =
    | MessageTooLarge | QueueNotFound | GroupInboxNotFound | Unauthorized | QueueFull
    | RateLimited | StorageBoundExceeded | EpochConflict | InvalidProofOfWork | InvalidAttestation

  datatype Reply = Accepted | Rejected(code: Code)

  // Relay resource limits.
  const MAX_MESSAGE_SIZE: nat := 65536
  const MAX_QUEUE_DEPTH: nat := 1000
  const MAX_STORAGE_BYTES: nat := 10 * 1024 * 1024 * 1024
  const RATE_LIMIT_PER_QUEUE_PER_MINUTE: nat := 60
  const MAX_OUTSTANDING_POW_CHALLENGES: nat := 10_000
  const U64_MAX: nat := 0xFFFF_FFFF_FFFF_FFFF
}
