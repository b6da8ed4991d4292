/**
 * The client engine. An asynchronous method is modelled as the synchronous segments between its
 * awaits; each segment is one function on the client's memory and disk.
 */
module Engine {
  import opened Base
  import opened Wire
  import opened Relay

  /**
   * An ideal MLS session: its epoch, a commit built but not merged, and, as its history, the
   * commits it has merged and the ids of every message it has applied.
   */
  datatype Session = Session(
    epoch: nat, pending: Option<Content>, commits: seq<Content>, applied: seq<MessageId>)

  datatype Event = Message(id: MessageId) | EpochAdvanced(id: MessageId, epoch: nat)

  /** What `Store::commit` writes in one transaction: the session snapshot and the seen ids. */
  datatype Disk = Disk(session: Session, seen: set<MessageId>)

  /** What follows once the unsaved change is on disk. */
  datatype Next = AckIt | SendIt(content: Content) | ReturnIt(commit: Content)

  datatype Phase = Ready | Unsaved(id: MessageId, next: Next) | Acking(id: MessageId) | Stopped

  /** Where a `commit_self_update` stands. */
  datatype Call =
    | NoCall
    | Awaiting(commit: Content)
    | Replied(commit: Content, reply: Reply)
    | Draining(stale: nat)

  /** `acks`, `outbox` and `commitsOut` are requests handed to the network, which may deliver them late
      or repeatedly. */
  datatype Client = Client(
    session: Session, seen: set<MessageId>, events: seq<Event>, disk: Disk,
    phase: Phase, call: Call, acks: set<MessageId>, outbox: set<Content>, commitsOut: set<Content>)

  /** Merging a commit, received or one's own, drops any pending one. */
  function Merge(s: Session, c: Content): Session {
    Session(s.epoch + 1, None, s.commits + [c], s.applied + [MessageIdFor(c)])
  }

  datatype Incoming = ApplicationMessage(s: Session) | CommitApplied(s: Session) | Failed

  /**
   * MLS accepts a commit only for the session's own epoch and never one's own message; whether an
   * application message still decrypts is for the environment to say.
   */
  function ProcessIncoming(me: MemberId, s: Session, c: Content, decrypts: bool): Incoming {
    match c
    case Commit(author, epoch, _) =>
      if author != me && epoch == s.epoch then CommitApplied(Merge(s, c)) else Failed
    case Application(author, _, _) =>
      if author != me && decrypts then ApplicationMessage(s.(applied := s.applied + [MessageIdFor(c)]))
      else Failed
    case Foreign(_) => Failed
  }

  /** A push: duplicates and own echoes go straight to the ack, the rest to the session first. */
  function Receive(me: MemberId, c: Client, x: Stored, decrypts: bool): Client {
    var id := x.messageId;
    if id in c.seen then c.(phase := Acking(id))
    else
      var c1 := c.(seen := c.seen + {id});
      match ProcessIncoming(me, c.session, x.envelope.content, decrypts)
      case ApplicationMessage(s) =>
        c1.(session := s, events := c.events + [Message(id)], phase := Unsaved(id, AckIt))
      case CommitApplied(s) =>
        c1.(session := s, events := c.events + [EpochAdvanced(id, s.epoch)], phase := Unsaved(id, AckIt))
      case Failed => c1.(phase := Stopped)
  }

  /** The write-through: session snapshot and the new seen id, in one transaction. */
  function Save(c: Client): Client {
    match c.phase
    case Unsaved(id, next) =>
      var c1 := c.(disk := Disk(c.session, c.disk.seen + {id}));
      (match next
       case AckIt => c1.(phase := Acking(id))
       case SendIt(w) => c1.(phase := Ready, outbox := c.outbox + {w})
       case ReturnIt(_) => c1.(phase := Ready))
    case _ => c
  }

  /** The ack goes out, or the caller dropped the future first. */
  function FinishAck(c: Client, dropped: bool): Client {
    match c.phase
    case Acking(id) => c.(phase := Ready, acks := if dropped then c.acks else c.acks + {id})
    case _ => c
  }

  /** The sender ratchet has advanced and the own echo is suppressed before anything is sent. */
  function BeginSend(c: Client, w: Content): Client {
    c.(seen := c.seen + {MessageIdFor(w)}, phase := Unsaved(MessageIdFor(w), SendIt(w)))
  }

  function BeginCommit(c: Client, w: Content): Client {
    c.(session := c.session.(pending := Some(w)), call := Awaiting(w), commitsOut := c.commitsOut + {w})
  }

  /** Ok merges; a conflict discards and drains; any other rejection ends the call as it stands. */
  function TakeReply(c: Client): Client {
    match c.call
    case Replied(w, Accepted) =>
      c.(seen := c.seen + {MessageIdFor(w)}, session := Merge(c.session, w), call := NoCall,
         phase := Unsaved(MessageIdFor(w), ReturnIt(w)))
    case Replied(w, Rejected(EpochConflict)) =>
      c.(session := c.session.(pending := None), call := Draining(c.session.epoch))
    case Replied(_, Rejected(_)) => c.(call := NoCall)
    case _ => c
  }

  /** The answer came over a connection that is gone: the call still waits, and will ask again. */
  function ForgetReply(c: Client): Client {
    if c.call.Replied? then c.(call := Awaiting(c.call.commit)) else c
  }

  /** A new process: memory is what the disk holds. */
  function Resume(c: Client): Client {
    Client(c.disk.session, c.disk.seen, [], c.disk, Ready, NoCall, c.acks, c.outbox, c.commitsOut)
  }

  /** One push taken all the way: applied, saved and acked, unless it stops the engine. */
  function Pump(me: MemberId, c: Client, x: Stored): Client {
    if c.phase != Ready then c else FinishAck(Save(Receive(me, c, x, true)), false)
  }

  function PumpAll(me: MemberId, c: Client, xs: seq<Stored>): Client {
    if xs == [] then c else Pump(me, PumpAll(me, c, xs[..|xs| - 1]), xs[|xs| - 1])
  }

  // ---- the engine object -------------------------------------------------------------------

  /** The SQLCipher store: key-value blobs and the seen table. */
  class Store {
    var session: Option<Session>
    var seen: set<MessageId>

    constructor ()
      ensures session == None && seen == {}
    {
      session, seen := None, {};
    }

    /** Upserts the blobs and inserts the ids, duplicates ignored, all in one transaction. */
    method Commit(s: Session, ids: seq<MessageId>)
      modifies this
      ensures session == Some(s) && seen == old(seen) + set id | id in ids
    {
      var table := seen;
      for i := 0 to |ids|
        invariant table == old(seen) + set id | id in ids[..i]
      {
        assert ids[..i + 1] == ids[..i] + [ids[i]];
        table := table + {ids[i]};
      }
      assert ids[..|ids|] == ids;
      session, seen := Some(s), table;
    }
  }

  class ChatEngine {
    const me: MemberId
    const store: Store
    var session: Session
    var seen: set<MessageId>
    var events: seq<Event>
    var phase: Phase
    var call: Call
    var acks: set<MessageId>
    var outbox: set<Content>
    var commitsOut: set<Content>

    ghost predicate Valid()
      reads this, store
    {
      store.session.Some?
    }

    ghost function View(): Client
      requires Valid()
      reads this, store
    {
      Client(session, seen, events, Disk(store.session.value, store.seen), phase, call, acks, outbox, commitsOut)
    }

    /** Rebuilds the engine from its store; the network still holds what was sent before. */
    constructor Resume(
      me: MemberId, store: Store, acks: set<MessageId>, outbox: set<Content>, commitsOut: set<Content>)
      requires store.session.Some?
      ensures Valid() && this.me == me && this.store == store
      ensures View() == Client(store.session.value, store.seen, [], Disk(store.session.value, store.seen),
                               Ready, NoCall, acks, outbox, commitsOut)
    {
      this.me, this.store := me, store;
      session, seen, events := store.session.value, store.seen, [];
      phase, call := Ready, NoCall;
      this.acks, this.outbox, this.commitsOut := acks, outbox, commitsOut;
    }

    /** One push, up to the persist. */
    method HandlePush(x: Stored, decrypts: bool)
      requires Valid() && phase == Ready
      modifies this
      ensures Valid() && View() == Receive(me, old(View()), x, decrypts)
    {
      var id := x.messageId;
      if id in seen {
        phase := Acking(id);
        return;
      }
      seen := seen + {id};
      match ProcessIncoming(me, session, x.envelope.content, decrypts) {
        case ApplicationMessage(s) =>
          session := s;
          events := events + [Message(id)];
          phase := Unsaved(id, AckIt);
        case CommitApplied(s) =>
          session := s;
          events := events + [EpochAdvanced(id, s.epoch)];
          phase := Unsaved(id, AckIt);
        case Failed =>
          phase := Stopped;
      }
    }

    method Persist()
      requires Valid() && phase.Unsaved?
      modifies this, store
      ensures Valid() && View() == Save(old(View()))
    {
      var id, next := phase.id, phase.next;
      store.Commit(session, [id]);
      match next {
        case AckIt => phase := Acking(id);
        case SendIt(w) =>
          phase := Ready;
          outbox := outbox + {w};
        case ReturnIt(_) => phase := Ready;
      }
    }

    method TryAck(dropped: bool)
      requires Valid() && phase.Acking?
      modifies this
      ensures Valid() && View() == FinishAck(old(View()), dropped)
    {
      if !dropped {
        acks := acks + {phase.id};
      }
      phase := Ready;
    }

    /** `send_message` up to its persist. */
    method PrepareMessage(w: Content)
      requires Valid() && phase == Ready && call == NoCall
      modifies this
      ensures Valid() && View() == BeginSend(old(View()), w)
    {
      seen := seen + {MessageIdFor(w)};
      phase := Unsaved(MessageIdFor(w), SendIt(w));
    }

    /** The head of the commit loop: build a commit for the current epoch and send it. */
    method BuildCommit(w: Content)
      requires Valid() && phase == Ready && session.pending.None?
      requires call == NoCall || (call.Draining? && session.epoch != call.stale)
      modifies this
      ensures Valid() && View() == BeginCommit(old(View()), w)
    {
      session := session.(pending := Some(w));
      call := Awaiting(w);
      commitsOut := commitsOut + {w};
    }

    method HandleCommitReply()
      requires Valid() && phase == Ready && call.Replied?
      modifies this
      ensures Valid() && View() == TakeReply(old(View()))
    {
      var w := call.commit;
      match call.reply {
        case Accepted =>
          seen := seen + {MessageIdFor(w)};
          session := Merge(session, w);
          phase := Unsaved(MessageIdFor(w), ReturnIt(w));
          call := NoCall;
        case Rejected(code) =>
          if code == EpochConflict {
            session := session.(pending := None);
            call := Draining(session.epoch);
          } else {
            call := NoCall;
          }
      }
    }

    /** One push taken all the way: applied, saved, acked. */
    method PumpOne(x: Stored)
      requires Valid() && phase == Ready
      modifies this, store
      ensures Valid() && View() == Pump(me, old(View()), x)
      ensures phase == Ready || phase == Stopped
    {
      HandlePush(x, true);
      if phase.Unsaved? {
        Persist();
      }
      if phase.Acking? {
        TryAck(false);
      }
    }

    /** The drain loop of a lost race: pump pushes until the session's epoch moves. */
    method DrainUntilAdvanced(pushes: seq<Stored>, stale: nat) returns (used: nat)
      requires Valid() && phase == Ready
      modifies this, store
      ensures Valid() && used <= |pushes|
      ensures View() == PumpAll(me, old(View()), pushes[..used])
      ensures session.epoch != stale || phase == Stopped || used == |pushes|
    {
      hide Pump;
      used := 0;
      ghost var c0 := View();
      while used < |pushes| && session.epoch == stale && phase == Ready
        invariant Valid() && used <= |pushes|
        invariant phase == Ready || phase == Stopped
        invariant View() == PumpAll(me, c0, pushes[..used])
      {
        assert pushes[..used + 1][..used] == pushes[..used];
        PumpOne(pushes[used]);
        used := used + 1;
      }
    }
  }
}
