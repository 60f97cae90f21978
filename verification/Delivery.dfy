/**
  One-to-one delivery between two nodes: two stores, one session that can die at
  any moment at either end, and everything the rest of the world may do to the
  two stores meanwhile.
 */
module Delivery {
  import opened ByteOrder
  import opened Names
  import opened Keys
  import opened MessageDb
  import opened Conversation
  import Envelopes
  import RateLimit

  datatype Envelope = Msg(p: Payload) | Ack(id: Id)

  /** The flush running on the link: the snapshot still to walk, and whether its head has been recorded as tried. */
  datatype Job = Idle | Flushing(force: bool, todo: seq<Message>, tried: bool)

  datatype Owed = Nothing | Owing(id: Id)

  /**
    One end of the pair. peer: the pinned name of the other end; inbox: what the
    other end put on the wire and this end has not read; flushed: a forced flush
    has begun on this session; mark: the last row number when the latest one took
    its snapshot; owed: stored but not yet acked; meter: the rate limit of this
    session. sent and log are append-only histories of what was queued for, and
    stored from, the peer.
   */
  datatype End = End(
    peer: Name, db: Db, open: bool, inbox: seq<Envelope>, flushed: bool, mark: nat,
    job: Job, owed: Owed, meter: RateLimit.Meter, sent: seq<Payload>, log: seq<Payload>)

  /** used: every id generated by either node or stored for a third party. */
  datatype Net = Net(left: End, right: End, used: set<Id>)

  datatype Deletion = One(id: Id) | FromOutbox(id: Id) | OlderThan(cutoff: int) | WithPeer(name: Name) | Everything

  datatype Event =
    | Connect
    | Disconnect
    | Compose(id: Id, body: Bytes, replyTo: Id, ts: int)
    | Flush(force: bool)
    | Skip
    | Try(now: int)
    | Transmit
    | Finish
    | Receive(ts: int)
    | SendAck
    | Stray(strayId: Id, now: int)
    | Foreign(m: Message)
    | ForeignAck(from: Name, ackId: Id)
    | Erase(what: Deletion)

  function Delete(db: Db, d: Deletion): Db {
    match d
    case One(id) => DeleteOne(db, id)
    case FromOutbox(id) => Unqueue(db, id)
    case OlderThan(cutoff) => Prune(db, cutoff)
    case WithPeer(name) => DeleteWhere(db, About(name))
    case Everything => DeleteWhere(db, Every)
  }

  function Opened(e: End): End {
    e.(open := true, inbox := [], flushed := false, mark := 0, job := Idle, owed := Nothing, meter := RateLimit.FRESH)
  }

  function Closed(e: End): End {
    e.(open := false, inbox := [], job := Idle, owed := Nothing)
  }

  /**
    Whether the wire format admits the message. The body was checked on composing
    and the id generated; the quoted id was not.
   */
  predicate Encodable(p: Payload) {
    p.replyTo == [] || IsId(p.replyTo)
  }

  function Queue(e: End, p: Payload, ts: int): End {
    e.(db := Add(e.db, Message(p.id, e.peer, Out, p.body, ts, Queued, 0, 0, 0, p.replyTo)),
       sent := e.sent + [p])
  }

  /** A flush takes its snapshot of what is pending. */
  function Flushed(e: End, force: bool): End {
    e.(job := Flushing(force, Pending(e.db, e.peer), false),
       flushed := e.flushed || force, mark := if force then e.db.last else e.mark)
  }

  /** What is put on the wire reaches an end only while that end is open. */
  function Push(e: End, m: Envelope): End {
    if e.open then e.(inbox := e.inbox + [m]) else e
  }

  /** An inbound message is added unless its id is known, and owed an ack either way. */
  function Store(e: End, p: Payload, ts: int): End {
    if p.id in e.db.idx then e.(owed := Owing(p.id)) else
      e.(db := Add(e.db, Message(p.id, e.peer, In, p.body, ts, Received, 0, 0, 0, p.replyTo)),
         owed := Owing(p.id), log := e.log + [p])
  }

  /**
    The read loop takes one envelope off the wire; an inbound message is stored
    before it is owed an ack, and one too many in a window closes the link.
   */
  function Read(e: End, ts: int): End
    requires e.inbox != []
  {
    var rest := e.(inbox := e.inbox[1..]);
    match e.inbox[0]
    case Ack(id) => rest.(db := Deliver(e.db, e.peer, id))
    case Msg(p) =>
      if RateLimit.Exceeded(RateLimit.Tick(e.meter, ts)) then Closed(e)
      else Store(rest.(meter := RateLimit.Tick(e.meter, ts)), p, ts)
  }

  /** The left end, or its user, or its other peers, do one thing. An event that is not enabled changes nothing. */
  function Act(n: Net, e: Event): Net {
    var me, other := n.left, n.right;
    match e
    case Connect =>
      if me.open || other.open then n else n.(left := Opened(me), right := Opened(other))
    case Disconnect =>
      n.(left := Closed(me))
    case Compose(id, body, replyTo, ts) =>
      if id in n.used || !Envelopes.ValidBody(body) then n else
        n.(left := Queue(me, Payload(id, body, replyTo), ts), used := n.used + {id})
    case Flush(force) =>
      if !me.open || !me.job.Idle? then n else
        n.(left := Flushed(me, force))
    case Skip =>
      if me.job.Idle? || me.job.todo == [] || me.job.tried || me.job.force || me.job.todo[0].attempts == 0 then n else
        n.(left := me.(job := me.job.(todo := me.job.todo[1..])))
    case Try(now) =>
      if me.job.Idle? || me.job.todo == [] || me.job.tried then n
      else if !Known(me.db, me.job.todo[0].id) then n.(left := me.(job := me.job.(todo := me.job.todo[1..])))
      else n.(left := me.(db := Attempt(me.db, me.job.todo[0].id, now), job := me.job.(tried := true)))
    case Transmit =>
      if me.job.Idle? || me.job.todo == [] || !me.job.tried then n
      else if !Encodable(PayloadOf(me.job.todo[0])) then n.(left := Closed(me))
      else
        n.(left := me.(job := me.job.(todo := me.job.todo[1..], tried := false)),
           right := Push(other, Msg(PayloadOf(me.job.todo[0]))))
    case Finish =>
      if me.job.Idle? || me.job.todo != [] then n else n.(left := me.(job := Idle))
    case Receive(ts) =>
      if !me.open || me.inbox == [] || me.owed != Nothing then n else
        n.(left := Read(me, ts))
    case SendAck =>
      if me.owed == Nothing then n else
        n.(left := me.(owed := Nothing), right := Push(other, Ack(me.owed.id)))
    case Stray(id, now) =>
      n.(left := me.(db := Attempt(me.db, id, now)))
    case Foreign(m) =>
      if m.id in n.used || !Trimmed(m.peer) || EqualFold(m.peer, me.peer) then n else
        n.(left := me.(db := Add(me.db, m)), used := n.used + {m.id})
    case ForeignAck(from, id) =>
      if EqualFold(from, me.peer) then n else n.(left := me.(db := Deliver(me.db, from, id)))
    case Erase(d) =>
      n.(left := me.(db := Delete(me.db, d)))
  }

  function Flip(n: Net): Net {
    Net(n.right, n.left, n.used)
  }

  datatype Action = Left(e: Event) | Right(e: Event)

  function Step(n: Net, a: Action): Net {
    match a
    case Left(e) => Act(n, e)
    case Right(e) => Flip(Act(Flip(n), e))
  }

  function Run(n: Net, run: seq<Action>): Net
    decreases |run|
  {
    if run == [] then n else Step(Run(n, run[..|run| - 1]), run[|run| - 1])
  }

  function Fresh(peer: Name): End {
    End(peer, EMPTY, false, [], false, 0, Idle, Nothing, RateLimit.FRESH, [], [])
  }

  /** Two empty stores that have pinned each other. */
  function Start(left: Name, right: Name): Net {
    Net(Fresh(right), Fresh(left), {})
  }
}
