/**
 The message broker as the pool sets it up: a direct exchange for requests, one queue a key, and an
 alternate exchange that sends what no queue is bound to into the orphan queue.
 */
module RequestBroker {
  import opened Options
  import opened TargetTracking

  datatype Message = Message(id: nat, key: Key)

  datatype RequestQueue = RequestQueue(bound: bool, messages: multiset<Message>)

  /** `orphans` waits in the orphan queue; `unacked` was delivered from it and not acknowledged yet. */
  datatype Broker = Broker(
    queues: map<Key, RequestQueue>,
    orphans: multiset<Message>,
    unacked: multiset<Message>,
    taken: multiset<Message>)

  /** The request exchange: to the bound queue of the routing key, else to the orphan queue. */
  function Route(b: Broker, m: Message): Broker {
    if m.key in b.queues && b.queues[m.key].bound then
      var q := b.queues[m.key];
      b.(queues := b.queues[m.key := q.(messages := q.messages + multiset{m})])
    else
      b.(orphans := b.orphans + multiset{m})
  }

  /** A worker takes a request from its queue. */
  function Take(b: Broker, m: Message): Broker
    requires m.key in b.queues && m in b.queues[m.key].messages
  {
    var q := b.queues[m.key];
    b.(queues := b.queues[m.key := q.(messages := q.messages - multiset{m})], taken := b.taken + multiset{m})
  }

  datatype Op = Declare | Bind | Unbind | DeleteIfEmpty

  /** An operation on the queue of a key; `None` is a protocol error, which changes nothing. */
  function Perform(b: Broker, k: Key, op: Op): Option<Broker> {
    match op
    case Declare =>
      if k in b.queues then Some(b) else Some(b.(queues := b.queues[k := RequestQueue(false, multiset{})]))
    case Bind =>
      if k in b.queues then Some(b.(queues := b.queues[k := b.queues[k].(bound := true)])) else None
    case Unbind =>
      if k in b.queues then Some(b.(queues := b.queues[k := b.queues[k].(bound := false)])) else Some(b)
    case DeleteIfEmpty =>
      if k in b.queues && b.queues[k].messages != multiset{} then None
      else Some(b.(queues := b.queues - {k}))
  }

  /** The messages a queue holds; a deleted queue takes what it held with it. */
  function Queued(b: Broker, m: Message): nat {
    if m.key in b.queues then b.queues[m.key].messages[m] else 0
  }

  /** The copies of a message the system still has. */
  function Copies(b: Broker, m: Message): nat {
    Queued(b, m) + b.orphans[m] + b.unacked[m] + b.taken[m]
  }

  /** What the broker's topology says of a key: the status a job would report. */
  function Topology(b: Broker, k: Key): Option<QueueStatus> {
    if k !in b.queues then None else if b.queues[k].bound then Some(Active) else Some(Unbound)
  }

  /** No operation on queues creates or loses a message. */
  lemma PerformKeepsCopies(b: Broker, k: Key, op: Op, m: Message)
    requires Perform(b, k, op).Some?
    ensures Copies(Perform(b, k, op).value, m) == Copies(b, m)
  {
  }

  /** Publishing adds one copy of the message, wherever it is routed. */
  lemma RouteAddsOneCopy(b: Broker, m: Message, m': Message)
    ensures Copies(Route(b, m), m') == Copies(b, m') + if m == m' then 1 else 0
  {
  }

  lemma TakeKeepsCopies(b: Broker, m: Message, m': Message)
    requires m.key in b.queues && m in b.queues[m.key].messages
    ensures Copies(Take(b, m), m') == Copies(b, m')
  {
  }
}
