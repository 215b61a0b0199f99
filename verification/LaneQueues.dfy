/** The four lanes of the outbox as queues, whatever they hold. */
module LaneQueues {
  import opened Envelope

  datatype Lanes<T> = Lanes(control: seq<T>, voice: seq<T>, text: seq<T>, file: seq<T>)
  {
    function Get(lane: Lane): (q: seq<T>)
    {
      match lane case Control => control case Voice => voice case Text => text case File => file
    }

    function Set(lane: Lane, q: seq<T>): (r: Lanes<T>)
      ensures r.Get(lane) == q
    {
      match lane
      case Control => this.(control := q)
      case Voice => this.(voice := q)
      case Text => this.(text := q)
      case File => this.(file := q)
    }
  }

  function NoPackets<T>(): (l: Lanes<T>) { Lanes([], [], [], []) }

  function Packets<T>(l: Lanes<T>): (n: nat) { |l.control| + |l.voice| + |l.text| + |l.file| }

  /** The answer to an enqueue: whether the packet was taken, and how many older ones of its lane were dropped for it. */
  datatype Admission = Admission(ok: bool, dropped: nat)

  /** The lanes after a packet was offered and answered so; an answer that no scheduler could give changes nothing. */
  function Offered<T>(l: Lanes<T>, lane: Lane, x: T, a: Admission): (r: Lanes<T>)
  {
    var q := l.Get(lane);
    if a.dropped > |q| then l else l.Set(lane, q[a.dropped..] + (if a.ok then [x] else []))
  }
}
