/**
  * One incoming file transfer. Messages from the peer are handled one at a time, so at most one handler is suspended;
  * what the user does, and what ends the session, can happen while it is.
  */
module FileReceiver {
  import opened Bytes
  import opened Profiles
  import Base64Url
  import opened FileChunks

  datatype Status = Offered | Receiving | Completed | Cancelled | Failed

  /** `accepting` tells that the accept message has been sent and not yet answered by the transport. */
  datatype Incoming = Incoming(meta: Meta, status: Status, chunks: seq<Option<Octets>>, received: set<nat>, accepting: bool)

  /** The suspended message handler: sending a reply, sending the ack of a stored chunk, or hashing the whole file. */
  datatype Task = Idle | Replying | Acking | Hashing(blob: Octets)
  datatype Fault = MissingChunk | SizeMismatch | IntegrityFailed

  /**
    * `mine` tells whether the suspended handler belongs to the current transfer or to one since dropped from the map;
    * `finished` lists the files handed over as complete, `faults` the errors the completion code has raised.
    */
  datatype Receiver = Receiver(
    current: Option<Incoming>, task: Task, mine: bool, finished: seq<Octets>, faults: seq<Fault>)

  datatype Event =
    | OfferArrives(meta: Meta, otherActive: bool)
    | ChunkArrives(index: int, total: int, data: string)
    | ReplyAnswered | HashAnswered(same: bool)
    | AcceptPressed | AcceptAnswered(ok: bool) | Abandoned | Removed | Reset

  datatype Reply = NoReply | AckChunk(index: nat) | NackChunk(index: nat)

  const START := Receiver(None, Idle, false, [], [])

  predicate Terminal(s: Status) { s == Completed || s == Cancelled || s == Failed }

  function Released(t: Incoming): (r: Incoming) { t.(chunks := [], received := {}) }

  function HandleOffer(r: Receiver, f: FileLimits, m: Meta, otherActive: bool): (r': Receiver)
  {
    if Judge(f, m) != Acceptable then r
    else if r.current.Some? && !Terminal(r.current.value.status) then r
    else if otherActive then r.(current := None)
    else r.(current := Some(Incoming(m, Offered, seq(m.total, _ => None), {}, false)))
  }

  datatype Judgement = Ignored | BadIndex | Duplicate | Undecodable | WrongSize | Stored(bytes: Octets)

  /** What becomes of a chunk message. */
  function JudgeChunk(t: Incoming, index: int, total: int, data: string): (j: Judgement)
    ensures j.Duplicate? || j.Stored? ==> 0 <= index < t.meta.total
  {
    if t.status != Receiving then Ignored
    else if total != t.meta.total || index < 0 || index >= t.meta.total then BadIndex
    else if index in t.received then Duplicate
    else match Base64Url.Decode(data)
      case None => Undecodable
      case Some(bytes) => if |bytes| != ExpectedBytes(t.meta, index) then WrongSize else Stored(bytes)
  }

  function StoreChunk(t: Incoming, index: nat, bytes: Octets): (r: Incoming)
  {
    t.(chunks := if index < |t.chunks| then t.chunks[index := Some(bytes)] else t.chunks, received := t.received + {index})
  }

  function HandleChunk(r: Receiver, index: int, total: int, data: string): (s: (Receiver, Reply))
  {
    if r.current.None? then (r, NoReply) else
    match JudgeChunk(r.current.value, index, total, data)
    case Ignored => (r, NoReply)
    case Duplicate => (r.(task := Replying, mine := true), AckChunk(index))
    case Stored(bytes) =>
      (r.(current := Some(StoreChunk(r.current.value, index, bytes)), task := Acking, mine := true), AckChunk(index))
    case _ => (r.(task := Replying, mine := true), NackChunk(if index < 0 then 0 else index))
  }

  function Present(chunks: seq<Option<Octets>>): (r: Option<seq<Octets>>)
    ensures r.Some? ==> |r.value| == |chunks|
  {
    if |chunks| == 0 then Some([])
    else match (Present(chunks[..|chunks| - 1]), chunks[|chunks| - 1])
      case (Some(front), Some(last)) => Some(front + [last])
      case _ => None
  }

  function Finish(r: Receiver, blob: Octets): (r': Receiver)
  {
    r.(current := if r.mine && r.current.Some? then Some(r.current.value.(status := Completed, chunks := [])) else r.current,
       task := Idle, finished := r.finished + [blob])
  }

  function FailWith(r: Receiver, fault: Fault): (r': Receiver)
  {
    r.(current := if r.mine && r.current.Some? then Some(Released(r.current.value).(status := Failed)) else r.current,
       task := Replying, faults := r.faults + [fault])
  }

  function Complete(r: Receiver, t: Incoming): (r': Receiver)
  {
    match Present(t.chunks)
    case None => FailWith(r, MissingChunk)
    case Some(chunks) =>
      var blob := Joined(chunks);
      if |blob| != t.meta.size then FailWith(r, SizeMismatch)
      else if t.meta.hashed then r.(task := Hashing(blob))
      else Finish(r, blob)
  }

  /** The reply has been taken by the transport; a stored chunk may have been the last one missing. */
  function HandleReplyAnswered(r: Receiver): (r': Receiver)
  {
    match r.task
    case Replying => r.(task := Idle)
    case Acking =>
      if r.mine && r.current.Some? && |r.current.value.received| == r.current.value.meta.total
      then Complete(r, r.current.value) else r.(task := Idle)
    case _ => r
  }

  function HandleUser(r: Receiver, e: Event): (r': Receiver)
  {
    if r.current.None? then r else
    var t := r.current.value;
    match e
    case AcceptPressed =>
      if t.status == Offered then r.(current := Some(t.(status := Receiving, accepting := true))) else r
    case AcceptAnswered(ok) =>
      if !t.accepting then r
      else if ok then r.(current := Some(t.(accepting := false)))
      else r.(current := Some(Released(t).(status := Failed, accepting := false)))
    case Abandoned => r.(current := Some(Released(t).(status := Cancelled)))
    case Removed => if Terminal(t.status) then r.(current := None, mine := false) else r
    case Reset => r.(current := None, mine := false)
    case _ => r
  }

  function React(r: Receiver, f: FileLimits, e: Event): (s: (Receiver, Reply))
  {
    match e
    case OfferArrives(m, otherActive) => (if r.task.Idle? then HandleOffer(r, f, m, otherActive) else r, NoReply)
    case ChunkArrives(index, total, data) => if r.task.Idle? then HandleChunk(r, index, total, data) else (r, NoReply)
    case ReplyAnswered => (HandleReplyAnswered(r), NoReply)
    case HashAnswered(same) =>
      (if !r.task.Hashing? then r else if same then Finish(r, r.task.blob) else FailWith(r, IntegrityFailed), NoReply)
    case _ => (HandleUser(r, e), NoReply)
  }
}
