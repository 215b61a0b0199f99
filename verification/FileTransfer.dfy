/** Sender and receiver joined by a network that may drop, repeat and reorder messages but not alter them. */
module FileTransfer {
  import opened Bytes
  import opened Profiles
  import Base64Url
  import opened FileChunks
  import S = FileSender
  import Runs = FileSenderRuns
  import R = FileReceiver

  /** What is transferred, and the limits each side's profile sets. */
  datatype Job = Job(file: Octets, hashed: bool, sending: FileLimits, receiving: FileLimits)
  {
    ghost predicate Valid() { sending.chunkBytes > 0 && |file| > 0 }
    function Meta(): (m: Meta) requires Valid() { MetaOf(file, sending.chunkBytes, hashed) }
    function Chunk(i: nat): (c: Octets) { Slice(file, sending.chunkBytes, i) }
  }

  /** `acks` holds every ack ever sent; `stored` every chunk index the receiver has ever stored. */
  datatype World = World(sender: S.Transfer, receiver: R.Receiver, acks: set<nat>, stored: set<nat>)

  datatype Event = AtSender(s: S.Event) | AtReceiver(r: R.Event)

  function Begin(j: Job, queued: bool): (w: World)
    requires j.Valid()
  {
    World(S.Offer(j.Meta().total, queued), R.START, {}, {})
  }

  /**
    * Messages are delivered only if they were sent, any number of times and at any time later: an ack that the receiver
    * sent, the sender's offer, a chunk handed to the sender's transport. Equal files have equal hashes. Everything else,
    * including nacks and cancellations nobody sent, may happen at any time.
    */
  ghost predicate Legal(j: Job, w: World, e: Event)
    requires j.Valid()
  {
    match e
    case AtSender(Ack(i)) => i >= 0 && i in w.acks
    case AtReceiver(OfferArrives(m, _)) => m == j.Meta()
    case AtReceiver(ChunkArrives(i, total, data)) =>
      && 0 <= i < |w.sender.slots| && |w.sender.slots[i].sent| > 0
      && total == j.Meta().total && data == Base64Url.Encode(j.Chunk(i))
    case AtReceiver(HashAnswered(same)) => w.receiver.task.Hashing? && w.receiver.task.blob == j.file ==> same
    case _ => true
  }

  function NewlyStored(before: R.Receiver, after: R.Receiver): (s: set<nat>)
  {
    if before.current.Some? && after.current.Some? then after.current.value.received - before.current.value.received else {}
  }

  function Step(j: Job, w: World, e: Event): (w': World)
  {
    match e
    case AtSender(s) => w.(sender := S.Next(w.sender, j.sending, s))
    case AtReceiver(r) =>
      var (after, reply) := R.React(w.receiver, j.receiving, r);
      w.(receiver := after, stored := w.stored + NewlyStored(w.receiver, after),
         acks := if reply.AckChunk? then w.acks + {reply.index} else w.acks)
  }

  function Run(j: Job, w: World, es: seq<Event>): (w': World)
  {
    if |es| == 0 then w else Step(j, Run(j, w, es[..|es| - 1]), es[|es| - 1])
  }

  ghost predicate LegalRun(j: Job, w: World, es: seq<Event>)
    requires j.Valid()
  {
    |es| == 0 || (LegalRun(j, w, es[..|es| - 1]) && Legal(j, Run(j, w, es[..|es| - 1]), es[|es| - 1]))
  }

  // ---- the receiver's invariant --------------------------------------------

  ghost predicate HoldsOriginals(j: Job, t: R.Incoming)
    requires j.Valid()
  {
    && |t.chunks| == t.meta.total
    && forall i :: i in t.received ==> i < |t.chunks| && t.chunks[i] == Some(j.Chunk(i))
  }

  ghost predicate IncomingOk(j: Job, t: R.Incoming, stored: set<nat>)
    requires j.Valid()
  {
    && t.meta == j.Meta() && t.received <= stored
    && (t.status == R.Receiving ==> HoldsOriginals(j, t))
    && (t.status == R.Offered ==> HoldsOriginals(j, t) && t.received == {})
    && (t.status == R.Cancelled || t.status == R.Failed ==> t.received == {})
  }

  ghost predicate AllFile(j: Job, blobs: seq<Octets>) { forall i :: 0 <= i < |blobs| ==> blobs[i] == j.file }

  ghost predicate ReceiverOk(j: Job, r: R.Receiver, stored: set<nat>)
    requires j.Valid()
  {
    && (r.current.Some? ==> IncomingOk(j, r.current.value, stored))
    && (r.task.Acking? && r.mine && r.current.Some? ==> r.current.value.status != R.Completed)
    && (r.task.Hashing? ==> r.task.blob == j.file)
    && AllFile(j, r.finished) && r.faults == []
  }

  lemma ChunkIsStored(j: Job, t: R.Incoming, i: nat)
    requires j.Valid() && t.meta == j.Meta() && i < t.meta.total && t.status == R.Receiving && i !in t.received
    ensures R.JudgeChunk(t, i, j.Meta().total, Base64Url.Encode(j.Chunk(i))) == R.Stored(j.Chunk(i))
  {
    Base64Url.DecodeInvertsEncode(j.Chunk(i));
    SliceLength(j.file, j.sending.chunkBytes, j.hashed, i);
  }

  lemma ChunkKeeps(j: Job, r: R.Receiver, i: nat, stored: set<nat>)
    requires j.Valid() && ReceiverOk(j, r, stored) && r.task.Idle? && i < j.Meta().total
    ensures var s := R.HandleChunk(r, i, j.Meta().total, Base64Url.Encode(j.Chunk(i)));
      && ReceiverOk(j, s.0, stored + NewlyStored(r, s.0))
      && (s.1.AckChunk? ==> s.1.index in stored + NewlyStored(r, s.0)) && !s.1.NackChunk?
  {
    if r.current.Some? && r.current.value.status == R.Receiving && i !in r.current.value.received {
      ChunkIsStored(j, r.current.value, i);
    }
  }

  lemma {:induction false} PresentSlices(file: Octets, chunkSize: nat, chunks: seq<Option<Octets>>)
    requires forall i :: 0 <= i < |chunks| ==> chunks[i] == Some(Slice(file, chunkSize, i))
    ensures R.Present(chunks) == Some(Slices(file, chunkSize, |chunks|))
  {
    if |chunks| == 0 {
      assert Slices(file, chunkSize, 0) == [];
    } else {
      var n := |chunks| - 1;
      PresentSlices(file, chunkSize, chunks[..n]);
      assert Slices(file, chunkSize, n + 1) == Slices(file, chunkSize, n) + [Slice(file, chunkSize, n)];
    }
  }

  function Below(n: nat): (s: set<nat>)
    ensures |s| == n && forall i :: i in s <==> 0 <= i < n
  {
    if n == 0 then {} else Below(n - 1) + {n - 1}
  }

  lemma FullSet(s: set<nat>, n: nat)
    requires |s| == n && forall i :: i in s ==> i < n
    ensures s == Below(n)
  {
    Subset(s, Below(n));
  }

  lemma {:induction false} Subset(a: set<nat>, b: set<nat>)
    requires a <= b && |a| == |b|
    ensures a == b
  {
    assert |b - a| == |b| - |a|;
  }

  /** When every chunk has been received, completion finds the original file: no chunk missing, no size mismatch. */
  lemma CompletionFindsFile(j: Job, t: R.Incoming)
    requires j.Valid() && t.meta == j.Meta() && HoldsOriginals(j, t) && |t.received| == t.meta.total
    ensures var p := R.Present(t.chunks); p.Some? && Joined(p.value) == j.file
  {
    FullSet(t.received, t.meta.total);
    forall i | 0 <= i < |t.chunks|
      ensures t.chunks[i] == Some(Slice(j.file, j.sending.chunkBytes, i))
    {
      assert i in t.received;
    }
    PresentSlices(j.file, j.sending.chunkBytes, t.chunks);
    JoinedIsFile(j.file, j.sending.chunkBytes, j.hashed);
  }

  lemma ReplyKeeps(j: Job, r: R.Receiver, stored: set<nat>)
    requires j.Valid() && ReceiverOk(j, r, stored)
    ensures ReceiverOk(j, R.HandleReplyAnswered(r), stored)
  {
    if r.task.Acking? && r.mine && r.current.Some? && |r.current.value.received| == r.current.value.meta.total {
      var t := r.current.value;
      CeilingBounds(|j.file|, j.sending.chunkBytes);
      assert t.received != {};
      CompletionFindsFile(j, t);
    }
  }

  lemma OfferKeeps(j: Job, r: R.Receiver, otherActive: bool, stored: set<nat>)
    requires j.Valid() && ReceiverOk(j, r, stored) && r.task.Idle?
    ensures var r' := R.HandleOffer(r, j.receiving, j.Meta(), otherActive);
            ReceiverOk(j, r', stored) && ReceiverOk(j, r', stored + NewlyStored(r, r'))
  {}

  lemma UserKeeps(j: Job, r: R.Receiver, e: R.Event, stored: set<nat>)
    requires j.Valid() && ReceiverOk(j, r, stored)
    ensures ReceiverOk(j, R.HandleUser(r, e), stored)
  {}

  lemma HashKeeps(j: Job, r: R.Receiver, stored: set<nat>)
    requires j.Valid() && ReceiverOk(j, r, stored) && r.task.Hashing?
    ensures ReceiverOk(j, R.Finish(r, r.task.blob), stored)
  {}

  lemma MoreStored(j: Job, r: R.Receiver, stored: set<nat>, more: set<nat>)
    requires j.Valid() && ReceiverOk(j, r, stored)
    ensures ReceiverOk(j, r, stored + more)
  {}

  lemma ReceiverKeeps(j: Job, w: World, e: R.Event)
    requires j.Valid() && ReceiverOk(j, w.receiver, w.stored) && w.acks <= w.stored
    requires |w.sender.slots| == j.Meta().total && Legal(j, w, AtReceiver(e))
    ensures var w' := Step(j, w, AtReceiver(e)); ReceiverOk(j, w'.receiver, w'.stored) && w'.acks <= w'.stored
  {
    var r := w.receiver;
    var r' := R.React(r, j.receiving, e).0;
    match e
    case OfferArrives(_, otherActive) =>
      MoreStored(j, r, w.stored, NewlyStored(r, r'));
      if r.task.Idle? {
        OfferKeeps(j, r, otherActive, w.stored);
      }
    case ChunkArrives(i, _, _) =>
      MoreStored(j, r, w.stored, NewlyStored(r, r'));
      if r.task.Idle? {
        ChunkKeeps(j, r, i, w.stored);
      }
    case ReplyAnswered =>
      ReplyKeeps(j, r, w.stored);
      MoreStored(j, r', w.stored, NewlyStored(r, r'));
    case HashAnswered(_) =>
      if r.task.Hashing? {
        HashKeeps(j, r, w.stored);
      }
      MoreStored(j, r', w.stored, NewlyStored(r, r'));
    case _ =>
      UserKeeps(j, r, e, w.stored);
      MoreStored(j, r', w.stored, NewlyStored(r, r'));
  }

  // ---- the theorem ---------------------------------------------------------

  ghost predicate AckedAreStored(t: S.Transfer, stored: set<nat>)
  {
    forall i :: 0 <= i < |t.slots| ==> t.slots[i].acked ==> i in stored
  }

  ghost predicate Invariant(j: Job, w: World)
    requires j.Valid()
  {
    && |w.sender.slots| == j.Meta().total && Runs.Invariant(w.sender, j.sending)
    && ReceiverOk(j, w.receiver, w.stored) && w.acks <= w.stored && AckedAreStored(w.sender, w.stored)
  }

  lemma StepKeeps(j: Job, w: World, e: Event)
    requires j.Valid() && Invariant(j, w) && Legal(j, w, e)
    ensures Invariant(j, Step(j, w, e))
  {
    match e
    case AtSender(s) =>
      Runs.NextKeeps(w.sender, j.sending, s);
      Runs.OnlyAckAcknowledges(w.sender, j.sending, s);
    case AtReceiver(r) =>
      ReceiverKeeps(j, w, r);
  }

  lemma {:induction false} RunKeeps(j: Job, w: World, es: seq<Event>)
    requires j.Valid() && Invariant(j, w) && LegalRun(j, w, es)
    ensures Invariant(j, Run(j, w, es))
  {
    if |es| != 0 {
      RunKeeps(j, w, es[..|es| - 1]);
      StepKeeps(j, Run(j, w, es[..|es| - 1]), es[|es| - 1]);
    }
  }

  /**
    * Whatever the network drops, repeats or reorders, and however the two sides pause, retry, cancel or restart: every
    * file the receiver hands over equals the sender's file; its completion code never finds a chunk missing, a wrong
    * size or a wrong hash; and when the sender reports completion, the receiver has stored every chunk.
    */
  lemma FilesArriveIntact(j: Job, queued: bool, es: seq<Event>)
    requires j.Valid() && LegalRun(j, Begin(j, queued), es)
    ensures var w := Run(j, Begin(j, queued), es);
      && (forall k :: 0 <= k < |w.receiver.finished| ==> w.receiver.finished[k] == j.file)
      && w.receiver.faults == []
      && (w.sender.status == S.Completed ==> forall i :: 0 <= i < j.Meta().total ==> i in w.stored)
  {
    Runs.OfferFits(j.Meta().total, queued, j.sending);
    RunKeeps(j, Begin(j, queued), es);
  }

  // ---- cancelled, and completed all the same -------------------------------

  /** Over, with nothing of it left that could complete it. */
  ghost predicate DeadEnd(r: R.Receiver)
  {
    && (r.current.Some? ==>
          var t := r.current.value;
          (t.status == R.Cancelled || t.status == R.Failed) && t.received == {} && t.meta.total > 0)
    && !(r.task.Hashing? && r.mine && r.current.Some?)
  }

  lemma DeadEndStep(r: R.Receiver, f: FileLimits, e: R.Event)
    requires DeadEnd(r) && !e.OfferArrives?
    ensures DeadEnd(R.React(r, f, e).0)
  {}

  function RunReceiver(r: R.Receiver, f: FileLimits, es: seq<R.Event>): (r': R.Receiver)
  {
    if |es| == 0 then r else R.React(RunReceiver(r, f, es[..|es| - 1]), f, es[|es| - 1]).0
  }

  ghost predicate NoOffer(es: seq<R.Event>) { forall i :: 0 <= i < |es| ==> !es[i].OfferArrives? }

  lemma {:induction false} DeadEndRun(r: R.Receiver, f: FileLimits, es: seq<R.Event>)
    requires DeadEnd(r) && NoOffer(es)
    ensures DeadEnd(RunReceiver(r, f, es))
  {
    if |es| != 0 {
      DeadEndRun(r, f, es[..|es| - 1]);
      DeadEndStep(RunReceiver(r, f, es[..|es| - 1]), f, es[|es| - 1]);
    }
  }

  predicate ReportsCompleted(r: R.Receiver) { r.current.Some? && r.current.value.status == R.Completed }

  /**
    * A cancelled transfer is reported completed in some continuation without a new offer if and only if the whole file was
    * already being hashed when it was cancelled.
    */
  lemma CancelledCompletesIff(j: Job, r: R.Receiver, stored: set<nat>)
    requires j.Valid() && ReceiverOk(j, r, stored) && r.current.Some? && r.current.value.status == R.Cancelled
    ensures (exists es :: NoOffer(es) && ReportsCompleted(RunReceiver(r, j.receiving, es))) <==> r.task.Hashing? && r.mine
  {
    CeilingBounds(|j.file|, j.sending.chunkBytes);
    if r.task.Hashing? && r.mine {
      var es := [R.HashAnswered(true)];
      assert es[..0] == [] && NoOffer(es);
      assert ReportsCompleted(RunReceiver(r, j.receiving, es));
    } else {
      forall es | NoOffer(es)
        ensures !ReportsCompleted(RunReceiver(r, j.receiving, es))
      {
        DeadEndRun(r, j.receiving, es);
      }
    }
  }
}
