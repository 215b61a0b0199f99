/** Runs of both sides together that end what looked final: a completed sender and a cancelled receiver. */
module FileTransferRuns {
  import opened Bytes
  import opened Profiles
  import Base64Url
  import opened FileChunks
  import S = FileSender
  import opened FileRetries
  import R = FileReceiver
  import opened FileTransfer

  /** A file of one chunk, with a hash, that both sides' limits allow. */
  ghost predicate OneChunk(j: Job)
  {
    && j.Valid() && j.hashed && j.sending.window >= 1 && |j.file| <= j.sending.chunkBytes
    && Judge(j.receiving, j.Meta()) == Acceptable
  }

  ghost predicate ReachableWorld(j: Job, w: World)
    requires j.Valid()
  {
    exists es :: LegalRun(j, Begin(j, false), es) && FileTransfer.Run(j, Begin(j, false), es) == w
  }

  /** A family of worlds that holds the first one and everything legal steps lead to. */
  ghost predicate ClosedWorlds(j: Job, ws: iset<World>)
    requires j.Valid()
  {
    Begin(j, false) in ws && forall w, e :: w in ws && Legal(j, w, e) ==> Step(j, w, e) in ws
  }

  ghost function ReachableWorlds(j: Job): (ws: iset<World>)
    requires j.Valid()
  {
    iset w: World | ReachableWorld(j, w)
  }

  lemma ReachStep(j: Job, w: World, e: FileTransfer.Event)
    requires j.Valid() && ReachableWorld(j, w) && Legal(j, w, e)
    ensures ReachableWorld(j, Step(j, w, e))
  {
    var es :| LegalRun(j, Begin(j, false), es) && FileTransfer.Run(j, Begin(j, false), es) == w;
    RunSnoc(j, Begin(j, false), es, e);
  }

  lemma RunSnoc(j: Job, w: World, es: seq<FileTransfer.Event>, e: FileTransfer.Event)
    requires j.Valid() && LegalRun(j, w, es) && Legal(j, FileTransfer.Run(j, w, es), e)
    ensures LegalRun(j, w, es + [e]) && FileTransfer.Run(j, w, es + [e]) == Step(j, FileTransfer.Run(j, w, es), e)
  {
    assert (es + [e])[..|es|] == es;
  }

  lemma ReachableWorldsAreClosed(j: Job)
    requires j.Valid()
    ensures ClosedWorlds(j, ReachableWorlds(j))
  {
    assert LegalRun(j, Begin(j, false), []) && FileTransfer.Run(j, Begin(j, false), []) == Begin(j, false);
    forall w, e | ReachableWorld(j, w) && Legal(j, w, e)
      ensures ReachableWorld(j, Step(j, w, e))
    {
      ReachStep(j, w, e);
    }
  }

  lemma OneChunkOnly(j: Job)
    requires OneChunk(j)
    ensures j.Meta().total == 1 && j.Chunk(0) == j.file
  {
    var n, c := |j.file|, j.sending.chunkBytes;
    UniqueRemainder(n + c - 1, c, 1, n - 1);
    assert 0 * c == 0;
    assert j.Chunk(0) == j.file[..n];
  }

  // ---- up to the ack of the only chunk -------------------------------------

  function Receiving(j: Job, chunk: Option<Octets>): (t: R.Incoming)
    requires j.Valid()
  {
    R.Incoming(j.Meta(), R.Receiving, [chunk], if chunk.Some? then {0} else {}, true)
  }

  /** The receiver has accepted the offer; the sender does not know yet. */
  lemma ReceiverAccepts(j: Job, ws: iset<World>)
    requires OneChunk(j) && ClosedWorlds(j, ws)
    ensures World(S.Offer(1, false), R.Receiver(Some(Receiving(j, None)), R.Idle, false, [], []), {}, {}) in ws
  {
    OneChunkOnly(j);
    var w := Begin(j, false);
    var offer := AtReceiver(R.OfferArrives(j.Meta(), false));
    var offered := Step(j, w, offer);
    assert offered in ws;
    assert offered.receiver.current.value.chunks == [None];
    assert offered.receiver.current == Some(R.Incoming(j.Meta(), R.Offered, [None], {}, false));
    var accepted := Step(j, offered, AtReceiver(R.AcceptPressed));
    assert accepted in ws;
    assert accepted == World(S.Offer(1, false), R.Receiver(Some(Receiving(j, None)), R.Idle, false, [], []), {}, {});
  }

  /** The sender has handed the chunk to its transport. */
  lemma ChunkIsSent(j: Job, ws: iset<World>)
    requires OneChunk(j) && ClosedWorlds(j, ws)
    ensures World(Single(ONE_SEND, 1), R.Receiver(Some(Receiving(j, None)), R.Idle, false, [], []), {}, {}) in ws
  {
    ReceiverAccepts(j, ws);
    var w := World(S.Offer(1, false), R.Receiver(Some(Receiving(j, None)), R.Idle, false, [], []), {}, {});
    SingleStarts(j.sending);
    var begun := Step(j, w, AtSender(S.Accept));
    assert begun in ws;
    var s := S.Slot(Some(S.Item(1, S.Sending, S.NoTimer)), false, [S.Send(1, S.Reading)], [], []);
    assert begun == w.(sender := Single(s, 1));
    SendsOut(j.sending, s);
    assert Step(j, begun, AtSender(S.ReadAnswered(0, 0, true))) in ws;
  }

  lemma SendsOut(f: FileLimits, s: S.Slot)
    requires s == S.Slot(Some(S.Item(1, S.Sending, S.NoTimer)), false, [S.Send(1, S.Reading)], [], [])
    ensures S.Next(Single(s, 1), f, S.ReadAnswered(0, 0, true)) == Single(ONE_SEND, 1)
  {
    var r := S.FinishRead(S.GateOf(Single(s, 1), f), s, 0, true).0;
    assert r == ONE_SEND;
    assert [s][0 := r] == [ONE_SEND];
  }

  /** The receiver has stored the chunk and is sending the ack. */
  lemma ChunkIsAcked(j: Job, ws: iset<World>)
    requires OneChunk(j) && ClosedWorlds(j, ws)
    ensures World(Single(ONE_SEND, 1), R.Receiver(Some(Receiving(j, Some(j.file))), R.Acking, true, [], []), {0}, {0}) in ws
  {
    OneChunkOnly(j);
    ChunkIsSent(j, ws);
    var w := World(Single(ONE_SEND, 1), R.Receiver(Some(Receiving(j, None)), R.Idle, false, [], []), {}, {});
    var e := AtReceiver(R.ChunkArrives(0, 1, Base64Url.Encode(j.Chunk(0))));
    assert Legal(j, w, e);
    ChunkIsStored(j, Receiving(j, None), 0);
    StoresOnly(j, w.receiver);
    assert Step(j, w, e) in ws;
  }

  lemma StoresOnly(j: Job, r: R.Receiver)
    requires OneChunk(j) && r == R.Receiver(Some(Receiving(j, None)), R.Idle, false, [], [])
    requires R.JudgeChunk(Receiving(j, None), 0, 1, Base64Url.Encode(j.Chunk(0))) == R.Stored(j.file)
    ensures var e := R.ChunkArrives(0, 1, Base64Url.Encode(j.Chunk(0)));
      && R.React(r, j.receiving, e) == (R.Receiver(Some(Receiving(j, Some(j.file))), R.Acking, true, [], []), R.AckChunk(0))
      && NewlyStored(r, R.React(r, j.receiving, e).0) == {0}
  {
    var none: Option<Octets> := None;
    assert [none][0 := Some(j.file)] == [Some(j.file)];
    assert {} + {0} == {0};
  }

  // ---- the receiver --------------------------------------------------------

  /** Cancelled, and one legal step from being reported completed with the file handed over. */
  ghost predicate CompletesCancelled(j: Job, w: World)
    requires j.Valid()
  {
    var e := AtReceiver(R.HashAnswered(true));
    && Legal(j, w, e) && w.receiver.current.Some? && w.receiver.current.value.status == R.Cancelled
    && ReportsCompleted(Step(j, w, e).receiver) && Step(j, w, e).receiver.finished == [j.file]
  }

  /** Cancelled while the file is hashed, the transfer is reported completed and the file handed over. */
  lemma CancelledThenCompleted(j: Job)
    requires OneChunk(j)
    ensures exists w :: ReachableWorld(j, w) && CompletesCancelled(j, w)
  {
    ReachableWorldsAreClosed(j);
    var ws := ReachableWorlds(j);
    ChunkIsAcked(j, ws);
    var w := World(Single(ONE_SEND, 1), R.Receiver(Some(Receiving(j, Some(j.file))), R.Acking, true, [], []), {0}, {0});
    CancelledWhileHashing(j, ws, w);
  }

  lemma CancelledWhileHashing(j: Job, ws: iset<World>, w: World)
    requires OneChunk(j) && ClosedWorlds(j, ws) && w in ws
    requires w.receiver == R.Receiver(Some(Receiving(j, Some(j.file))), R.Acking, true, [], [])
    ensures exists c :: c in ws && CompletesCancelled(j, c)
  {
    HashingStarts(j, w);
    var hashing := Step(j, w, AtReceiver(R.ReplyAnswered));
    assert hashing in ws;
    var cancelled := Step(j, hashing, AtReceiver(R.Abandoned));
    assert cancelled in ws;
    assert CompletesCancelled(j, cancelled);
  }

  lemma HashingStarts(j: Job, w: World)
    requires OneChunk(j) && w.receiver == R.Receiver(Some(Receiving(j, Some(j.file))), R.Acking, true, [], [])
    ensures Step(j, w, AtReceiver(R.ReplyAnswered)).receiver == w.receiver.(task := R.Hashing(j.file))
  {
    OneChunkOnly(j);
    CompletionFindsFile(j, Receiving(j, Some(j.file)));
  }

  // ---- the sender ----------------------------------------------------------

  const WAITING := ONE_SEND.(item := Some(S.Item(1, S.WaitingAck, S.Live(S.AckTimeout(1)))), sends := [])
  const ACKED_SLOT := ONE_SEND.(item := None, acked := true, sends := [])

  lemma SendIsAnswered(f: FileLimits)
    ensures S.Next(Single(ONE_SEND, 1), f, S.SendAnswered(0, 0, true)) == Single(WAITING, 1)
  {
    var r := S.FinishSend(S.GateOf(Single(ONE_SEND, 1), f), ONE_SEND, 0, true).0;
    assert r == WAITING;
    assert [ONE_SEND][0 := r] == [WAITING];
  }

  lemma AckCompletes(f: FileLimits)
    ensures var t := Single(WAITING, 1).(pumping := false);
      S.Next(t, f, S.Ack(0)) == Single(ACKED_SLOT, 1).(status := S.Completed)
  {
    var t := Single(WAITING, 1).(pumping := false);
    assert [WAITING][0 := ACKED_SLOT] == [ACKED_SLOT] && [ACKED_SLOT][..0] == [];
    var u := t.(slots := [ACKED_SLOT]);
    assert S.InFlight([ACKED_SLOT]) == 0 && S.Acked([ACKED_SLOT]) == 1;
    assert S.Fill(u, f) == u;
  }

  /** Completed, and active again after another accept. */
  ghost predicate Reactivates(j: Job, w: World)
  {
    w.sender.status == S.Completed && Step(j, w, AtSender(S.Accept)).sender.status == S.Active
  }

  lemma AcceptReactivates(f: FileLimits, t: S.Transfer)
    requires t == Single(ACKED_SLOT, 1).(status := S.Completed)
    ensures S.Next(t, f, S.Accept).status == S.Active
  {}

  /** A second accept, while the pump that completed the transfer is suspended, makes it active again. */
  lemma CompletedThenActive(j: Job)
    requires OneChunk(j)
    ensures exists w :: ReachableWorld(j, w) && Reactivates(j, w)
  {
    ReachableWorldsAreClosed(j);
    var ws := ReachableWorlds(j);
    ChunkIsAcked(j, ws);
    var w := World(Single(ONE_SEND, 1), R.Receiver(Some(Receiving(j, Some(j.file))), R.Acking, true, [], []), {0}, {0});
    SendIsAnswered(j.sending);
    var answered := Step(j, w, AtSender(S.SendAnswered(0, 0, true)));
    assert answered in ws && answered == w.(sender := Single(WAITING, 1));
    AckedAfterRest(j, ws, answered);
  }

  lemma AckedAfterRest(j: Job, ws: iset<World>, w: World)
    requires j.Valid() && ClosedWorlds(j, ws) && w in ws && w.sender == Single(WAITING, 1) && 0 in w.acks
    ensures exists c :: c in ws && Reactivates(j, c)
  {
    var rested := Step(j, w, AtSender(S.PumpEnds));
    assert rested in ws && rested == w.(sender := Single(WAITING, 1).(pumping := false));
    AckCompletes(j.sending);
    assert Legal(j, rested, AtSender(S.Ack(0)));
    var completed := Step(j, rested, AtSender(S.Ack(0)));
    assert completed in ws && completed == w.(sender := Single(ACKED_SLOT, 1).(status := S.Completed));
    AcceptReactivates(j.sending, completed.sender);
    assert Reactivates(j, completed);
  }
}
