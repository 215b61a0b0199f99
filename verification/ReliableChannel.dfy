/** The reliable channel object: its pending messages with their counters and timers, and the ids it has seen. */
module ReliableChannels {
  import opened Bytes
  import opened Reliable

  /** What a message object holds besides its body: attempts made, its timer, and the history the proofs speak of. */
  datatype Record = Record(attempts: nat, timer: Timer, outcomes: seq<Outcome>, delays: seq<nat>)

  class ReliableChannel {
    const policy: Policy
    /** Every message sent: suspended sends and timers refer to its record also after it has left `pending`. */
    var records: map<nat, Record>
    var pending: set<nat>
    var sending: set<nat>
    var seen: map<string, nat>

    ghost predicate Valid()
      reads this
    {
      pending <= records.Keys && sending <= records.Keys
    }

    ghost function View(id: nat): (m: Message)
      reads this
      requires id in records
    {
      var r := records[id];
      Message(id in pending, id in sending, r.attempts, r.timer, r.outcomes, r.delays)
    }

    /** The entry of one id among those seen. */
    ghost function SeenEntry(id: string): (r: Option<nat>)
      reads this
    {
      if id in seen then Some(seen[id]) else None
    }

    constructor (p: Policy)
      ensures Valid() && policy == p && records == map[] && seen == map[]
    {
      policy, records, pending, sending, seen := p, map[], {}, {}, map[];
    }

    // ---- the sender's side -------------------------------------------------

    /** clearPending: the timer is cleared and the message leaves the map. */
    method ClearPending(id: nat)
      requires Valid() && id in records
      modifies this`records, this`pending
      ensures Valid() && records.Keys == old(records.Keys) && View(id) == Clear(old(View(id)))
      ensures forall x :: x in records && x != id ==> View(x) == old(View(x))
    {
      records := records[id := records[id].(timer := NoTimer)];
      pending := pending - {id};
    }

    /** The message leaves the map and its outcome is reported. */
    method Report(id: nat, outcome: Outcome)
      requires Valid() && id in records
      modifies this`records, this`pending
      ensures Valid() && records.Keys == old(records.Keys) && View(id) == Settle(old(View(id)), outcome)
      ensures forall x :: x in records && x != id ==> View(x) == old(View(x))
    {
      ClearPending(id);
      records := records[id := records[id].(outcomes := records[id].outcomes + [outcome])];
    }

    /** sendPending up to its await, for a message that is pending. */
    method SendPending(id: nat)
      requires Valid() && id in pending
      modifies this`records, this`sending
      ensures Valid() && records.Keys == old(records.Keys)
      ensures View(id) == old(View(id)).(sending := true, attempts := old(View(id)).attempts + 1)
      ensures forall x :: x in records && x != id ==> View(x) == old(View(x))
    {
      records := records[id := records[id].(attempts := records[id].attempts + 1)];
      sending := sending + {id};
    }

    /** armRetry: a timer to try again, or to give up after the last attempt. */
    method ArmRetry(id: nat, random: real)
      requires Valid() && id in records
      modifies this`records
      ensures Valid() && records.Keys == old(records.Keys)
      ensures forall x :: x in records && x != id ==> View(x) == old(View(x))
      ensures View(id) == old(View(id)).(timer :=
        if old(View(id)).attempts >= policy.maxAttempts then GiveUp else Retry(RetryDelay(policy, old(View(id)).attempts, random)))
    {
      var attempts := records[id].attempts;
      if attempts >= policy.maxAttempts {
        records := records[id := records[id].(timer := GiveUp)];
      } else {
        records := records[id := records[id].(timer := Retry(RetryDelay(policy, attempts, random)))];
      }
    }

    /** send: a fresh random id, registered and sent for the first time. */
    method Send(id: nat)
      requires Valid() && id !in records
      modifies this`records, this`pending, this`sending
      ensures Valid() && records.Keys == old(records.Keys) + {id} && View(id) == SENT
      ensures forall x :: x in old(records) ==> View(x) == old(View(x))
    {
      records := records[id := Record(0, NoTimer, [], [])];
      pending := pending + {id};
      SendPending(id);
    }

    /** The transport has answered a send: armed again, or failed whether or not the message is still pending. */
    method SendReturns(id: nat, ok: bool, random: real)
      requires Valid() && id in records
      modifies this`records, this`pending, this`sending
      ensures Valid() && records.Keys == old(records.Keys)
      ensures View(id) == Next(old(View(id)), policy, SendAnswered(ok, random))
      ensures forall x :: x in records && x != id ==> View(x) == old(View(x))
    {
      if id !in sending { return; }
      sending := sending - {id};
      if !ok {
        Report(id, Failed);
      } else {
        ArmRetry(id, random);
      }
    }

    /** The message's timer fires; it does something only if the message is still pending. */
    method TimerRings(id: nat)
      requires Valid() && id in records
      modifies this`records, this`pending, this`sending
      ensures Valid() && records.Keys == old(records.Keys)
      ensures View(id) == Next(old(View(id)), policy, TimerFires)
      ensures forall x :: x in records && x != id ==> View(x) == old(View(x))
    {
      var timer := records[id].timer;
      if timer.NoTimer? { return; }
      records := records[id := records[id].(timer := NoTimer)];
      if id !in pending { return; }
      match timer {
        case GiveUp => Report(id, Failed);
        case Retry(delay) =>
          records := records[id := records[id].(delays := records[id].delays + [delay])];
          SendPending(id);
        case NoTimer => return;
      }
    }

    /** An ack or a nack: nothing for a message no longer pending. */
    method AnswerArrives(id: nat, positive: bool)
      requires Valid()
      modifies this`records, this`pending
      ensures Valid() && records.Keys == old(records.Keys)
      ensures id in records ==> View(id) == Next(old(View(id)), policy, if positive then AckArrives else NackArrives)
      ensures forall x :: x in records && x != id ==> View(x) == old(View(x))
    {
      if id in pending {
        Report(id, if positive then Delivered else Failed);
      }
    }

    /** Every pending message fails once; the others are left alone. */
    method FailAllPending()
      requires Valid()
      modifies this`records, this`pending
      ensures Valid() && records.Keys == old(records.Keys) && pending == {}
      ensures forall id :: id in records ==> View(id) == Next(old(View(id)), policy, FailAll)
    {
      while pending != {}
        invariant Valid() && records.Keys == old(records.Keys) && pending <= old(pending)
        invariant forall id :: id in pending ==> View(id) == old(View(id))
        invariant forall id :: id in records && id !in pending ==> View(id) == Next(old(View(id)), policy, FailAll)
        decreases pending
      {
        var id :| id in pending;
        Report(id, Failed);
      }
    }

    /** Pending messages are dropped without an outcome, and every id is forgotten. */
    method ResetChannel()
      requires Valid()
      modifies this`records, this`pending, this`seen
      ensures Valid() && records.Keys == old(records.Keys) && pending == {} && seen == map[]
      ensures forall id :: id in records ==> View(id) == Next(old(View(id)), policy, Reset)
    {
      while pending != {}
        invariant Valid() && records.Keys == old(records.Keys) && pending <= old(pending)
        invariant forall id :: id in pending ==> View(id) == old(View(id))
        invariant forall id :: id in records && id !in pending ==> View(id) == Next(old(View(id)), policy, Reset)
        decreases pending
      {
        var id :| id in pending;
        ClearPending(id);
      }
      seen := map[];
    }

    // ---- the receiver's side -----------------------------------------------

    /** Exactly the entries whose time has come are forgotten. */
    method SweepSeen(now: nat)
      modifies this`seen
      ensures seen == map id | id in old(seen) && now < old(seen)[id] :: old(seen)[id]
      ensures forall id, i :: SeenEntry(id) == Reliable.SweepSeen(Inbox(now, old(SeenEntry(id)), i, [])).seen
    {
      var todo := seen.Keys;
      while todo != {}
        invariant seen.Keys <= old(seen.Keys) && todo <= seen.Keys
        invariant forall id :: id in seen ==> seen[id] == old(seen)[id]
        invariant forall id :: id in old(seen) && id !in todo ==> (id in seen <==> now < old(seen)[id])
        decreases todo
      {
        var id :| id in todo;
        if seen[id] <= now {
          seen := seen - {id};
        }
        todo := todo - {id};
      }
    }

    /** receive after its await: the body is returned exactly when the id is not among those seen. */
    method AfterAck(id: string, now: nat) returns (isNew: bool)
      modifies this`seen
      ensures isNew <==> id !in old(seen)
      ensures seen == if isNew then old(seen)[id := now + policy.seenTtl] else old(seen)
      ensures var i := Inbox(now, old(SeenEntry(id)), 1, []);
              SeenEntry(id) == Receive(i, policy, AckSent).seen && (isNew <==> Receive(i, policy, AckSent).handed == [now])
    {
      isNew := id !in seen;
      if isNew {
        seen := seen[id := now + policy.seenTtl];
      }
    }
  }
}
