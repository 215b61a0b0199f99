/** The receiver's transfer object, changed in place as chunks arrive. */
module IncomingFiles {
  import opened Bytes
  import opened Profiles
  import Base64Url
  import opened FileChunks
  import opened FileReceiver

  class IncomingFile {
    const limits: FileLimits
    var known: bool
    var meta: Meta
    var status: Status
    var chunks: seq<Option<Octets>>
    var received: set<nat>
    var accepting: bool
    var task: Task
    var mine: bool
    var finished: seq<Octets>
    var faults: seq<Fault>

    ghost function Transfer(): (t: Incoming)
      reads this
    {
      Incoming(meta, status, chunks, received, accepting)
    }

    ghost function View(): (r: Receiver)
      reads this
    {
      Receiver(if known then Some(Transfer()) else None, task, mine, finished, faults)
    }

    constructor (f: FileLimits)
      ensures View() == START && limits == f
    {
      limits := f;
      known, task, mine, finished, faults := false, Idle, false, [], [];
      meta, status, chunks, received, accepting := Meta(0, 0, 0, false), Cancelled, [], {}, false;
    }

    method Release()
      modifies this`chunks, this`received
      ensures Transfer() == Released(old(Transfer()))
    {
      chunks := [];
      received := {};
    }

    method ReceiveOffer(m: Meta, otherActive: bool)
      requires task.Idle?
      modifies this
      ensures View() == React(old(View()), limits, OfferArrives(m, otherActive)).0
    {
      if Judge(limits, m) != Acceptable { return; }
      if known && !Terminal(status) { return; }
      if otherActive {
        known := false;
        return;
      }
      known := true;
      meta, status, chunks, received, accepting := m, Offered, seq(m.total, _ => None), {}, false;
    }

    /** A chunk is stored only if it is awaited, decodes, and has the length its position demands. */
    method ReceiveChunk(index: int, total: int, data: string) returns (reply: Reply)
      requires task.Idle?
      modifies this
      ensures (View(), reply) == React(old(View()), limits, ChunkArrives(index, total, data))
    {
      if !known || status != Receiving { return NoReply; }
      if total != meta.total || index < 0 || index >= meta.total {
        task, mine := Replying, true;
        return NackChunk(if index < 0 then 0 else index);
      }
      if index in received {
        task, mine := Replying, true;
        return AckChunk(index);
      }
      match Base64Url.Decode(data) {
        case None =>
          task, mine := Replying, true;
          return NackChunk(index);
        case Some(bytes) =>
          if |bytes| != ExpectedBytes(meta, index) {
            task, mine := Replying, true;
            return NackChunk(index);
          }
          chunks := if index < |chunks| then chunks[index := Some(bytes)] else chunks;
          received := received + {index};
          task, mine := Acking, true;
          return AckChunk(index);
      }
    }

    /** Puts the chunks together, or finds one missing. */
    method Assemble() returns (blob: Option<Octets>)
      ensures blob == match Present(chunks) case None => None case Some(all) => Some(Joined(all))
    {
      var bytes: Octets := [];
      ghost var all: seq<Octets> := [];
      for i := 0 to |chunks|
        invariant Present(chunks[..i]) == Some(all) && bytes == Joined(all)
      {
        assert chunks[..i + 1][..i] == chunks[..i];
        if chunks[i].None? {
          MissingSomewhere(chunks, i);
          return None;
        }
        all := all + [chunks[i].value];
        assert all[..|all| - 1] + [chunks[i].value] == all;
        bytes := bytes + chunks[i].value;
      }
      assert chunks[..|chunks|] == chunks;
      return Some(bytes);
    }

    method FinishWith(blob: Octets)
      modifies this
      ensures View() == Finish(old(View()), blob)
    {
      if mine && known {
        status := Completed;
        chunks := [];
      }
      task := Idle;
      finished := finished + [blob];
    }

    method FailBecause(fault: Fault)
      modifies this
      ensures View() == FailWith(old(View()), fault)
    {
      if mine && known {
        Release();
        status := Failed;
      }
      task := Replying;
      faults := faults + [fault];
    }

    method ReplyEnds()
      modifies this
      ensures View() == React(old(View()), limits, ReplyAnswered).0
    {
      if task.Replying? {
        task := Idle;
      } else if task.Acking? {
        if !mine || !known || |received| != meta.total {
          task := Idle;
          return;
        }
        var blob := Assemble();
        if blob.None? {
          FailBecause(MissingChunk);
        } else if |blob.value| != meta.size {
          FailBecause(SizeMismatch);
        } else if meta.hashed {
          task := Hashing(blob.value);
        } else {
          FinishWith(blob.value);
        }
      }
    }

    method HashEnds(same: bool)
      modifies this
      ensures View() == React(old(View()), limits, HashAnswered(same)).0
    {
      if !task.Hashing? { return; }
      if same {
        FinishWith(task.blob);
      } else {
        FailBecause(IntegrityFailed);
      }
    }

    method AcceptOffer()
      modifies this
      ensures View() == React(old(View()), limits, AcceptPressed).0
    {
      if known && status == Offered {
        status := Receiving;
        accepting := true;
      }
    }

    method AcceptEnds(ok: bool)
      modifies this
      ensures View() == React(old(View()), limits, AcceptAnswered(ok)).0
    {
      if !known || !accepting { return; }
      accepting := false;
      if !ok {
        status := Failed;
        Release();
      }
    }

    method RemoveTransfer()
      modifies this
      ensures View() == React(old(View()), limits, Removed).0
    {
      if known && Terminal(status) {
        Release();
        known, mine := false, false;
      }
    }

    method ResetReceiver()
      modifies this
      ensures View() == React(old(View()), limits, Reset).0
    {
      if known {
        Release();
        known, mine := false, false;
      }
    }

    method Abandon()
      modifies this
      ensures View() == React(old(View()), limits, Abandoned).0
    {
      if known {
        status := Cancelled;
        Release();
      }
    }
  }

  lemma {:induction false} MissingSomewhere(chunks: seq<Option<Octets>>, i: nat)
    requires i < |chunks| && chunks[i].None?
    ensures Present(chunks).None?
  {
    if i < |chunks| - 1 {
      MissingSomewhere(chunks[..|chunks| - 1], i);
    }
  }
}
