/** Cutting captured audio, which arrives in pieces of any length, into frames of one fixed length. */
module Capture {

  function Flat(pieces: seq<seq<real>>): (r: seq<real>)
  {
    if |pieces| == 0 then [] else pieces[0] + Flat(pieces[1..])
  }

  lemma {:induction false} FlatAppend(pieces: seq<seq<real>>, p: seq<real>)
    ensures Flat(pieces + [p]) == Flat(pieces) + p
  {
    if |pieces| == 0 {
      assert [p][1..] == [] && [] + [p] == [p];
    } else {
      FlatAppend(pieces[1..], p);
      assert (pieces + [p])[1..] == pieces[1..] + [p];
    }
  }

  class Recorder {
    const frameLength: nat
    var pieces: seq<seq<real>>
    var samples: nat

    ghost predicate Valid()
      reads this
    {
      samples == |Flat(pieces)| && frameLength >= 320
    }

    /** Takes the front piece, or as much of it as the frame still needs. */
    method TakeFrom(frame: array<real>, offset: nat) returns (next: nat)
      requires Valid() && offset < frame.Length && |Flat(pieces)| >= frame.Length - offset
      modifies this`pieces, this`samples, frame
      ensures Valid() && offset <= next <= frame.Length && (next == offset ==> |pieces| < old(|pieces|))
      ensures frame[..next] + Flat(pieces) == old(frame[..offset]) + old(Flat(pieces))
      ensures |Flat(pieces)| >= frame.Length - next
    {
      var first := pieces[0];
      var take := if |first| < frame.Length - offset then |first| else frame.Length - offset;
      ghost var before := frame[..offset];
      for i := 0 to take
        invariant unchanged(this) && frame[..offset] == before && frame[offset..offset + i] == first[..i]
      {
        frame[offset + i] := first[i];
        assert frame[offset..offset + i + 1] == frame[offset..offset + i] + [first[i]];
      }
      next := offset + take;
      assert frame[..next] == before + first[..take];
      ghost var rest := Flat(pieces[1..]);
      if take == |first| {
        pieces := pieces[1..];
        assert first[..take] == first;
      } else {
        assert pieces[0 := first[take..]][1..] == pieces[1..];
        pieces := pieces[0 := first[take..]];
        assert first == first[..take] + first[take..];
      }
      samples := samples - take;
      assert before + first[..take] + Flat(pieces) == before + (first + rest);
    }

    /** A frame is the first frameLength samples; the rest stay buffered. */
    method ReadFrame() returns (frame: seq<real>)
      requires Valid() && samples >= frameLength
      modifies this`pieces, this`samples
      ensures Valid() && |frame| == frameLength && frame + Flat(pieces) == old(Flat(pieces))
    {
      var buffer := new real[frameLength];
      var offset := 0;
      while offset < buffer.Length
        invariant Valid() && 0 <= offset <= buffer.Length && fresh(buffer)
        invariant buffer[..offset] + Flat(pieces) == old(Flat(pieces)) && |Flat(pieces)| >= buffer.Length - offset
        decreases buffer.Length - offset, |pieces|
      {
        offset := TakeFrom(buffer, offset);
      }
      frame := buffer[..];
      assert buffer[..offset] == buffer[..];
    }

    /** All the frames there are enough samples for; with what stays buffered they make up everything captured. */
    method OnSamples(data: seq<real>) returns (frames: seq<seq<real>>)
      requires Valid()
      modifies this`pieces, this`samples
      ensures Valid() && samples < frameLength
      ensures forall i :: 0 <= i < |frames| ==> |frames[i]| == frameLength
      ensures Flat(frames) + Flat(pieces) == old(Flat(pieces)) + data
    {
      FlatAppend(pieces, data);
      pieces := pieces + [data];
      samples := samples + |data|;
      frames := [];
      while samples >= frameLength
        invariant Valid()
        invariant forall i :: 0 <= i < |frames| ==> |frames[i]| == frameLength
        invariant Flat(frames) + Flat(pieces) == old(Flat(pieces)) + data
        decreases samples
      {
        ghost var before, all := Flat(frames), Flat(pieces);
        var frame := ReadFrame();
        FlatAppend(frames, frame);
        frames := frames + [frame];
        assert before + frame + Flat(pieces) == before + all;
      }
    }
  }
}
