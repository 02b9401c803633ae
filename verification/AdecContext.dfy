/** The decoder-independent audio context: its frame pool, its frame list and the stamp it
    remembers. Each method is one function of the source; resetting a frame and claiming one take no
    lock there. */
module AdecContexts {
  import opened MachineInts
  import opened AdecFrames
  import opened PtsInterpolation

  class AdecContext {
    const frames: array<Frame>
    var framesHead: int
    var framesTail: int
    var previousPts: TimeStamp

    ghost function View(): FrameList
      reads this, frames
    {
      FrameList(frames[..], framesHead, framesTail)
    }

    constructor (framesNum: nat)
      ensures fresh(frames) && Chain(View(), []) && frames.Length == framesNum && previousPts == UNSET
      ensures forall i :: 0 <= i < framesNum ==> !frames[i].inUse
    {
      frames := new Frame[framesNum](i => Frame(false, false, false, 0, 0, TimeStamp(0, 0)));
      framesHead, framesTail := -1, -1;
      previousPts := UNSET;
    }

    /** Claims the first free frame for an access unit stamped `pts`; -1 stands for busy. */
    method GetNewPcmHandle(pts: TimeStamp) returns (h: int)
      modifies frames
      ensures h == -1 || (0 <= h < frames.Length && !old(frames[h].inUse))
      ensures forall i :: 0 <= i < (if h == -1 then frames.Length else h) ==> old(frames[i].inUse)
      ensures frames[..] == if h == -1 then old(frames[..])
                else old(frames[..])[h := old(frames[h]).(inUse := true, pts := pts)]
    {
      var i := 0;
      while i < frames.Length
        invariant 0 <= i <= frames.Length && frames[..] == old(frames[..])
        invariant forall j :: 0 <= j < i ==> frames[j].inUse
      {
        if !frames[i].inUse {
          frames[i] := frames[i].(inUse := true);
          frames[i] := frames[i].(pts := pts);
          return i;
        }
        i := i + 1;
      }
      return -1;
    }

    method LinkFrame(h: int) returns (ok: bool)
      requires Linkable(View(), h)
      modifies this`framesHead, this`framesTail, frames
      ensures ok <==> Link(old(View()), h).Ok?
      ensures View() == if ok then Link(old(View()), h).list else old(View())
    {
      if !frames[h].inUse {
        return false;
      }
      if framesTail == -1 && framesHead == -1 {
        frames[h] := frames[h].(next := h);
        frames[h] := frames[h].(prev := h);
        framesHead := h;
        framesTail := h;
      } else if framesTail != -1 && framesHead != -1 {
        frames[h] := frames[h].(next := h);
        frames[h] := frames[h].(prev := framesTail);
        frames[framesTail] := frames[framesTail].(next := h);
        framesTail := h;
      } else {
        return false;
      }
      return true;
    }

    method UnlinkFrame(h: int) returns (ok: bool)
      requires Followable(View(), h)
      modifies this`framesHead, this`framesTail, frames
      ensures ok <==> Unlink(old(View()), h).Ok?
      ensures View() == if ok then Unlink(old(View()), h).list else old(View())
    {
      if !frames[h].inUse {
        return false;
      }
      if framesHead == -1 || framesTail == -1 {
        return false;
      }
      var next := frames[h].next;
      var prev := frames[h].prev;
      if framesHead == framesTail {
        if h != framesTail {
          return false;
        }
        framesHead := -1;
        framesTail := -1;
        frames[h] := frames[h].(next := -1);
        frames[h] := frames[h].(prev := -1);
      } else if h == framesHead {
        framesHead := next;
        frames[prev] := frames[prev].(next := next);
      } else if h == framesTail {
        framesTail := prev;
        frames[next] := frames[next].(prev := prev);
      } else {
        frames[next] := frames[next].(prev := prev);
        frames[prev] := frames[prev].(next := next);
      }
      return true;
    }

    method ResetFrame(h: int)
      requires IsHandle(View(), h)
      modifies frames
      ensures View() == Reset(old(View()), h)
    {
      frames[h] := frames[h].(inUse := false);
      frames[h] := frames[h].(auDone := false);
      frames[h] := frames[h].(pcmOut := false);
      frames[h] := frames[h].(next := -1);
      frames[h] := frames[h].(prev := -1);
    }

    /** Fills in the stamp of a frame whose access unit came without one. A codec that has a function
        of its own for this leaves the remembered stamp alone. */
    method CorrectPtsValue(h: int, how: Correction) returns (ok: bool)
      requires IsHandle(View(), h)
      modifies this`previousPts, frames
      ensures if !old(frames[h].inUse) then !ok && frames[..] == old(frames[..]) && previousPts == old(previousPts)
              else
                var r := if how.ByCodec? then Corrected(how.ok, how.au, old(previousPts))
                         else CorrectPts(old(previousPts), old(frames[h].pts), PtsAdjust(how.t));
                && ok == r.ok && previousPts == r.previous
                && frames[..] == old(frames[..])[h := old(frames[h]).(pts := r.au)]
    {
      assert 0 <= h < frames.Length;
      hide IsHandle, PtsAdjust;
      if !frames[h].inUse {
        return false;
      }
      if how.ByCodec? {
        frames[h] := frames[h].(pts := how.au);
        return how.ok;
      }
      if frames[h].pts.upper == TS_INVALID {
        if frames[h].pts.lower != TS_INVALID {
          return false;
        }
        if previousPts.upper == TS_INVALID && previousPts.lower == TS_INVALID {
          return true;
        }
        var adjust := PtsAdjust(how.t);
        frames[h] := frames[h].(pts := frames[h].pts.(upper := previousPts.upper));
        frames[h] := frames[h].(pts := frames[h].pts.(lower := Wrap32(previousPts.lower + adjust)));
        if frames[h].pts.lower < previousPts.lower {
          frames[h] := frames[h].(pts := frames[h].pts.(upper := Wrap32(frames[h].pts.upper + 1) % 2));
        }
        if frames[h].pts.upper == TS_INVALID {
          return false;
        }
      }
      if frames[h].pts.lower == TS_INVALID {
        return false;
      }
      previousPts := frames[h].pts;
      return true;
    }
  }
}
