/** Single ownership of coroutine frames through moves, scheduling, adoption and destruction. */
module RuntimeFrames {
  import opened Wrappers
  import opened SchedulerCore
  import opened Runtime
  import opened RuntimeInv

  lemma FramesSame(slots: seq<Slot>, slots': seq<Slot>, fr: Frames)
    requires FramesInv(slots, fr)
    requires |slots'| == |slots| && forall i :: 0 <= i < |slots| ==> slots'[i].frame == slots[i].frame
    ensures FramesInv(slots', fr)
  {
    assert forall o, f: nat :: Owns(slots', fr.tokens, o, f) <==> Owns(slots, fr.tokens, o, f);
  }

  lemma MakeKeeps(slots: seq<Slot>, fr: Frames, t: nat)
    requires FramesInv(slots, fr) && t !in fr.tokens
    ensures FramesInv(slots, Make(fr, t))
  {
    var fr' := Make(fr, t);
    forall o, f: nat
      ensures Owns(slots, fr'.tokens, o, f) <==> Owns(slots, fr.tokens, o, f) || (o == TokenOwner(t) && f == fr.made)
    {
    }
    assert forall o, f: nat :: Owns(slots, fr.tokens, o, f) ==> f < fr.made;
    forall f | f in fr'.live
      ensures exists o :: Owns(slots, fr'.tokens, o, f)
    {
      if f == fr.made {
        assert Owns(slots, fr'.tokens, TokenOwner(t), f);
      } else {
        var o :| Owns(slots, fr.tokens, o, f);
        assert Owns(slots, fr'.tokens, o, f);
      }
    }
  }

  /** Ownership of one frame passes to another owner; nothing is destroyed. */
  lemma PassKeeps(slots: seq<Slot>, slots': seq<Slot>, fr: Frames, tokens': map<nat, nat>, from: Owner, to: Owner, frame: nat)
    requires FramesInv(slots, fr) && Owns(slots, fr.tokens, from, frame)
    requires forall o, f: nat :: Owns(slots', tokens', o, f) <==>
                                 (Owns(slots, fr.tokens, o, f) && o != from) || (o == to && f == frame)
    ensures FramesInv(slots', fr.(tokens := tokens'))
  {
    forall f | f in fr.live
      ensures exists o :: Owns(slots', tokens', o, f)
    {
      if f == frame {
        assert Owns(slots', tokens', to, f);
      } else {
        var o :| Owns(slots, fr.tokens, o, f);
        assert Owns(slots', tokens', o, f);
      }
    }
  }

  /** An owner gives its frame up and the frame is destroyed: once, and never before. */
  lemma DestroyKeeps(slots: seq<Slot>, slots': seq<Slot>, fr: Frames, tokens': map<nat, nat>, from: Owner, frame: nat)
    requires FramesInv(slots, fr) && Owns(slots, fr.tokens, from, frame)
    requires forall o, f: nat :: Owns(slots', tokens', o, f) <==> Owns(slots, fr.tokens, o, f) && o != from
    ensures FramesInv(slots', Destroy(fr.(tokens := tokens'), frame))
    ensures frame !in fr.destroyed
  {
    var fr' := Destroy(fr.(tokens := tokens'), frame);
    forall f | f in fr'.live
      ensures exists o :: Owns(slots', tokens', o, f)
    {
      var o :| Owns(slots, fr.tokens, o, f);
      assert Owns(slots', tokens', o, f);
    }
    assert frame in fr.live;
    assert forall f :: f in fr'.destroyed <==> f in fr.destroyed || f == frame;
  }

  lemma DropKeeps(slots: seq<Slot>, fr: Frames, t: nat)
    requires FramesInv(slots, fr)
    ensures FramesInv(slots, Drop(fr, t))
  {
    if t in fr.tokens {
      DestroyKeeps(slots, slots, fr, Without(fr.tokens, t), TokenOwner(t), fr.tokens[t]);
    }
  }

  lemma MoveKeeps(slots: seq<Slot>, fr: Frames, src: nat, dst: nat)
    requires FramesInv(slots, fr)
    ensures FramesInv(slots, Move(fr, src, dst))
  {
    if src != dst {
      // first the old frame of dst goes, then the token moves: the order of the two does not show
      var gone := Drop(fr, dst);
      DropKeeps(slots, fr, dst);
      assert Without(Without(fr.tokens, src), dst) == Without(gone.tokens, src);
      if src in fr.tokens {
        var tokens' := Without(gone.tokens, src)[dst := fr.tokens[src]];
        PassKeeps(slots, slots, gone, tokens', TokenOwner(src), TokenOwner(dst), fr.tokens[src]);
        assert Move(fr, src, dst) == gone.(tokens := tokens');
      } else {
        assert Without(gone.tokens, src) == gone.tokens;
        assert Move(fr, src, dst) == gone;
      }
    }
  }

  /** What the awaiters know does not bear on who owns what. */
  lemma NotesKeep(slots: seq<Slot>, fr: Frames, awaiters: map<nat, bool>)
    requires FramesInv(slots, fr)
    ensures FramesInv(slots, fr.(awaiters := awaiters))
  {
  }

  /** Everything that user code does with Tasks and awaiters keeps single ownership. */
  lemma TokensKeep(slots: seq<Slot>, fr: Frames, a: Action)
    requires FramesInv(slots, fr) && ByTokens(a) && TokenEnabled(fr, a)
    ensures FramesInv(slots, TokenStep(fr, a))
  {
    hide FramesInv, Move, Drop, Make;
    match a
    case MakeTask(t, exhausted) =>
      if !exhausted {
        MakeKeeps(slots, fr, t);
      }
    case MoveTask(src, dst) => MoveKeeps(slots, fr, src, dst);
    case DropTask(t) => DropKeeps(slots, fr, t);
    case CoAwait(t, b) =>
      MoveKeeps(slots, fr, t, b);
      NotesKeep(slots, Move(fr, t, b), fr.awaiters[b := t !in fr.tokens]);
    case MoveAwaiter(src, dst) =>
      MoveKeeps(slots, fr, src, dst);
      NotesKeep(slots, Move(fr, src, dst), fr.awaiters[dst := fr.awaiters[src]]);
    case DropAwaiter(b) =>
      DropKeeps(slots, fr, b);
      NotesKeep(slots, Drop(fr, b), Remembered(fr.awaiters, b));
  }

  /** Scheduling and adoption: the frame goes from a token to an empty slot. */
  lemma TakeKeeps(slots: seq<Slot>, slots': seq<Slot>, fr: Frames, t: nat, k: nat)
    requires FramesInv(slots, fr) && t in fr.tokens
    requires k < |slots| && slots[k].frame == None && |slots'| == |slots| && slots'[k].frame == Some(fr.tokens[t])
    requires forall i :: 0 <= i < |slots| && i != k ==> slots'[i].frame == slots[i].frame
    ensures FramesInv(slots', TakeFrame(fr, t))
  {
    var tokens' := Without(fr.tokens, t);
    forall o, f: nat
      ensures Owns(slots', tokens', o, f) <==>
              (Owns(slots, fr.tokens, o, f) && o != TokenOwner(t)) || (o == SlotOwner(k) && f == fr.tokens[t])
    {
    }
    PassKeeps(slots, slots', fr, tokens', TokenOwner(t), SlotOwner(k), fr.tokens[t]);
  }

  /** Completion: the slot gives up its frame. */
  lemma FinishKeeps(slots: seq<Slot>, slots': seq<Slot>, fr: Frames, i: nat)
    requires FramesInv(slots, fr) && i < |slots| && slots[i].frame.Some?
    requires |slots'| == |slots| && slots'[i].frame == None
    requires forall k :: 0 <= k < |slots| && k != i ==> slots'[k].frame == slots[k].frame
    ensures FramesInv(slots', Destroy(fr, slots[i].frame.value))
  {
    forall o, f: nat
      ensures Owns(slots', fr.tokens, o, f) <==> Owns(slots, fr.tokens, o, f) && o != SlotOwner(i)
    {
    }
    DestroyKeeps(slots, slots', fr, fr.tokens, SlotOwner(i), slots[i].frame.value);
  }

  /** With no owning Task or awaiter and no active slot, no frame is allocated. */
  lemma NothingLeft(slots: seq<Slot>, fr: Frames)
    requires FramesInv(slots, fr) && FrameInv(slots)
    requires fr.tokens == map[] && Count(slots, Active) == 0
    ensures fr.live == {}
  {
    NoneActive(slots);
    assert forall o, f: nat :: !Owns(slots, fr.tokens, o, f);
    assert forall f :: f !in fr.live;
  }

  lemma {:induction false} NoneActive(slots: seq<Slot>)
    requires Count(slots, Active) == 0
    ensures forall i :: 0 <= i < |slots| ==> !Live(slots[i])
  {
    if slots != [] {
      var n := |slots| - 1;
      NoneActive(slots[..n]);
      assert forall i :: 0 <= i < n ==> slots[..n][i] == slots[i];
    }
  }
}
