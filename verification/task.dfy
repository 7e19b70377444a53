/**
 Tasks and awaiters as ownership tokens for coroutine frames. Frames hold Task objects themselves (the
 by-value parameters of a coroutine), so destroying a frame runs destructors that may destroy more
 frames; a Task may even live inside the frame it is assigned away from.
 */
module Tasks {
  import opened Wrappers

  class Task {
    var frame: Option<nat>

    constructor ()
      ensures frame == None
    {
      frame := None;
    }
  }

  /** `co_await` of a Task owns the child frame through `child` until it is handed to the scheduler. */
  class TaskAwaiter {
    const child: Task
    const wasEmpty: bool

    constructor (child: Task, wasEmpty: bool)
      ensures this.child == child && this.wasEmpty == wasEmpty
    {
      this.child, this.wasEmpty := child, wasEmpty;
    }
  }

  /** What came of an await: the error, a frame handed over, or a null handle handed over. */
  datatype Awaited = Reported | Handed(frame: nat) | HandedNull

  class FrameHeap {
    var live: set<nat>                  // allocated frames
    var made: nat                       // the next frame's identity
    var contents: map<nat, seq<Task>>   // the Task objects inside a frame
    var destroyed: seq<nat>
    var taken: set<nat>                 // owned by scheduler slots
    ghost var destroying: set<nat>      // detached from their owner, destructors running
    ghost var tasks: set<Task>

    constructor ()
      ensures Valid() && live == {} && tasks == {} && fresh(this) && taken == {} && destroying == {}
    {
      live, made, contents, destroyed, taken, destroying, tasks := {}, 0, map[], [], {}, {}, {};
    }

    /** The frame has exactly one owner: a Task, a slot, or the destruction that is under way. */
    ghost predicate OwnedOnce()
      reads this, tasks
    {
      && (forall t :: t in tasks && t.frame.Some? ==> t.frame.value in live - taken - destroying)
      && (forall t, u :: t in tasks && u in tasks && t.frame.Some? && t.frame == u.frame ==> t == u)
      && (forall f :: f in live ==> f in taken || f in destroying || exists t :: t in tasks && t.frame == Some(f))
      && taken <= live && destroying <= live && taken !! destroying
    }

    /** Every frame ever made is alive, or was destroyed once. */
    ghost predicate DestroyedOnce()
      reads this
    {
      && (forall i, j :: 0 <= i < j < |destroyed| ==> destroyed[i] != destroyed[j])
      && (forall f: nat :: f < made <==> f in live || f in destroyed)
      && (forall f :: f in destroyed ==> f !in live)
    }

    ghost predicate ContentsKnown()
      reads this`live, this`contents, this`tasks
    {
      forall f :: f in live ==> f in contents && forall t :: t in contents[f] ==> t in tasks
    }

    ghost predicate Valid()
      reads this, tasks
    {
      OwnedOnce() && DestroyedOnce() && ContentsKnown()
    }

    /** Destruction that starts in `region` stays in it. */
    ghost predicate Closed(region: set<nat>)
      reads this`contents, this`tasks, tasks
    {
      forall f, t :: f in region && f in contents && t in contents[f] && t in tasks && t.frame.Some? ==> t.frame.value in region
    }

    predicate Inside(t: Task, region: set<nat>)
      reads this`contents
    {
      exists f :: f in region && f in contents && t in contents[f]
    }

    /**
     What a destruction within `region` does and leaves alone: it destroys frames of the region only,
     empties the Tasks `reset` and Tasks inside the region only, and all Tasks inside what it destroys.
     */
    twostate predicate Cascade(region: set<nat>, reset: set<Task>)
      reads this, tasks
    {
      && tasks == old(tasks) && contents == old(contents) && taken == old(taken) && made == old(made)
      && live <= old(live) && old(live) - live <= region && old(destroyed) <= destroyed
      && (forall t :: t in old(tasks) ==> t.frame == old(t.frame) || (t.frame == None && (t in reset || Inside(t, region))))
      && (forall f, t :: f in old(live) - live && f in contents && t in contents[f] && t in old(tasks) ==> t.frame == None)
    }

    // ----- destruction -------------------------------------------------------------------------------

    /** A Task gives its frame up before the frame is destroyed. */
    method Detach(t: Task) returns (h: nat)
      requires Valid() && t in tasks && t.frame.Some?
      modifies t`frame, this`destroying
      ensures Valid() && t.frame == None && destroying == old(destroying) + {old(t.frame).value}
      ensures h == old(t.frame.value) && h in live && h !in old(destroying)
    {
      h := t.frame.value;
      t.frame := None;
      destroying := destroying + {h};
    }

    /** `destroy()` of a detached frame: the destructors of what is inside run, then it is deallocated. */
    method Destroy(f: nat, ghost region: set<nat>)
      requires Valid() && f in destroying && f in region && Closed(region)
      modifies this`live, this`destroyed, this`destroying, tasks`frame
      ensures Valid() && destroying == old(destroying) - {f} && f !in live && Closed(region)
      ensures Cascade(region, {})
      decreases |live - destroying|, 2
    {
      hide OwnedOnce, DestroyedOnce, ContentsKnown, Closed;
      LiveFacts();
      ResetInside(f, region);
      Deallocate(f);
    }

    lemma LiveFacts()
      requires Valid()
      ensures destroying <= live && (forall f :: f in live ==> f in contents)
      ensures forall f, t :: f in live && t in contents[f] ==> t in tasks
    {
    }

    lemma ClosedAt(region: set<nat>, f: nat)
      requires Closed(region) && f in region && f in contents
      ensures forall t :: t in contents[f] && t in tasks && t.frame.Some? ==> t.frame.value in region
    {
    }

    /** The destructors of the Tasks inside a frame. */
    method ResetInside(f: nat, ghost region: set<nat>)
      requires Valid() && f in destroying && f in region && f in contents && Closed(region)
      modifies this`live, this`destroyed, this`destroying, tasks`frame
      ensures Valid() && destroying == old(destroying) && Closed(region) && Cascade(region, {})
      ensures forall t :: t in contents[f] ==> t.frame == None
      decreases |live - destroying|, 1
    {
      hide OwnedOnce, DestroyedOnce, ContentsKnown, Closed;
      LiveFacts();
      var cs := contents[f];
      var i := |cs|;
      while i > 0
        invariant 0 <= i <= |cs| && Valid() && destroying == old(destroying) && Closed(region)
        invariant Cascade(region, {})
        invariant forall k :: i <= k < |cs| ==> cs[k].frame == None
      {
        i := i - 1;
        Fewer(live - destroying, old(live - destroying));
        ClosedAt(region, f);
        Reset(cs[i], region);
        assert Inside(cs[i], region);
      }
    }

    method Deallocate(f: nat)
      requires Valid() && f in destroying
      modifies this`live, this`destroyed, this`destroying
      ensures Valid() && live == old(live) - {f} && destroyed == old(destroyed) + [f] && destroying == old(destroying) - {f}
    {
      live, destroyed, destroying := live - {f}, destroyed + [f], destroying - {f};
    }

    /** `reset()` and the destructor of a Task: detached first, so the frame is destroyed once. */
    method Reset(t: Task, ghost region: set<nat>)
      requires Valid() && t in tasks && Closed(region) && (t.frame.Some? ==> t.frame.value in region)
      modifies this`live, this`destroyed, this`destroying, tasks`frame
      ensures Valid() && destroying == old(destroying) && t.frame == None && Closed(region)
      ensures Cascade(region, {t})
      ensures old(t.frame) == None ==> live == old(live)
      ensures old(t.frame).Some? ==> old(t.frame).value !in live
      decreases |live - destroying|, 0
    {
      hide OwnedOnce, DestroyedOnce, ContentsKnown;
      if t.frame == None {
        return;
      }
      var h := Detach(t);
      FewerThan(live - destroying, old(live - destroying), h);
      Destroy(h, region);
    }

    // ----- tokens --------------------------------------------------------------------------------------

    /** An empty Task. */
    method Empty() returns (t: Task)
      requires Valid()
      modifies this`tasks
      ensures Valid() && fresh(t) && t.frame == None && tasks == old(tasks) + {t}
    {
      t := new Task();
      tasks := tasks + {t};
    }

    /** A Task-returning function is called with `params` inside its frame; nothing runs yet. */
    method Create(params: seq<Task>, exhausted: bool) returns (t: Task)
      requires Valid() && forall p :: p in params ==> p in tasks
      modifies this`tasks, this`live, this`made, this`contents
      ensures Valid() && fresh(t) && tasks == old(tasks) + {t}
      ensures exhausted ==> t.frame == None && live == old(live) && contents == old(contents) && made == old(made)
      ensures !exhausted ==> t.frame == Some(old(made)) && old(made) !in old(live) && live == old(live) + {old(made)}
                             && contents == old(contents)[old(made) := params]
    {
      hide OwnedOnce, DestroyedOnce, ContentsKnown;
      t := Empty();
      if !exhausted {
        Allocate(t, params);
      }
    }

    method Allocate(t: Task, params: seq<Task>)
      requires Valid() && t in tasks && t.frame == None && forall p :: p in params ==> p in tasks
      modifies t`frame, this`live, this`made, this`contents
      ensures Valid() && t.frame == Some(old(made)) && old(made) !in old(live) && made == old(made) + 1
      ensures live == old(live) + {old(made)} && contents == old(contents)[old(made) := params]
    {
      t.frame := Some(made);
      live, contents, made := live + {made}, contents[made := params], made + 1;
    }

    /** Move construction: the source is left empty. */
    method MoveConstruct(src: Task) returns (t: Task)
      requires Valid() && src in tasks
      modifies this`tasks, src`frame
      ensures Valid() && fresh(t) && tasks == old(tasks) + {t}
      ensures t.frame == old(src.frame) && src.frame == None
    {
      hide OwnedOnce, DestroyedOnce, ContentsKnown;
      t := Empty();
      Hand(t, src);
    }

    /**
     Move assignment. The source may live inside the frame that `dst` owned: its work is not lost, for it
     is emptied before that frame goes. A destination that lives inside that frame itself ends with it.
     */
    method MoveAssign(dst: Task, src: Task, ghost region: set<nat>)
      requires Valid() && dst in tasks && src in tasks
      requires dst != src ==> ClosedAfter(region, dst, src)
      requires dst.frame.Some? ==> dst.frame.value in region
      modifies this`live, this`destroyed, this`destroying, tasks`frame
      ensures Valid() && destroying == old(destroying)
      ensures dst == src ==> live == old(live) && forall t :: t in tasks ==> t.frame == old(t.frame)
      ensures dst != src ==> src.frame == None
      ensures dst != src ==> dst.frame == old(src.frame) || (dst.frame == None && Inside(dst, region))
      ensures dst != src && old(dst.frame).Some? ==> old(dst.frame).value !in live && old(live) - live <= region
      ensures old(dst.frame) == None ==> live == old(live) && (dst != src ==> dst.frame == old(src.frame))
      ensures old(src.frame).Some? && !Inside(dst, region) ==> old(src.frame).value in live
      ensures forall t :: t in tasks - {src, dst} ==> t.frame == old(t.frame) || (t.frame == None && Inside(t, region))
    {
      hide OwnedOnce, DestroyedOnce, ContentsKnown;
      OwnedLive(dst);
      if dst == src {
        return;
      }
      var previous := dst.frame;
      if previous.Some? {
        var h := Detach(dst);
        Hand(dst, src);
        Destroy(h, region);
      } else {
        Hand(dst, src);
      }
      OwnedLive(dst);
    }

    lemma OwnedLive(t: Task)
      requires Valid() && t in tasks
      ensures t.frame.Some? ==> t.frame.value in live
    {
    }

    /** The token passes to an empty Task. */
    method Hand(dst: Task, src: Task)
      requires Valid() && dst in tasks && src in tasks && dst != src && dst.frame == None
      modifies dst`frame, src`frame
      ensures Valid() && dst.frame == old(src.frame) && src.frame == None
    {
      dst.frame := src.frame;
      src.frame := None;
    }

    /** `region` is closed once `dst` owns what `src` owns now and `src` owns nothing. */
    ghost predicate ClosedAfter(region: set<nat>, dst: Task, src: Task)
      reads this`contents, this`tasks, tasks, src
    {
      forall f, t :: f in region && f in contents && t in contents[f] && t in tasks && t != src ==>
                       var frame := if t == dst then src.frame else t.frame;
                       frame.Some? ==> frame.value in region
    }

    // ----- scheduler and awaiters ----------------------------------------------------------------------

    /** `take_frame`: a slot becomes the owner. */
    method TakeFrame(t: Task) returns (f: Option<nat>)
      requires Valid() && t in tasks
      modifies t`frame, this`taken
      ensures Valid() && f == old(t.frame) && t.frame == None
      ensures taken == if f.Some? then old(taken) + {f.value} else old(taken)
    {
      f := t.frame;
      t.frame := None;
      if f.Some? {
        taken := taken + {f.value};
      }
    }

    /** A slot's coroutine is done, or the scheduler is torn down: the slot detaches its frame and destroys it. */
    method Release(f: nat, ghost region: set<nat>)
      requires Valid() && f in taken && f in region && Closed(region)
      modifies this`live, this`destroyed, this`destroying, this`taken, tasks`frame
      ensures Valid() && destroying == old(destroying) && taken == old(taken) - {f} && f !in live
      ensures old(live) - live <= region
      ensures forall t :: t in tasks ==> t.frame == old(t.frame) || (t.frame == None && Inside(t, region))
    {
      hide OwnedOnce, DestroyedOnce, ContentsKnown;
      DetachSlot(f);
      Destroy(f, region);
    }

    method DetachSlot(f: nat)
      requires Valid() && f in taken
      modifies this`destroying, this`taken
      ensures Valid() && destroying == old(destroying) + {f} && taken == old(taken) - {f} && f !in old(destroying)
    {
      destroying, taken := destroying + {f}, taken - {f};
    }

    /** `operator co_await`: the Task is consumed, the awaiter owns the frame. */
    method CoAwait(t: Task) returns (a: TaskAwaiter)
      requires Valid() && t in tasks
      modifies this`tasks, t`frame
      ensures Valid() && fresh(a) && fresh(a.child) && tasks == old(tasks) + {a.child}
      ensures a.child.frame == old(t.frame) && t.frame == None && a.wasEmpty == (old(t.frame) == None)
    {
      var wasEmpty := t.frame == None;
      var child := MoveConstruct(t);
      a := new TaskAwaiter(child, wasEmpty);
    }

    method MoveAwaiter(other: TaskAwaiter) returns (a: TaskAwaiter)
      requires Valid() && other.child in tasks
      modifies this`tasks, other.child`frame
      ensures Valid() && fresh(a) && fresh(a.child) && tasks == old(tasks) + {a.child}
      ensures a.child.frame == old(other.child.frame) && other.child.frame == None && a.wasEmpty == other.wasEmpty
    {
      var child := MoveConstruct(other.child);
      a := new TaskAwaiter(child, other.wasEmpty);
    }

    /** `await_ready` of an awaiter: true if it was made from an empty Task. */
    method AwaitReady(a: TaskAwaiter) returns (ready: bool)
      ensures ready == a.wasEmpty
    {
      ready := a.wasEmpty;
    }

    /**
     `await_suspend`: whatever the awaiter owns is handed over, a null handle if it owns nothing; `adopts`
     is the scheduler's answer. A child that is not adopted is destroyed, so no later destructor of the
     awaiter can do so again.
     */
    method AwaitSuspend(a: TaskAwaiter, adopts: bool, ghost region: set<nat>) returns (handed: Option<nat>)
      requires Valid() && a.child in tasks
      requires !adopts && a.child.frame.Some? ==> Closed(region) && a.child.frame.value in region
      modifies this`live, this`destroyed, this`destroying, this`taken, tasks`frame
      ensures Valid() && destroying == old(destroying) && handed == old(a.child.frame) && a.child.frame == None
      ensures handed == None ==> taken == old(taken) && live == old(live) && destroyed == old(destroyed)
      ensures handed.Some? && adopts ==> taken == old(taken) + {handed.value} && live == old(live)
      ensures handed.Some? && !adopts ==> taken == old(taken) && handed.value !in live && old(live) - live <= region
      ensures forall t :: t in tasks && t != a.child ==>
                t.frame == old(t.frame) || (handed.Some? && !adopts && t.frame == None && Inside(t, region))
    {
      hide OwnedOnce, DestroyedOnce, ContentsKnown;
      handed := a.child.frame;
      if handed == None {
        return;
      }
      if adopts {
        var f := TakeFrame(a.child);
      } else {
        var h := Detach(a.child);
        Destroy(h, region);
      }
    }

    /**
     The whole await. An awaiter that owns nothing is reported, and hands nothing over, if and only if it
     was made from an empty Task; one that lost its frame to a move or an earlier await hands a null
     handle to the scheduler.
     */
    method Await(a: TaskAwaiter, adopts: bool, ghost region: set<nat>) returns (outcome: Awaited)
      requires Valid() && a.child in tasks
      requires !adopts && a.child.frame.Some? ==> Closed(region) && a.child.frame.value in region
      modifies this`live, this`destroyed, this`destroying, this`taken, tasks`frame
      ensures Valid() && destroying == old(destroying)
      ensures old(a.child.frame) == None ==> (outcome == Reported <==> a.wasEmpty) && (outcome == HandedNull <==> !a.wasEmpty)
      ensures old(a.child.frame) == None ==> taken == old(taken) && live == old(live)
      ensures old(a.child.frame).Some? && !a.wasEmpty ==>
                outcome == Handed(old(a.child.frame).value) && a.child.frame == None && (old(a.child.frame).value in taken <==> adopts)
    {
      hide OwnedOnce, DestroyedOnce, ContentsKnown;
      var ready := AwaitReady(a);
      if ready {
        return Reported;
      }
      NotTaken(a.child);
      var handed := AwaitSuspend(a, adopts, region);
      outcome := if handed.Some? then Handed(handed.value) else HandedNull;
    }

    lemma NotTaken(t: Task)
      requires Valid() && t in tasks
      ensures t.frame.Some? ==> t.frame.value !in taken
    {
    }

    /** With no owning Task or awaiter and no slot owning a frame, every frame was destroyed, once. */
    lemma NoOwnerNoFrame()
      requires Valid() && taken == {} && destroying == {} && forall t :: t in tasks ==> t.frame == None
      ensures live == {} && forall f: nat :: f < made <==> f in destroyed
    {
      assert forall f :: f !in live;
    }
  }

  lemma FewerThan(a: set<nat>, b: set<nat>, x: nat)
    requires a <= b - {x} && x in b
    ensures |a| < |b|
  {
    Fewer(a, b - {x});
  }

  lemma Fewer(a: set<nat>, b: set<nat>)
    requires a <= b
    ensures |a| <= |b|
  {
    if a != {} {
      var x :| x in a;
      Fewer(a - {x}, b - {x});
    }
  }
}
