/** Intrusive lists threaded through one shared `next` link per slot. */
module SchedulerLinks {
  import opened Wrappers
  import opened SchedulerCore

  type Links = seq<Option<nat>>

  /** Following the links from `head` visits exactly `members` and ends at `tail`. */
  ghost predicate ListOf(next: Links, members: seq<nat>, head: Option<nat>, tail: Option<nat>) {
    && Distinct(members)
    && (forall k :: 0 <= k < |members| ==> members[k] < |next|)
    && head == (if members == [] then None else Some(members[0]))
    && tail == (if members == [] then None else Some(members[|members| - 1]))
    && (forall k {:trigger next[members[k]]} :: 0 <= k < |members| - 1 ==> next[members[k]] == Some(members[k + 1]))
    && (members != [] ==> next[members[|members| - 1]] == None)
  }

  /** The links after `push_back` of slot `i`. */
  function LinkLast(next: Links, tail: Option<nat>, i: nat): Links
    requires i < |next| && (tail.Some? ==> tail.value < |next|)
  {
    if tail == None then next[i := None] else next[i := None][tail.value := Some(i)]
  }

  lemma PushList(next: Links, members: seq<nat>, head: Option<nat>, tail: Option<nat>, i: nat)
    requires ListOf(next, members, head, tail) && i < |next| && i !in members
    ensures ListOf(LinkLast(next, tail, i), members + [i], if head == None then Some(i) else head, Some(i))
  {
    var m := members + [i];
    var next' := LinkLast(next, tail, i);
    forall k | 0 <= k < |m| - 1
      ensures next'[m[k]] == Some(m[k + 1])
    {
      assert members[k] in members;
    }
  }

  /** A list that shares no slot with the two changed links stays as it is. */
  lemma OtherList(next: Links, tail: Option<nat>, i: nat, members: seq<nat>, head: Option<nat>, last: Option<nat>)
    requires ListOf(next, members, head, last) && i < |next| && i !in members
    requires tail.Some? ==> tail.value < |next| && tail.value !in members
    ensures ListOf(LinkLast(next, tail, i), members, head, last)
  {
    var next' := LinkLast(next, tail, i);
    assert forall k :: 0 <= k < |members| ==> members[k] in members && next'[members[k]] == next[members[k]];
  }

  lemma PopList(next: Links, members: seq<nat>, head: Option<nat>, tail: Option<nat>)
    requires ListOf(next, members, head, tail) && members != []
    ensures members[0] < |next|
    ensures next[members[0]] == if |members| == 1 then None else Some(members[1])
    ensures var rest := next[members[0]];
            ListOf(next[members[0] := None], members[1..], rest, if rest == None then None else tail)
  {
    var m, next' := members[1..], next[members[0] := None];
    forall k | 0 <= k < |m|
      ensures next'[m[k]] == next[members[k + 1]]
    {
    }
  }

  lemma UntouchedList(next: Links, i: nat, members: seq<nat>, head: Option<nat>, tail: Option<nat>)
    requires ListOf(next, members, head, tail) && i < |next| && i !in members
    ensures ListOf(next[i := None], members, head, tail)
  {
    OtherList(next, None, i, members, head, tail);
  }
}
