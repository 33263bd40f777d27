/** `CommandObject`: one command allocator and one command list, reused for
    every `storeCommand`. The calls the object makes on its list are kept as a
    log, and a small state machine says which calls a list accepts. */
module Commands {
  import opened Wrappers

  /** A GPU operation recorded by the caller's callback; its meaning is opaque. */
  datatype GpuCommand = GpuCommand(code: nat)

  /** The `ID3D12GraphicsCommandList` calls `storeCommand` makes, in order. */
  datatype ListCall = Reset | Record(commands: seq<GpuCommand>) | Close

  /** The calls of one `storeCommand(f)`: `Reset` first only if the list was
      closed, then the callback's recording, then `Close`. */
  function StoreCalls(wasClosed: bool, commands: seq<GpuCommand>): (calls: seq<ListCall>)
    ensures |calls| == (if wasClosed then 3 else 2) && calls[|calls| - 1] == Close
    ensures calls[|calls| - 2] == Record(commands) && (wasClosed <==> calls[0] == Reset)
  {
    (if wasClosed then [Reset] else []) + [Record(commands), Close]
  }

  /** The list protocol: a closed list accepts only `Reset`, an open one accepts
      recording and `Close`. Returns whether the list ends closed, or `None`
      if a call is made in the wrong state. */
  function ListStateAfter(closed: bool, calls: seq<ListCall>): (r: Option<bool>)
    decreases |calls|
  {
    if calls == [] then Some(closed)
    else
      match calls[0]
      case Reset => if closed then ListStateAfter(false, calls[1..]) else None
      case Record(_) => if closed then None else ListStateAfter(false, calls[1..])
      case Close => if closed then None else ListStateAfter(true, calls[1..])
  }

  /** The calls `storeCommand` makes over a sequence of invocations, starting
      from the open list `CreateCommandList` returns. */
  function SessionCalls(invocations: seq<seq<GpuCommand>>): seq<ListCall>
    decreases |invocations|
  {
    if invocations == [] then []
    else SessionCalls(invocations[..|invocations| - 1]) + StoreCalls(|invocations| > 1, invocations[|invocations| - 1])
  }

  function CountResets(calls: seq<ListCall>): nat
    decreases |calls|
  {
    if calls == [] then 0 else (if calls[0] == Reset then 1 else 0) + CountResets(calls[1..])
  }

  lemma {:induction false} StateAfterAppend(closed: bool, a: seq<ListCall>, b: seq<ListCall>)
    ensures ListStateAfter(closed, a + b) ==
              match ListStateAfter(closed, a)
              case None => None
              case Some(c) => ListStateAfter(c, b)
    decreases |a|
  {
    if a == [] {
      assert a + b == b;
    } else {
      assert (a + b)[0] == a[0] && (a + b)[1..] == a[1..] + b;
      StateAfterAppend(false, a[1..], b);
      StateAfterAppend(true, a[1..], b);
    }
  }

  lemma {:induction false} CountResetsAppend(a: seq<ListCall>, b: seq<ListCall>)
    ensures CountResets(a + b) == CountResets(a) + CountResets(b)
    decreases |a|
  {
    if a == [] {
      assert a + b == b;
    } else {
      assert (a + b)[0] == a[0] && (a + b)[1..] == a[1..] + b;
      CountResetsAppend(a[1..], b);
    }
  }

  /** One `storeCommand` respects the protocol from either state and leaves the list closed. */
  lemma StoreCallsLegal(wasClosed: bool, commands: seq<GpuCommand>)
    ensures ListStateAfter(wasClosed, StoreCalls(wasClosed, commands)) == Some(true)
    ensures CountResets(StoreCalls(wasClosed, commands)) == if wasClosed then 1 else 0
  {
    var tail := [Record(commands), Close];
    assert ListStateAfter(false, tail) == Some(true) by {
      assert tail[1..] == [Close];
      assert [Close][1..] == [];
    }
    assert CountResets(tail) == 0 by {
      assert tail[1..] == [Close];
      assert [Close][1..] == [];
    }
    if wasClosed {
      assert StoreCalls(wasClosed, commands) == [Reset] + tail;
      assert ([Reset] + tail)[1..] == tail;
    } else {
      assert StoreCalls(wasClosed, commands) == tail;
    }
  }

  /** Every session of `storeCommand` calls is legal for the list: it is never
      recorded into while closed, never reset while open, never closed twice;
      after at least one call it is closed, and it was reset on every call but
      the first. */
  lemma {:induction false} SessionLegal(invocations: seq<seq<GpuCommand>>)
    ensures ListStateAfter(false, SessionCalls(invocations)) == Some(invocations != [])
    ensures CountResets(SessionCalls(invocations)) == if invocations == [] then 0 else |invocations| - 1
    decreases |invocations|
  {
    if invocations != [] {
      var init := invocations[..|invocations| - 1];
      var last := invocations[|invocations| - 1];
      SessionLegal(init);
      StoreCallsLegal(|invocations| > 1, last);
      StateAfterAppend(false, SessionCalls(init), StoreCalls(|invocations| > 1, last));
      CountResetsAppend(SessionCalls(init), StoreCalls(|invocations| > 1, last));
    }
  }

  class CommandObject {
    /** `_isClosed`; a freshly created command list is open. */
    var isClosed: bool
    /** The calls made on `_list` so far. */
    var calls: seq<ListCall>
    /** The recordings passed to `storeCommand` so far. */
    ghost var invocations: seq<seq<GpuCommand>>

    ghost predicate Valid()
      reads this
    {
      calls == SessionCalls(invocations) && isClosed == (invocations != [])
    }

    constructor ()
      ensures Valid() && !isClosed && calls == [] && invocations == []
    {
      isClosed := false;
      calls := [];
      invocations := [];
    }

    /** `storeCommand(f)`: reset the list only if it was closed, record, close. */
    method StoreCommand(commands: seq<GpuCommand>)
      requires Valid()
      modifies this
      ensures Valid() && isClosed
      ensures invocations == old(invocations) + [commands]
      ensures calls == old(calls) + StoreCalls(old(isClosed), commands)
      ensures (Reset in calls[|old(calls)|..]) <==> old(isClosed)
    {
      if isClosed {
        calls := calls + [Reset];
      }
      calls := calls + [Record(commands)];
      calls := calls + [Close];
      isClosed := true;
      invocations := invocations + [commands];
      assert invocations[..|invocations| - 1] == old(invocations);
    }
  }

  /** What the object's log means: every call it made was legal, the list is
      closed once anything was stored, and it was reset once per call after
      the first. */
  lemma CommandObjectLogLegal(c: CommandObject)
    requires c.Valid()
    ensures ListStateAfter(false, c.calls) == Some(c.isClosed)
    ensures CountResets(c.calls) == if c.invocations == [] then 0 else |c.invocations| - 1
  {
    SessionLegal(c.invocations);
  }
}
