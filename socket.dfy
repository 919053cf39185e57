/** The log broadcaster behind the web socket: it counts connected clients, keeps at most
    one broadcast worker, and the worker, while clients are connected, polls the id of the
    newest log record and emits a `new_logs` event whenever that id differs from the one
    seen before. */
module Socket {
  import opened Wrappers

  /** The event `('new_logs', {'last_logid': id})`. */
  datatype Event = NewLogs(lastLogId: Option<int>)

  /** One pass of the worker loop as it happens: the client count the loop condition sees
      (other handlers change it meanwhile) and the newest log id the query returns. */
  datatype Poll = Poll(clients: int, lastLogId: Option<int>)

  /** The number of passes the loop makes: it stops at the first count that is not positive
      (or when the observed run ends). */
  function RunLength(polls: seq<Poll>): (n: nat)
    ensures n <= |polls|
    ensures forall k :: 0 <= k < n ==> polls[k].clients > 0
    ensures n < |polls| ==> polls[n].clients <= 0
  {
    if polls == [] || polls[0].clients <= 0 then 0 else 1 + RunLength(polls[1..])
  }

  function Readings(polls: seq<Poll>): (rs: seq<Option<int>>)
    ensures |rs| == |polls|
    ensures forall k :: 0 <= k < |polls| ==> rs[k] == polls[k].lastLogId
  {
    seq(|polls|, k requires 0 <= k < |polls| => polls[k].lastLogId)
  }

  /** The remembered id after the readings `rs`: the last one, or `None` before the first. */
  function LastSeen(rs: seq<Option<int>>): Option<int>
  {
    if rs == [] then None else rs[|rs| - 1]
  }

  /** The events emitted over the readings `rs`, one for each reading that differs from
      the one remembered before it: so each event differs from the one before it, the first
      never carries `None`, and the last carries the last reading. */
  function LogEvents(rs: seq<Option<int>>): (es: seq<Event>)
    ensures es != [] ==> es[0].lastLogId != None
    ensures forall k :: 0 < k < |es| ==> es[k] != es[k - 1]
    ensures es != [] ==> es[|es| - 1].lastLogId == LastSeen(rs)
    ensures es == [] ==> LastSeen(rs) == None
  {
    if rs == [] then []
    else
      var before := rs[..|rs| - 1];
      LogEvents(before) + (if rs[|rs| - 1] != LastSeen(before) then [NewLogs(rs[|rs| - 1])] else [])
  }

  class LogBroadcaster {
    var clients: int
    /** Whether a broadcast worker is recorded. */
    var worker: bool

    /** A new broadcaster has no clients and no worker. */
    constructor ()
      ensures clients == 0 && !worker
    {
      clients := 0;
      worker := false;
    }

    /** Starts a worker only when none is recorded; `spawned` tells whether it did. */
    method StartBroadcasts() returns (spawned: bool)
      modifies this
      ensures spawned <==> !old(worker)
      ensures worker
      ensures clients == old(clients)
    {
      spawned := !worker;
      if spawned {
        worker := true;
      }
    }

    method OnConnect() returns (spawned: bool)
      modifies this
      ensures clients == old(clients) + 1
      ensures worker
      ensures spawned <==> !old(worker)
    {
      clients := clients + 1;
      spawned := StartBroadcasts();
    }

    /** The count goes down by one, below zero if need be; the worker is left alone. */
    method OnDisconnect()
      modifies this
      ensures clients == old(clients) - 1
      ensures worker == old(worker)
    {
      clients := clients - 1;
    }

    /** The worker loop over the passes `polls`. `exited` tells whether the loop saw a count
        that is not positive; only then is the worker slot cleared. */
    method Broadcasts(polls: seq<Poll>) returns (events: seq<Event>, exited: bool)
      modifies this
      ensures events == LogEvents(Readings(polls[..RunLength(polls)]))
      ensures exited <==> RunLength(polls) < |polls|
      ensures worker == (old(worker) && !exited)
      ensures clients == old(clients)
    {
      var passes;
      events, passes := PollLoop(polls);
      exited := passes < |polls|;
      if exited {
        worker := false;
      }
    }
  }

  /** The passes of the worker loop: it goes on while the count is positive, and emits an
      event for each reading that differs from the remembered one. */
  method PollLoop(polls: seq<Poll>) returns (events: seq<Event>, passes: nat)
    ensures passes == RunLength(polls)
    ensures events == LogEvents(Readings(polls[..passes]))
  {
    var i := 0;
    var previous: Option<int> := None;
    events := [];
    ghost var seen: seq<Option<int>> := [];
    while i < |polls| && polls[i].clients > 0
      invariant 0 <= i <= |polls|
      invariant RunLength(polls) == i + RunLength(polls[i..])
      invariant seen == Readings(polls[..i])
      invariant events == LogEvents(seen)
      invariant previous == LastSeen(seen)
    {
      var last := polls[i].lastLogId;
      assert polls[i..][1..] == polls[i + 1..];
      ReadingStep(polls, i);
      LogEventsStep(seen, last);
      if last != previous {
        events := events + [NewLogs(last)];
        previous := last;
      }
      seen := seen + [last];
      i := i + 1;
    }
    passes := i;
  }

  /** One more pass adds its reading last. */
  lemma ReadingStep(polls: seq<Poll>, i: nat)
    requires i < |polls|
    ensures Readings(polls[..i + 1]) == Readings(polls[..i]) + [polls[i].lastLogId]
  {
  }

  /** One more reading emits an event exactly when it differs from the remembered one, and
      is then remembered. */
  lemma LogEventsStep(rs: seq<Option<int>>, r: Option<int>)
    ensures r != LastSeen(rs) ==> LogEvents(rs + [r]) == LogEvents(rs) + [NewLogs(r)]
    ensures r == LastSeen(rs) ==> LogEvents(rs + [r]) == LogEvents(rs)
    ensures LastSeen(rs + [r]) == r
  {
    assert (rs + [r])[..|rs|] == rs;
  }

  /** Nothing is emitted only when every reading is `None`. */
  lemma {:induction false} SilentIffNoLogs(rs: seq<Option<int>>)
    ensures LogEvents(rs) == [] <==> forall k :: 0 <= k < |rs| ==> rs[k] == None
  {
    if rs != [] {
      var before := rs[..|rs| - 1];
      SilentIffNoLogs(before);
      assert forall k :: 0 <= k < |before| ==> before[k] == rs[k];
    }
  }

  /** Readings that never change after the first emit one event, or none for `None`. */
  lemma ConstantReadings(v: Option<int>, n: nat)
    requires n > 0
    ensures LogEvents(seq(n, k => v)) == if v.Some? then [NewLogs(v)] else []
  {
    if n > 1 {
      assert seq(n, k => v)[..n - 1] == seq(n - 1, k => v);
      ConstantReadings(v, n - 1);
    } else {
      assert seq(n, k => v)[..0] == [];
    }
  }
}
