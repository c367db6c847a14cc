/** The part of the push handler that waits for the verdict on the request it has submitted. */
module PushHandler {
  import opened Dto
  import opened LabelSpec
  import opened GroupingKey
  import opened StoreSpec
  import opened StoreHeap
  import opened StoreRuns
  import opened Acceptance
  import opened DiskStore
  import opened Serving
  import opened Queue
  import opened LoopRecord
  import opened StoreLoop

  const STATUS_OK := 200
  const STATUS_ACCEPTED := 202
  const STATUS_BAD_REQUEST := 400

  /** What a reader takes from a channel before the close. */
  function BeforeClose(events: seq<DoneEvent>): seq<DoneEvent> {
    if events == [] || events[0] == Closed then [] else [events[0]] + BeforeClose(events[1..])
  }

  lemma BeforeCloseStep(events: seq<DoneEvent>, i: nat)
    requires i <= |events|
    ensures BeforeClose(events[i..])
            == if i == |events| || events[i] == Closed then [] else [events[i]] + BeforeClose(events[i + 1..])
  {
    if i < |events| { assert events[i..][0] == events[i] && events[i..][1..] == events[i + 1..]; }
  }

  /** Ranges over the channel: takes errors until the close. Without a close it never returns. */
  method AwaitDone(events: seq<DoneEvent>) returns (errReceived: bool, returned: bool)
    ensures returned <==> Closed in events
    ensures errReceived <==> BeforeClose(events) != []
  {
    hide BeforeClose;
    errReceived, returned := false, false;
    var i := 0;
    assert events[0..] == events;
    while i < |events| && !returned
      invariant i <= |events|
      invariant returned ==> Closed in events && (errReceived <==> BeforeClose(events) != [])
      invariant !returned ==> Closed !in events[..i] && (errReceived <==> i > 0)
      invariant !returned ==> BeforeClose(events) == events[..i] + BeforeClose(events[i..])
      decreases |events| - i, !returned
    {
      BeforeCloseStep(events, i);
      if events[i] == Closed {
        returned := true;
      } else {
        errReceived := true;
        i := i + 1;
      }
    }
    BeforeCloseStep(events, i);
  }

  /** A consistent store whose groups have their own gauges. */
  ghost predicate WellKept(own: OwnMetrics, s: Store<Family>) {
    Consistent(own, s) && OwnGauges(s) && KeepsReservedNames(own)
  }

  lemma PushWelcome(loop: Loop, i: nat)
    requires loop.Valid() && i < |loop.processed| && i < |loop.received|
    ensures var own, s, w := loop.config.own, Fold(loop.config.own, loop.config.restored, loop.processed[..i]), loop.processed[i];
            var wr := loop.received[i].wr;
            && Means(wr, loop.received[i].raw, w)
            && (wr.families != null ==> w.Push? && w.labels == wr.labels && w.replace == wr.replace)
            && (wr.families != null && wr.done != null && WellKept(own, s) && CleanLabels(w.labels)
                && "push_failure_time_seconds" !in w.families ==>
                  (AcceptedAt(own, loop.config.restored, loop.processed, i) <==> Welcome(own, s, w.labels, w.families)))
  {
    hide Fold, Loop.Valid, Welcome, Consistent, OwnGauges, KeepsReservedNames, CleanLabels, Accepts, DeepOf, ShallowOf, ValuesOf,
         Sane;
    loop.LoopIsSafe();
    var own, s, w := loop.config.own, Fold(loop.config.own, loop.config.restored, loop.processed[..i]), loop.processed[i];
    if w.Push? && w.checked && WellKept(own, s) && CleanLabels(w.labels) && "push_failure_time_seconds" !in w.families {
      WelcomePushIsAccepted(own, s, w.labels, w.timestamp, w.families, w.replace);
    }
  }

  /** What the handler of a push knows at some moment after it has submitted its request, whatever has
      happened to the queue in between. Without a channel the push is accepted unseen. With one, the
      handler has returned exactly if the request is among the first `closed`, those processed before
      the drain; and then it has reported an error exactly if the store, as it was after all requests
      before this one, does not accept it. On a well kept store it accepts exactly the pushes that are
      welcome. */
  method Answer(loop: Loop, wr: WriteRequest, ghost i: nat) returns (status: int, returned: bool)
    requires loop.Valid() && i < |loop.received| && loop.received[i].wr == wr
    ensures loop.closed <= |loop.processed|
    ensures loop.mode.AtHead? || loop.mode.InHand? ==> loop.closed == |loop.processed|
    ensures returned <==> wr.done == null || i < loop.closed
    ensures returned ==>
              status == if wr.done == null then 202
                        else if AcceptedAt(loop.config.own, loop.config.restored, loop.processed, i) then 200
                        else 400
    ensures returned && wr.done != null && wr.families != null ==>
              var own, s, w := loop.config.own, Fold(loop.config.own, loop.config.restored, loop.processed[..i]), loop.processed[i];
              && w.Push? && w.labels == wr.labels && w.replace == wr.replace && Means(wr, loop.received[i].raw, w)
              && (WellKept(own, s) && CleanLabels(w.labels) && "push_failure_time_seconds" !in w.families ==>
                    (status == 200 <==> Welcome(own, s, w.labels, w.families)))
  {
    hide AcceptedAt, Fold, Loop.Valid, WellKept, Welcome, Means, CleanLabels;
    loop.ToldAs(i);
    if i < loop.closed { PushWelcome(loop, i); }
    if wr.done == null {
      return STATUS_ACCEPTED, true;
    }
    var errReceived;
    errReceived, returned := AwaitDone(wr.done.events);
    status := if errReceived then STATUS_BAD_REQUEST else STATUS_OK;
  }
}
