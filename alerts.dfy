/**
 * The new-donation alert queue: `alertQueue` with a single on-screen slot guarded by the
 * `checking` flag. `checkForAlerts` (a tick of the 2 s interval) puts the head on screen
 * and schedules a dismissal timeout; the timeout clears both flags and drops the head.
 * The timeout that the tick schedules is part of the state, so that it fires as an event.
 */
module Alerts {
  import opened Optional
  import opened Donors

  datatype Queue = Queue(
    pending: seq<Donor>,      // alertQueue; while checking, its head is on screen
    checking: bool,
    showAlert: bool,
    dismissal: Option<nat>,   // the scheduled dismissal timeout and its delay in ms
    plays: nat)               // how many times the donation sound has been started

  /** The queue as the page mounts it. */
  const Idle := Queue([], false, false, None, 0)

  /**
   * The queue's invariant: the alert box is shown exactly while a check is in progress,
   * exactly then a dismissal is scheduled, and then there is a head to show.
   */
  predicate Valid(q: Queue)
  {
    && q.showAlert == q.checking
    && q.dismissal.Some? == q.checking
    && (q.checking ==> |q.pending| > 0)
  }

  /** The alerts that still have to be put on screen, in the order they will appear. */
  function Waiting(q: Queue): seq<Donor>
    requires Valid(q)
  {
    if q.checking then q.pending[1..] else q.pending
  }

  /**
   * The alert box text, `alertQueue[0] ? alertQueue[0].name : ''`: the head of the queue,
   * nothing when the queue is empty; while the box is shown it is the alert being displayed.
   */
  function OnScreen(q: Queue): (r: Option<Donor>)
    ensures r.Some? <==> |q.pending| > 0
    ensures r.Some? ==> r.value == q.pending[0]
    ensures Valid(q) && q.showAlert ==> r == Some(q.pending[0])
  {
    if |q.pending| > 0 then Some(q.pending[0]) else None
  }

  /** Appending donors (new-donor diff, test alert): they join the end of the waiting line. */
  function Enqueue(q: Queue, ds: seq<Donor>): (r: Queue)
    requires Valid(q)
    ensures Valid(r)
    ensures r.pending == q.pending + ds
    ensures Waiting(r) == Waiting(q) + ds
    ensures r.checking == q.checking && r.showAlert == q.showAlert
    ensures r.dismissal == q.dismissal && r.plays == q.plays
  {
    var r := q.(pending := q.pending + ds);
    assert q.checking ==> (q.pending + ds)[1..] == q.pending[1..] + ds;
    r
  }

  /**
   * One run of `checkForAlerts`. It does nothing when the queue is empty, a check is in
   * progress, or `blocked` (the top-donor view of 006) holds; otherwise it sets `checking` and
   * `showAlert`, starts the sound when `audio` holds and schedules the dismissal after
   * `durationMs`. The second component is the alert put on screen, if any.
   */
  function Tick(q: Queue, blocked: bool, audio: bool, durationMs: nat): (r: (Queue, Option<Donor>))
    requires Valid(q)
    ensures Valid(r.0)
    ensures r.1.Some? <==> |q.pending| > 0 && !q.checking && !blocked
    ensures r.1.None? ==> r.0 == q
    ensures r.1.Some? ==> && r.1.value == q.pending[0]
                          && r.0.pending == q.pending
                          && r.0.checking && r.0.showAlert
                          && r.0.dismissal == Some(durationMs)
    ensures r.0.plays == q.plays + (if r.1.Some? && audio then 1 else 0)
    ensures Waiting(q) == ToSeq(r.1) + Waiting(r.0)
  {
    if |q.pending| == 0 || q.checking || blocked then
      (q, None)
    else
      var plays := if audio then q.plays + 1 else q.plays;
      (Queue(q.pending, true, true, Some(durationMs), plays), Some(q.pending[0]))
  }

  /**
   * The dismissal timeout firing: `showAlert` and `checking` are cleared and exactly the head
   * is dropped (`prev.slice(1)`), the rest kept in order. Without a scheduled timeout there is
   * nothing to fire.
   */
  function Dismiss(q: Queue): (r: Queue)
    requires Valid(q)
    ensures Valid(r)
    ensures q.dismissal.None? ==> r == q
    ensures q.dismissal.Some? ==> && r.pending == q.pending[1..]
                                  && !r.checking && !r.showAlert && r.dismissal.None?
    ensures Waiting(r) == Waiting(q)
    ensures r.plays == q.plays
  {
    if q.dismissal.None? then q
    else Queue(q.pending[1..], false, false, None, q.plays)
  }

  // ---------------------------------------------------------------------------------------
  // The interval effect as written on 002, 005 and live/alerts: its cleanup calls
  // `clearTimeout(checkForAlerts())`, which runs the callback of the render being left once
  // more. A tick that starts an alert changes `checking`, the callback is re-created, and the
  // cleanup re-runs the stale callback, whose captured state still allows a start.

  /** The queue with the number of dismissal timeouts pending, which the stale call can make two. */
  datatype RawQueue = RawQueue(pending: seq<Donor>, checking: bool, showAlert: bool, timers: nat, plays: nat)

  /** One call of the callback that captured `seen`, applied to the live state `live`. */
  function RawCheck(seen: RawQueue, live: RawQueue, audio: bool): (r: RawQueue)
    ensures |seen.pending| == 0 || seen.checking ==> r == live
    ensures |seen.pending| > 0 && !seen.checking ==>
              r == live.(checking := true, showAlert := true, timers := live.timers + 1,
                         plays := live.plays + (if audio then 1 else 0))
  {
    if |seen.pending| == 0 || seen.checking then live
    else live.(checking := true, showAlert := true, timers := live.timers + 1,
               plays := if audio then live.plays + 1 else live.plays)
  }

  /** A tick as written: the callback runs, and when it changed the state the cleanup runs it again. */
  function RawTick(q: RawQueue, audio: bool): (r: RawQueue)
    ensures |q.pending| == 0 || q.checking ==> r == q
    ensures |q.pending| > 0 && !q.checking ==>
              r == q.(checking := true, showAlert := true, timers := q.timers + 2,
                      plays := q.plays + (if audio then 2 else 0))
  {
    var q1 := RawCheck(q, q, audio);
    if q1 == q then q else RawCheck(q, q1, audio)
  }

  /** One dismissal timeout firing: flags cleared, `prev.slice(1)` (an empty queue stays empty). */
  function RawFire(q: RawQueue): (r: RawQueue)
    requires q.timers > 0
    ensures r.timers == q.timers - 1 && !r.checking && !r.showAlert
    ensures r.pending == if |q.pending| > 0 then q.pending[1..] else []
  {
    q.(pending := if |q.pending| > 0 then q.pending[1..] else [], checking := false,
       showAlert := false, timers := q.timers - 1)
  }

  /**
   * As written, one tick over the queue [a, b] starts the alert for `a` twice: the sound is
   * started twice and two dismissal timeouts are pending, and when both have fired `b` has been
   * dropped without ever being shown.
   */
  lemma StaleCleanupDropsTwo(a: Donor, b: Donor)
    ensures var q := RawTick(RawQueue([a, b], false, false, 0, 0), true);
            && q.timers == 2 && q.plays == 2 && q.pending == [a, b]
            && RawFire(RawFire(q)).pending == []
  {
    var q0 := RawQueue([a, b], false, false, 0, 0);
    var q1 := RawCheck(q0, q0, true);
    assert q1 != q0 by { assert q1.timers == 1; }
    assert [a, b][1..] == [b];
  }

  /**
   * The corrected tick schedules one dismissal per alert: from the queue [a, b] a tick puts `a`
   * on screen with one sound, the dismissal drops `a` only, and the next tick puts `b` on screen.
   */
  lemma EveryAlertShown(a: Donor, b: Donor, durationMs: nat)
    ensures var q0 := Queue([a, b], false, false, None, 0);
            var (q1, s1) := Tick(q0, false, true, durationMs);
            var q2 := Dismiss(q1);
            var (q3, s3) := Tick(q2, false, true, durationMs);
            && s1 == Some(a) && q1.plays == 1
            && q2.pending == [b]
            && s3 == Some(b) && q3.plays == 2
  {
    assert [a, b][1..] == [b];
  }
}
