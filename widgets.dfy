/**
 * The donor-alert pipeline of one widget page as one state record changed by named
 * transitions. The seven pages share the record and differ in constants and policies:
 * the dismissal delay, whether the sound can be switched off, how the visible-donor cursor
 * browses, whether polling is gated by the sync flag, whether new donors are queued, and
 * (006 only) the top-donor takeover. Timers are events; a timer that is not pending never fires.
 */
module Widgets {
  import opened Optional
  import opened Donors
  import Alerts
  import Browse
  import TopDonors

  /** dashboard.jsx, 001.jsx, 002.jsx, 005.jsx, 006.jsx, live/stats.jsx, live/alerts.jsx. */
  datatype Page = Dashboard | W001 | W002 | W005 | W006 | LiveStats | LiveAlerts

  // ---------------------------------------------------------------------------------------
  // What differs between the pages.

  /** The delay of the dismissal timeout that `checkForAlerts` schedules. */
  function AlertMs(p: Page): nat
  {
    match p
    case Dashboard => 10000
    case W002 => 9000
    case W005 | W006 | LiveAlerts => 12000
    case W001 | LiveStats => 0
  }

  /** The pages that run `checkForAlerts` on an interval. */
  predicate HasAlertTicks(p: Page)
  {
    p != W001 && p != LiveStats
  }

  /** The pages with a "Disable Audio" button; the dashboard always plays the sound. */
  predicate HasAudioToggle(p: Page)
  {
    p == W002 || p == W005 || p == W006 || p == LiveAlerts
  }

  /** The pages with `visibleDonor` and `updateRecentDonors`. */
  predicate HasSync(p: Page)
  {
    p == W002 || p == W005 || p == W006 || p == LiveStats || p == LiveAlerts
  }

  /** The browse buttons' policy, on the pages that have them. */
  function BrowsePolicy(p: Page): (r: Option<Browse.Policy>)
    ensures r.Some? ==> HasSync(p)
  {
    match p
    case W006 => Some(Browse.Clamp006)
    case W005 | LiveStats => Some(Browse.Clamp005)
    case W002 => Some(Browse.Wrap002)
    case _ => None
  }

  /** The pages with a "Test Alert" button. */
  predicate HasTestAlert(p: Page)
  {
    p == Dashboard || p == W005 || p == W006
  }

  /** The snapshot the page keeps from an accepted poll: the dashboard keeps the first 8 donors. */
  function Kept(p: Page, list: seq<Donor>): (r: seq<Donor>)
    ensures p == Dashboard ==> r == FirstN(list, 8)
    ensures p != Dashboard ==> r == list
  {
    if p == Dashboard then FirstN(list, 8) else list
  }

  // ---------------------------------------------------------------------------------------
  // The state record.

  datatype State = State(
    page: Page,
    snapshot: seq<Donor>,            // recentDonors
    previous: seq<Donor>,            // previousDonors
    alerts: Alerts.Queue,            // alertQueue, checking, showAlert, the dismissal timeout
    playAudio: bool,
    cursor: Browse.Cursor,           // visibleDonor, updateRecentDonors
    takeover: TopDonors.Takeover,    // isTopDonorViewActive, currentTopDonor, the cycle (006)
    marks: set<string>)              // newDonorAnimations (dashboard)

  /** The state a page mounts with. */
  function Mount(p: Page): State
  {
    State(p, [], [], Alerts.Idle, true, Browse.Mounted, TopDonors.Mounted, {})
  }

  /** The record's invariant: every transition keeps it. */
  predicate Valid(w: State)
  {
    && w.previous == w.snapshot
    && Alerts.Valid(w.alerts)
    && (!HasAlertTicks(w.page) ==> !w.alerts.checking)
    && (!HasAudioToggle(w.page) ==> w.playAudio)
    && TopDonors.Valid(w.takeover)
    && (w.page != W006 ==> w.takeover == TopDonors.Mounted)
    && (w.takeover.active ==> !w.cursor.sync)
    && (HasSync(w.page) ==> Browse.Valid(w.snapshot, w.cursor))
    && (!HasSync(w.page) ==> w.cursor == Browse.Mounted)
    && (w.page == LiveAlerts ==> w.cursor.sync)
    && (w.page == W001 ==> w.alerts == Alerts.Idle)
    && (w.page != Dashboard ==> w.marks == {})
    && (w.page == Dashboard ==> |w.snapshot| <= 8)
  }

  lemma MountValid(p: Page)
    ensures Valid(Mount(p))
  {
  }

  /** The alerts still to be put on screen. */
  function Waiting(w: State): seq<Donor>
    requires Valid(w)
  {
    Alerts.Waiting(w.alerts)
  }

  /** What a transition did besides changing the state: donors queued, the alert put on screen, donors logged (001). */
  datatype Effect = Effect(enqueued: seq<Donor>, started: Option<Donor>, logged: seq<Donor>)

  const Quiet := Effect([], None, [])

  /** The ids of a donor list. */
  function Ids(ds: seq<Donor>): set<string>
  {
    set d | d in ds :: d.id
  }

  // ---------------------------------------------------------------------------------------
  // The diff effect.

  /**
   * The diff effect run for the snapshot `latest`: the new donors are computed against the
   * previous snapshot, which `latest` then replaces; with sync on the visible donor goes to
   * the latest one; the new donors are queued when there are some and the previous snapshot
   * was not empty (never on 001, which only logs them); the dashboard marks their ids for
   * the entry animation.
   */
  function Detect(w: State, latest: seq<Donor>): (r: (State, Effect))
    requires Valid(w)
    requires HasSync(w.page) && !w.cursor.sync ==> latest == w.snapshot
    requires w.page == Dashboard ==> |latest| <= 8
    ensures Valid(r.0)
    ensures r.0.snapshot == latest && r.0.previous == latest
    ensures var found := NewDonors(latest, w.previous);
            r.1.enqueued == (if w.page != W001 && |found| > 0 && |w.previous| > 0 then found else [])
    ensures r.0.alerts == Alerts.Enqueue(w.alerts, r.1.enqueued)
    ensures |w.previous| == 0 ==> r.0.alerts == w.alerts
    ensures r.1.logged == (if w.page == W001 then NewDonors(latest, w.previous) else [])
    ensures r.1.started.None?
    ensures r.0.cursor == (if HasSync(w.page) && w.cursor.sync then Browse.ToLatest(latest) else w.cursor)
    ensures r.0.marks == (if w.page == Dashboard then w.marks + Ids(r.1.enqueued) else w.marks)
    ensures r.0.page == w.page && r.0.playAudio == w.playAudio && r.0.takeover == w.takeover
  {
    var found := NewDonors(latest, w.previous);
    var queued := if w.page != W001 && |found| > 0 && |w.previous| > 0 then found else [];
    var cursor := if HasSync(w.page) && w.cursor.sync then Browse.ToLatest(latest) else w.cursor;
    var marks := if w.page == Dashboard then w.marks + Ids(queued) else w.marks;
    assert w.alerts.pending + [] == w.alerts.pending;
    var r := State(w.page, latest, latest, Alerts.Enqueue(w.alerts, queued), w.playAudio, cursor,
                   w.takeover, marks);
    (r, Effect(queued, None, if w.page == W001 then found else []))
  }

  /** The diff effect computed field by field, as the page's effect assigns it. */
  lemma DetectFields(w: State, latest: seq<Donor>, found: seq<Donor>, queued: seq<Donor>,
                     visible: Browse.Visible, marks: set<string>)
    requires Valid(w)
    requires HasSync(w.page) && !w.cursor.sync ==> latest == w.snapshot
    requires w.page == Dashboard ==> |latest| <= 8
    requires found == NewDonors(latest, w.previous)
    requires queued == if w.page != W001 && |found| > 0 && |w.previous| > 0 then found else []
    requires visible == if HasSync(w.page) && w.cursor.sync then Browse.Latest(latest) else w.cursor.visible
    requires marks == if w.page == Dashboard then w.marks + Ids(queued) else w.marks
    ensures Detect(w, latest) ==
              (State(w.page, latest, latest,
                     Alerts.Queue(w.alerts.pending + queued, w.alerts.checking, w.alerts.showAlert,
                                  w.alerts.dismissal, w.alerts.plays),
                     w.playAudio, Browse.Cursor(visible, w.cursor.sync), w.takeover, marks),
               Effect(queued, None, if w.page == W001 then found else []))
  {
  }

  /** The diff effect re-run with the snapshot unchanged (its other dependencies changed): it changes nothing. */
  lemma {:induction false} DiffRerunHarmless(w: State)
    requires Valid(w)
    ensures Detect(w, w.snapshot) == (w, Quiet)
  {
    NothingNewAgainstItself(w.snapshot);
    assert w.alerts.pending + [] == w.alerts.pending;
    assert Ids([]) == {};
    var r := Detect(w, w.snapshot);
    assert r.1 == Quiet;
    assert r.0.alerts == w.alerts;
    assert r.0.cursor == w.cursor;
    assert r.0.marks == w.marks;
  }

  // ---------------------------------------------------------------------------------------
  // Donor polling.

  /** The poll's result is taken: an ok reply carrying `recentDonors`, and the page's own guard. */
  predicate PollAccepted(w: State, reply: DonorReply)
    ensures PollAccepted(w, reply) ==> reply.Replied? && reply.ok && reply.recentDonors.Some?
    ensures HasSync(w.page) && !w.cursor.sync ==> !PollAccepted(w, reply)
    ensures w.page == W006 && w.takeover.active ==> !PollAccepted(w, reply)
    ensures && reply.Replied? && reply.ok && reply.recentDonors.Some?
            && (HasSync(w.page) ==> w.cursor.sync)
            && !(w.page == W006 && w.takeover.active)
            ==> PollAccepted(w, reply)
  {
    && reply.Replied? && reply.ok && reply.recentDonors.Some?
    && match w.page
       case Dashboard | W001 => true
       case W006 => w.cursor.sync && !w.takeover.active
       case _ => w.cursor.sync
  }

  /**
   * A donor poll completing. Only an accepted reply replaces the snapshot (the dashboard keeps
   * at most 8 donors), and the diff effect runs on it; otherwise nothing changes. 006 skips the
   * poll while sync is paused or the takeover is active; 002, 005, live/stats and live/alerts
   * test the sync flag with the reply.
   */
  function Poll(w: State, reply: DonorReply): (r: (State, Effect))
    requires Valid(w)
    ensures Valid(r.0)
    ensures Waiting(r.0) == Waiting(w) + r.1.enqueued && r.1.started.None?
    ensures r.0.alerts.plays == w.alerts.plays
    ensures !PollAccepted(w, reply) ==> r == (w, Quiet)
    ensures PollAccepted(w, reply) ==> r == Detect(w, Kept(w.page, reply.recentDonors.value))
    ensures r.0.snapshot == if PollAccepted(w, reply) then Kept(w.page, reply.recentDonors.value) else w.snapshot
    ensures w.page == Dashboard ==> |r.0.snapshot| <= 8
    ensures HasSync(w.page) && !w.cursor.sync ==> r == (w, Quiet)
    ensures w.page == W006 && w.takeover.active ==> r == (w, Quiet)
  {
    if PollAccepted(w, reply) then Detect(w, Kept(w.page, reply.recentDonors.value)) else (w, Quiet)
  }

  // ---------------------------------------------------------------------------------------
  // The alert queue.

  /**
   * A tick of the alert interval (`checkForAlerts`). A no-op on pages without it, when the
   * queue is empty, while `checking` is set, and on 006 while the takeover view is active;
   * otherwise the head goes on screen, the sound is started when `playAudio` holds, and the
   * dismissal is scheduled after the page's delay.
   */
  function Tick(w: State): (r: (State, Effect))
    requires Valid(w)
    ensures Valid(r.0)
    ensures Waiting(w) == ToSeq(r.1.started) + Waiting(r.0) && r.1.enqueued == []
    ensures w.alerts.plays <= r.0.alerts.plays <= w.alerts.plays + |ToSeq(r.1.started)|
    ensures var idle := !HasAlertTicks(w.page) || |w.alerts.pending| == 0 || w.alerts.checking
                        || (w.page == W006 && w.takeover.active);
            && (idle ==> r == (w, Quiet))
            && (!idle ==> && r.1 == Effect([], Some(w.alerts.pending[0]), [])
                          && r.0.alerts.checking && r.0.alerts.showAlert
                          && r.0.alerts.pending == w.alerts.pending
                          && r.0.alerts.dismissal == Some(AlertMs(w.page))
                          && r.0.alerts.plays == w.alerts.plays + (if w.playAudio then 1 else 0)
                          && r.0 == w.(alerts := r.0.alerts))
  {
    if HasAlertTicks(w.page) then
      var (q, started) := Alerts.Tick(w.alerts, w.page == W006 && w.takeover.active, w.playAudio, AlertMs(w.page));
      (w.(alerts := q), Effect([], started, []))
    else (w, Quiet)
  }

  /** The dismissal timeout firing: flags cleared, exactly the head dropped; nothing else changes. */
  function Timeout(w: State): (r: State)
    requires Valid(w)
    ensures Valid(r)
    ensures Waiting(r) == Waiting(w) && r.alerts.plays == w.alerts.plays
    ensures r == w.(alerts := Alerts.Dismiss(w.alerts))
    ensures w.alerts.dismissal.Some? ==> && r.alerts.pending == w.alerts.pending[1..]
                                         && !r.alerts.checking && !r.alerts.showAlert
  {
    w.(alerts := Alerts.Dismiss(w.alerts))
  }

  /** "Test Alert": the test donor joins the end of the queue (006 disables the button during the takeover). */
  function TestAlert(w: State, d: Donor): (r: (State, Effect))
    requires Valid(w)
    ensures Valid(r.0)
    ensures Waiting(r.0) == Waiting(w) + r.1.enqueued && r.1.started.None?
    ensures r.0.alerts.plays == w.alerts.plays
    ensures var enabled := HasTestAlert(w.page) && !(w.page == W006 && w.takeover.active);
            && (enabled ==> r.0.alerts.pending == w.alerts.pending + [d] && r.1 == Effect([d], None, []))
            && (!enabled ==> r == (w, Quiet))
            && r.0 == w.(alerts := r.0.alerts)
  {
    if HasTestAlert(w.page) && !(w.page == W006 && w.takeover.active) then
      (w.(alerts := Alerts.Enqueue(w.alerts, [d])), Effect([d], None, []))
    else (w, Quiet)
  }

  /**
   * "Disable Audio" / "Enable Audio". The equality only states the new state; what the
   * contract adds is that the page invariant survives the flip.
   */
  function ToggleAudio(w: State): (r: State)
    requires Valid(w)
    ensures Valid(r)
    ensures r == if HasAudioToggle(w.page) then w.(playAudio := !w.playAudio) else w
  {
    if HasAudioToggle(w.page) then w.(playAudio := !w.playAudio) else w
  }

  // ---------------------------------------------------------------------------------------
  // Browsing.

  /** A click on "previous donor"; a disabled button does nothing. */
  function PrevClick(w: State): (r: State)
    requires Valid(w)
    ensures Valid(r)
    ensures r.cursor.visible.index < |r.snapshot| || r.cursor.visible.index == 0
    ensures r == w.(cursor := r.cursor)
    ensures BrowsePolicy(w.page).Some? &&
            Browse.PrevEnabled(BrowsePolicy(w.page).value, w.snapshot, w.cursor.visible, w.takeover.active) ==>
              r.cursor == Browse.Prev(BrowsePolicy(w.page).value, w.snapshot, w.cursor)
    ensures BrowsePolicy(w.page).None? ||
            !Browse.PrevEnabled(BrowsePolicy(w.page).value, w.snapshot, w.cursor.visible, w.takeover.active) ==>
              r == w
    ensures w.page == W006 && w.takeover.active ==> r == w
  {
    match BrowsePolicy(w.page)
    case Some(p) =>
      if Browse.PrevEnabled(p, w.snapshot, w.cursor.visible, w.takeover.active)
      then w.(cursor := Browse.Prev(p, w.snapshot, w.cursor)) else w
    case None => w
  }

  /** A click on "next donor"; a disabled button does nothing. */
  function NextClick(w: State): (r: State)
    requires Valid(w)
    ensures Valid(r)
    ensures r == w.(cursor := r.cursor)
    ensures BrowsePolicy(w.page).Some? &&
            Browse.NextEnabled(BrowsePolicy(w.page).value, w.cursor.visible, w.takeover.active) ==>
              r.cursor == Browse.Next(BrowsePolicy(w.page).value, w.snapshot, w.cursor)
    ensures BrowsePolicy(w.page).None? ||
            !Browse.NextEnabled(BrowsePolicy(w.page).value, w.cursor.visible, w.takeover.active) ==>
              r == w
    ensures w.page == W006 && w.takeover.active ==> r == w
  {
    match BrowsePolicy(w.page)
    case Some(p) =>
      if Browse.NextEnabled(p, w.cursor.visible, w.takeover.active)
      then w.(cursor := Browse.Next(p, w.snapshot, w.cursor)) else w
    case None => w
  }

  /** A click on "Reset": sync on, latest donor or placeholder. */
  function ResetClick(w: State): (r: State)
    requires Valid(w)
    ensures Valid(r)
    ensures r == w.(cursor := r.cursor)
    ensures BrowsePolicy(w.page).Some? && !(w.page == W006 && w.takeover.active) ==>
              r.cursor.sync && r.cursor.visible == Browse.Latest(w.snapshot)
    ensures w.page == W006 && w.takeover.active ==> r == w
  {
    match BrowsePolicy(w.page)
    case Some(p) =>
      if Browse.ResetEnabled(p, w.takeover.active) then w.(cursor := Browse.Reset(w.snapshot)) else w
    case None => w
  }

  // ---------------------------------------------------------------------------------------
  // The top-donor takeover (006).

  /**
   * The cycle's fetch completing. With entries to show the view becomes active and sync is
   * paused; otherwise the `finally` block runs at once: the view inactive, no current top
   * donor, sync on (so the diff effect shows the latest donor) and the next cycle scheduled.
   */
  function CycleFetched(w: State, reply: TopDonors.StatsReply): (r: State)
    requires Valid(w)
    ensures Valid(r)
    ensures w.page != W006 || !w.takeover.phase.Fetching? ==> r == w
    ensures w.page == W006 && w.takeover.phase.Fetching? ==>
              && r.takeover == TopDonors.Begin(w.takeover, reply)
              && (r.takeover.active ==> !r.cursor.sync && r.cursor.visible == w.cursor.visible)
              && (!r.takeover.active ==> r.takeover == TopDonors.Ended && r.cursor == Browse.ToLatest(w.snapshot))
              && r == w.(takeover := r.takeover, cursor := r.cursor)
  {
    if w.page == W006 && w.takeover.phase.Fetching? then
      var t := TopDonors.Begin(w.takeover, reply);
      if t.active then w.(takeover := t, cursor := w.cursor.(sync := false))
      else w.(takeover := t, cursor := Browse.ToLatest(w.snapshot))
    else w
  }

  /** A 4 s display step ending: the next entry, or after the last one the `finally` block. */
  function CycleStep(w: State): (r: State)
    requires Valid(w)
    ensures Valid(r)
    ensures w.page != W006 || !w.takeover.phase.Showing? ==> r == w
    ensures w.page == W006 && w.takeover.phase.Showing? ==>
              && r.takeover == TopDonors.Step(w.takeover)
              && (r.takeover.active ==> r.cursor == w.cursor)
              && (!r.takeover.active ==> r.takeover == TopDonors.Ended && r.cursor == Browse.ToLatest(w.snapshot))
              && r == w.(takeover := r.takeover, cursor := r.cursor)
  {
    if w.page == W006 && w.takeover.phase.Showing? then
      var t := TopDonors.Step(w.takeover);
      if t.active then w.(takeover := t) else w.(takeover := t, cursor := Browse.ToLatest(w.snapshot))
    else w
  }

  /**
   * The 30 s timeout firing: the next cycle fetches. The equality only states the new state;
   * what the contract adds is that the page invariant survives it.
   */
  function CycleTimer(w: State): (r: State)
    requires Valid(w)
    ensures Valid(r)
    ensures r == if w.page == W006 then w.(takeover := TopDonors.Fire(w.takeover)) else w
  {
    if w.page == W006 then w.(takeover := TopDonors.Fire(w.takeover)) else w
  }

  /**
   * The dashboard's 1 s timeout clearing the entry-animation marks. The model lets it fire at
   * any time: marks are only non-empty while such a timeout is pending, and otherwise the
   * firing changes nothing. The equality only states the new state; what the contract adds
   * is that the page invariant survives it.
   */
  function ClearMarks(w: State): (r: State)
    requires Valid(w)
    ensures Valid(r)
    ensures r == w.(marks := {})
  {
    w.(marks := {})
  }

  // ---------------------------------------------------------------------------------------
  // Everything that can happen to a mounted page.

  datatype Event =
    | DonorsFetched(reply: DonorReply)          // the 5 s donor poll completing
    | DiffRerun                                 // the diff effect re-run for another dependency
    | AlertTick                                 // the alert interval
    | AlertTimeout                              // the dismissal timeout
    | TestAlertClicked(donor: Donor)
    | AudioToggled
    | PrevClicked
    | NextClicked
    | ResetClicked
    | StatsFetched(stats: TopDonors.StatsReply) // 006: the cycle's fetch completing
    | StepElapsed                               // 006: one 4 s display step
    | CycleTimeout                              // 006: the 30 s timeout before the next cycle
    | MarksTimeout                              // dashboard: the animation marks cleared

  /** The events that leave the alert queue alone: the buttons, the audio toggle, the takeover and the marks. */
  function Settle(w: State, e: Event): (r: State)
    requires Valid(w)
    ensures Valid(r)
    ensures r.page == w.page && r.alerts == w.alerts
  {
    match e
    case AudioToggled => ToggleAudio(w)
    case PrevClicked => PrevClick(w)
    case NextClicked => NextClick(w)
    case ResetClicked => ResetClick(w)
    case StatsFetched(reply) => CycleFetched(w, reply)
    case StepElapsed => CycleStep(w)
    case CycleTimeout => CycleTimer(w)
    case MarksTimeout => ClearMarks(w)
    case _ => w
  }

  /**
   * One event. Every event keeps the invariant; the alerts put on screen are taken from the
   * front of the waiting line and the new donors join its end, so the line is first in,
   * first out; the sound is started at most once per alert put on screen; 001 never queues.
   */
  function Step(w: State, e: Event): (r: (State, Effect))
    requires Valid(w)
    ensures Valid(r.0)
    ensures r.0.page == w.page
    ensures Waiting(w) + r.1.enqueued == ToSeq(r.1.started) + Waiting(r.0)
    ensures w.alerts.plays <= r.0.alerts.plays <= w.alerts.plays + |ToSeq(r.1.started)|
    ensures w.page == W001 ==> r.1.enqueued == [] && r.1.started.None?
  {
    match e
    case DonorsFetched(reply) => Poll(w, reply)
    case DiffRerun => Detect(w, w.snapshot)
    case AlertTick => Tick(w)
    case AlertTimeout => (Timeout(w), Quiet)
    case TestAlertClicked(d) => TestAlert(w, d)
    case _ => (Settle(w, e), Quiet)
  }

  /** A run of events: the final state, the donors queued, the alerts put on screen, the donors logged. */
  datatype Trace = Trace(final: State, enqueued: seq<Donor>, shown: seq<Donor>, logged: seq<Donor>)

  function Run(w: State, evs: seq<Event>): (r: Trace)
    requires Valid(w)
    ensures Valid(r.final) && r.final.page == w.page
    ensures w.page == W001 ==> r.enqueued == [] && r.shown == [] && r.final.alerts == Alerts.Idle
    decreases |evs|
  {
    if evs == [] then Trace(w, [], [], [])
    else
      var s1 := Step(w, evs[0]);
      var t := Run(s1.0, evs[1..]);
      Trace(t.final, s1.1.enqueued + t.enqueued, ToSeq(s1.1.started) + t.shown, s1.1.logged + t.logged)
  }

  /** Two first-in-first-out steps make one. */
  lemma ChainFifo(w0: seq<Donor>, in1: seq<Donor>, out1: seq<Donor>, w1: seq<Donor>,
                  in2: seq<Donor>, out2: seq<Donor>, w2: seq<Donor>)
    requires w0 + in1 == out1 + w1
    requires w1 + in2 == out2 + w2
    ensures w0 + (in1 + in2) == (out1 + out2) + w2
  {
    calc {
      w0 + (in1 + in2);
      (w0 + in1) + in2;
      out1 + (w1 + in2);
      out1 + (out2 + w2);
    }
  }

  /** Over any run the waiting line is first in, first out, and each alert plays the sound at most once. */
  lemma {:induction false} RunConserves(w: State, evs: seq<Event>)
    requires Valid(w)
    ensures var t := Run(w, evs);
            && Waiting(w) + t.enqueued == t.shown + Waiting(t.final)
            && w.alerts.plays <= t.final.alerts.plays <= w.alerts.plays + |t.shown|
    decreases |evs|
  {
    if evs != [] {
      var s1 := Step(w, evs[0]);
      var t1 := Run(s1.0, evs[1..]);
      RunConserves(s1.0, evs[1..]);
      var t := Run(w, evs);
      assert t.final.alerts == t1.final.alerts;
      assert t.enqueued == s1.1.enqueued + t1.enqueued;
      assert t.shown == ToSeq(s1.1.started) + t1.shown;
      ChainFifo(Waiting(w), s1.1.enqueued, ToSeq(s1.1.started), Waiting(s1.0), t1.enqueued, t1.shown, Waiting(t1.final));
    }
  }

  /**
   * From a freshly mounted page, the alerts shown are exactly the first of the donors queued,
   * in queue order, the rest are still waiting in order, and no alert is lost or repeated.
   */
  lemma FromMount(p: Page, evs: seq<Event>)
    ensures var t := Run(Mount(p), evs);
            && t.shown <= t.enqueued
            && Waiting(t.final) == t.enqueued[|t.shown|..]
            && t.final.alerts.plays <= |t.shown|
  {
    RunConserves(Mount(p), evs);
    var t := Run(Mount(p), evs);
    assert Waiting(Mount(p)) == [];
    assert t.enqueued == t.shown + Waiting(t.final);
  }

  /**
   * The first load never raises alerts: a page mounts, the poll returns [a], the next poll
   * returns [b, a]; only `b` is queued.
   */
  lemma FirstLoadSilent(p: Page, a: Donor, b: Donor)
    requires p != W001
    requires a.id != b.id
    ensures var s1 := Poll(Mount(p), Replied(true, Some([a])));
            var s2 := Poll(s1.0, Replied(true, Some([b, a])));
            && s1.0.snapshot == [a] && s1.1.enqueued == []
            && s2.0.snapshot == [b, a] && s2.1.enqueued == [b] && Waiting(s2.0) == [b]
  {
    var s1 := Poll(Mount(p), Replied(true, Some([a])));
    assert s1.0.snapshot == [a] && s1.0.alerts == Alerts.Idle;
    assert NewDonors([b, a], [a]) == [b] by {
      assert Known([a], a.id);
      assert !Known([a], b.id);
    }
  }

  // ---------------------------------------------------------------------------------------
  // What the page renders from the state.

  /**
   * The visible donor's name in the bottom bar (or the dashboard's list): longer than the page's
   * limit, it is cut to the limit and "..." appended; 002 shows it whole. Without a donor the dashboard
   * shows "Loading donors..." and the other pages "loading...". 001 and live/alerts render no
   * such name, so their value is unused.
   */
  function BottomName(p: Page, v: Browse.Visible): (r: string)
    ensures var name := if v.donor.Some? then v.donor.value.name
                        else if p == Dashboard then "Loading donors..." else "loading...";
            && (p == Dashboard ==> r == (if |name| > 25 then name[..25] + "..." else name))
            && (p == W005 || p == W006 ==> r == (if |name| > 18 then name[..18] + "..." else name))
            && (p == LiveStats ==> r == (if |name| > 20 then name[..20] + "..." else name))
            && (p == W002 || p == W001 || p == LiveAlerts ==> r == name)
  {
    var name := if v.donor.Some? then v.donor.value.name
                else if p == Dashboard then "Loading donors..." else "loading...";
    match p
    case Dashboard => Truncate(name, 25)
    case W005 | W006 => Truncate(name, 18)
    case LiveStats => Truncate(name, 20)
    case _ => name
  }

  /**
   * The "k/n" counter under the bottom bar: n is the snapshot's length; 005 and live/stats show
   * index + 1 (so "1/0" with an empty snapshot), 006 shows 0 for an empty snapshot. With a
   * non-empty snapshot the position lies between 1 and n. Only 005, 006 and live/stats render
   * a counter; the value for the other pages is unused.
   */
  function Counter(w: State): (r: (nat, nat))
    requires Valid(w)
    ensures r.1 == |w.snapshot|
    ensures HasSync(w.page) && |w.snapshot| > 0 ==> 1 <= r.0 <= r.1 && r.0 == w.cursor.visible.index + 1
    ensures |w.snapshot| == 0 ==> r.0 == (if w.page == W006 then 0 else 1)
  {
    var i := w.cursor.visible.index;
    if w.page == W006 && |w.snapshot| == 0 then (0, 0) else (i + 1, |w.snapshot|)
  }

  /**
   * The dashboard's animation marks: the ids of the new donors added to the set, one by one.
   */
  method MarkNewDonors(marks: set<string>, ds: seq<Donor>) returns (r: set<string>)
    ensures r == marks + Ids(ds)
  {
    r := marks;
    var i := 0;
    while i < |ds|
      invariant 0 <= i <= |ds|
      invariant r == marks + Ids(ds[..i])
    {
      assert ds[..i + 1] == ds[..i] + [ds[i]];
      r := r + {ds[i].id};
      i := i + 1;
    }
    assert ds[..|ds|] == ds;
  }
}
