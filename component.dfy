/**
 * A mounted page as an object: the React state hooks are fields, and each handler, timer
 * callback and effect is a method that updates them in place. Every method performs
 * exactly the transition of the state record that it is named after.
 */
module Component {
  import opened Optional
  import opened Donors
  import Alerts
  import Browse
  import TopDonors
  import W = Widgets

  class Widget {
    const page: W.Page
    var recentDonors: seq<Donor>
    var previousDonors: seq<Donor>
    var alertQueue: seq<Donor>
    var checking: bool
    var showAlert: bool
    var dismissal: Option<nat>          // the pending dismissal timeout and its delay
    var plays: nat                      // how often the donation sound was started
    var playAudio: bool
    var visibleDonor: Browse.Visible
    var updateRecentDonors: bool
    var takeover: TopDonors.Takeover    // isTopDonorViewActive, currentTopDonor, the cycle (006)
    var newDonorAnimations: set<string>

    /** The fields as a state record. */
    function State(): W.State
      reads this
    {
      W.State(page, recentDonors, previousDonors,
              Alerts.Queue(alertQueue, checking, showAlert, dismissal, plays), playAudio,
              Browse.Cursor(visibleDonor, updateRecentDonors), takeover, newDonorAnimations)
    }

    constructor (p: W.Page)
      ensures State() == W.Mount(p) && W.Valid(State())
    {
      page := p;
      recentDonors, previousDonors := [], [];
      alertQueue, checking, showAlert, dismissal, plays := [], false, false, None, 0;
      playAudio := true;
      visibleDonor, updateRecentDonors := Browse.Visible(None, 0), true;
      takeover := TopDonors.Mounted;
      newDonorAnimations := {};
    }

    /** The setters the diff effect calls, all at once. */
    method Store(latest: seq<Donor>, visible: Browse.Visible, queue: seq<Donor>, marks: set<string>)
      modifies this
      ensures recentDonors == latest && previousDonors == latest
      ensures visibleDonor == visible && alertQueue == queue && newDonorAnimations == marks
      ensures checking == old(checking) && showAlert == old(showAlert) && dismissal == old(dismissal)
      ensures plays == old(plays) && playAudio == old(playAudio)
      ensures updateRecentDonors == old(updateRecentDonors) && takeover == old(takeover)
    {
      recentDonors, previousDonors, visibleDonor, alertQueue, newDonorAnimations :=
        latest, latest, visible, queue, marks;
    }

    /** The diff effect for the snapshot `latest` (the fetch has just stored it). */
    method DiffEffect(latest: seq<Donor>) returns (eff: W.Effect)
      requires W.Valid(State())
      requires W.HasSync(page) && !updateRecentDonors ==> latest == recentDonors
      requires page == W.Dashboard ==> |latest| <= 8
      modifies this
      ensures (State(), eff) == W.Detect(old(State()), latest)
    {
      ghost var w0 := State();
      var found := NewDonors(latest, previousDonors);
      var queued := if page != W.W001 && |found| > 0 && |previousDonors| > 0 then found else [];
      var visible := if W.HasSync(page) && updateRecentDonors then Browse.Latest(latest) else visibleDonor;
      var marks := newDonorAnimations;
      if page == W.Dashboard {
        marks := W.MarkNewDonors(marks, queued);
      }
      W.DetectFields(w0, latest, found, queued, visible, marks);
      Store(latest, visible, alertQueue + queued, marks);
      eff := W.Effect(queued, None, if page == W.W001 then found else []);
    }

    /** `fetchData` completing with `reply`. */
    method DonorsFetched(reply: DonorReply) returns (eff: W.Effect)
      requires W.Valid(State())
      modifies this
      ensures (State(), eff) == W.Poll(old(State()), reply) && W.Valid(State())
    {
      if W.PollAccepted(State(), reply) {
        eff := DiffEffect(W.Kept(page, reply.recentDonors.value));
      } else {
        eff := W.Quiet;
      }
    }

    /** `checkForAlerts`, run by the alert interval. */
    method CheckForAlerts() returns (started: Option<Donor>)
      requires W.Valid(State())
      modifies this
      ensures (State(), W.Effect([], started, [])) == W.Tick(old(State())) && W.Valid(State())
    {
      if !W.HasAlertTicks(page) || |alertQueue| == 0 || checking || (page == W.W006 && takeover.active) {
        return None;
      }
      checking := true;
      showAlert := true;
      if playAudio {
        plays := plays + 1;
      }
      dismissal := Some(W.AlertMs(page));
      started := Some(alertQueue[0]);
    }

    /** The dismissal timeout's callback. */
    method DismissAlert()
      requires W.Valid(State())
      modifies this
      ensures State() == W.Timeout(old(State())) && W.Valid(State())
    {
      if dismissal.Some? {
        showAlert := false;
        checking := false;
        alertQueue := alertQueue[1..];
        dismissal := None;
      }
    }

    /** The "Test Alert" button with the test donor `d`. */
    method TestAlert(d: Donor) returns (eff: W.Effect)
      requires W.Valid(State())
      modifies this
      ensures (State(), eff) == W.TestAlert(old(State()), d) && W.Valid(State())
    {
      if W.HasTestAlert(page) && !(page == W.W006 && takeover.active) {
        alertQueue := alertQueue + [d];
        eff := W.Effect([d], None, []);
      } else {
        eff := W.Quiet;
      }
    }

    /** The audio button. */
    method ToggleAudio()
      requires W.Valid(State())
      modifies this
      ensures State() == W.ToggleAudio(old(State())) && W.Valid(State())
    {
      if W.HasAudioToggle(page) {
        playAudio := !playAudio;
      }
    }

    /** `handlePrevDonor`, reached only through an enabled button. */
    method PrevDonor()
      requires W.Valid(State())
      modifies this
      ensures State() == W.PrevClick(old(State())) && W.Valid(State())
    {
      var p := W.BrowsePolicy(page);
      if p.Some? && Browse.PrevEnabled(p.value, recentDonors, visibleDonor, takeover.active) {
        var c := Browse.Prev(p.value, recentDonors, Browse.Cursor(visibleDonor, updateRecentDonors));
        visibleDonor, updateRecentDonors := c.visible, c.sync;
      }
    }

    /** `handleNextDonor`, reached only through an enabled button. */
    method NextDonor()
      requires W.Valid(State())
      modifies this
      ensures State() == W.NextClick(old(State())) && W.Valid(State())
    {
      var p := W.BrowsePolicy(page);
      if p.Some? && Browse.NextEnabled(p.value, visibleDonor, takeover.active) {
        var c := Browse.Next(p.value, recentDonors, Browse.Cursor(visibleDonor, updateRecentDonors));
        visibleDonor, updateRecentDonors := c.visible, c.sync;
      }
    }

    /** `handleResetDonor`, reached only through an enabled button. */
    method ResetDonor()
      requires W.Valid(State())
      modifies this
      ensures State() == W.ResetClick(old(State())) && W.Valid(State())
    {
      var p := W.BrowsePolicy(page);
      if p.Some? && Browse.ResetEnabled(p.value, takeover.active) {
        visibleDonor, updateRecentDonors := Browse.Latest(recentDonors), true;
      }
    }

    /** 006: the cycle's fetch of the top donors completing. */
    method TopDonorsFetched(reply: TopDonors.StatsReply)
      requires W.Valid(State())
      modifies this
      ensures State() == W.CycleFetched(old(State()), reply) && W.Valid(State())
    {
      if page == W.W006 && takeover.phase.Fetching? {
        takeover := TopDonors.Begin(takeover, reply);
        if takeover.active {
          updateRecentDonors := false;
        } else {
          visibleDonor, updateRecentDonors := Browse.Latest(recentDonors), true;
        }
      }
    }

    /** 006: one 4 s display step of the cycle ending. */
    method TopDonorStep()
      requires W.Valid(State())
      modifies this
      ensures State() == W.CycleStep(old(State())) && W.Valid(State())
    {
      if page == W.W006 && takeover.phase.Showing? {
        takeover := TopDonors.Step(takeover);
        if !takeover.active {
          visibleDonor, updateRecentDonors := Browse.Latest(recentDonors), true;
        }
      }
    }

    /** 006: the 30 s timeout that starts the next cycle. */
    method TopDonorTimer()
      requires W.Valid(State())
      modifies this
      ensures State() == W.CycleTimer(old(State())) && W.Valid(State())
    {
      if page == W.W006 {
        takeover := TopDonors.Fire(takeover);
      }
    }

    /** The dashboard's timeout that ends the entry animation. */
    method ClearAnimations()
      requires W.Valid(State())
      modifies this
      ensures State() == W.ClearMarks(old(State())) && W.Valid(State())
    {
      newDonorAnimations := {};
    }
  }
}
