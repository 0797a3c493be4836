/**
 * The visible-donor cursor of the bottom bar: `visibleDonor` (a donor of the snapshot tagged
 * with its index, or the "loading..." placeholder) and `updateRecentDonors`, the sync flag.
 * The pages browse with one of three policies: 006 clamps at both ends; 005 and live/stats
 * clamp, and reaching index 0 by "next" resumes sync; 002 wraps from the last donor to the latest.
 * The source tags the snapshot element in place (`newVisibleDonor.index = ...`); here the
 * visible donor is a new value holding the donor and the index.
 */
module Browse {
  import opened Optional
  import opened Donors

  /** The donor on display (None: the "loading..." placeholder) and its index tag. */
  datatype Visible = Visible(donor: Option<Donor>, index: nat)

  /** `visibleDonor` together with `updateRecentDonors`. */
  datatype Cursor = Cursor(visible: Visible, sync: bool)

  /** What a handler as written produces: a new cursor, or a fault (a TypeError thrown, or `visibleDonor` set to undefined). */
  datatype Outcome = Moved(cursor: Cursor) | Fault

  datatype Policy = Clamp006 | Clamp005 | Wrap002

  /** The cursor every page mounts with. */
  const Mounted := Cursor(Visible(None, 0), true)

  /** `setVisibleToLatestDonor`'s choice: `recentDonors[0]` at index 0, or the placeholder. */
  function Latest(snap: seq<Donor>): (v: Visible)
    ensures v.index == 0
    ensures v.donor.Some? <==> |snap| > 0
    ensures |snap| > 0 ==> v.donor == Some(snap[0])
  {
    if |snap| > 0 then Visible(Some(snap[0]), 0) else Visible(None, 0)
  }

  /** `recentDonors[k]` tagged with index k. */
  function At(snap: seq<Donor>, k: nat): Visible
    requires k < |snap|
  {
    Visible(Some(snap[k]), k)
  }

  /** The visible donor agrees with the snapshot: it is the latest one, or the donor at its index. */
  predicate Coherent(snap: seq<Donor>, v: Visible)
  {
    v == Latest(snap) || (v.index < |snap| && v.donor == Some(snap[v.index]))
  }

  /** The cursor's invariant: coherent, and showing the latest donor whenever sync is on. */
  predicate Valid(snap: seq<Donor>, c: Cursor)
  {
    Coherent(snap, c.visible) && (c.sync ==> c.visible == Latest(snap))
  }

  /** `setVisibleToLatestDonor` (and 006's `handleResetDonor`): sync on, latest donor or placeholder. */
  function ToLatest(snap: seq<Donor>): (c: Cursor)
    ensures Valid(snap, c) && c.sync && c.visible.index == 0
  {
    Cursor(Latest(snap), true)
  }

  // ---------------------------------------------------------------------------------------
  // Buttons: a click on a disabled button never reaches the handler.

  /** The "previous donor" (older, index + 1) button is enabled. */
  predicate PrevEnabled(p: Policy, snap: seq<Donor>, v: Visible, takeover: bool)
    ensures p == Wrap002 ==> PrevEnabled(p, snap, v, takeover)
    ensures p != Wrap002 && v.index < |snap| ==>
              (PrevEnabled(p, snap, v, takeover) <==> v.index + 1 < |snap| && !(p == Clamp006 && takeover))
    ensures |snap| == 0 && v.index == 0 ==> (PrevEnabled(p, snap, v, takeover) <==> p != Clamp006)
  {
    match p
    case Clamp006 => !takeover && !(v.index >= |snap| - 1)
    case Clamp005 => v.index != |snap| - 1
    case Wrap002 => true
  }

  /** The "next donor" (newer, index - 1) button is enabled. */
  predicate NextEnabled(p: Policy, v: Visible, takeover: bool)
    ensures NextEnabled(p, v, takeover) ==> v.index > 0
    ensures v.index > 0 && !takeover ==> NextEnabled(p, v, takeover)
    ensures p == Clamp006 && takeover ==> !NextEnabled(p, v, takeover)
  {
    match p
    case Clamp006 => !takeover && v.index != 0
    case Clamp005 => v.index != 0
    case Wrap002 => v.index != 0
  }

  /** The reset button is enabled. */
  predicate ResetEnabled(p: Policy, takeover: bool)
    ensures !takeover ==> ResetEnabled(p, takeover)
    ensures p != Clamp006 ==> ResetEnabled(p, takeover)
  {
    p == Clamp006 ==> !takeover
  }

  // ---------------------------------------------------------------------------------------
  // The handlers as written.

  /** `handlePrevDonor` as written. */
  function PrevAsWritten(p: Policy, snap: seq<Donor>, c: Cursor): (r: Outcome)
    ensures r.Fault? <==> match p
                          case Clamp006 => false
                          case Clamp005 => c.visible.index + 1 >= |snap|
                          case Wrap002 => c.visible.index + 1 > |snap|
    ensures c.visible.index + 1 < |snap| ==> r == Moved(Cursor(At(snap, c.visible.index + 1), false))
  {
    var i := c.visible.index;
    match p
    case Clamp006 =>
      if i + 1 >= |snap| then Moved(c.(sync := false)) else Moved(Cursor(At(snap, i + 1), false))
    case Clamp005 =>
      if i + 1 == |snap| then Fault        // `return;`: visibleDonor becomes undefined
      else if i + 1 > |snap| then Fault    // recentDonors[i + 1] is undefined
      else Moved(Cursor(At(snap, i + 1), false))
    case Wrap002 =>
      if i + 1 == |snap| then Moved(Cursor(At(snap, 0), true))
      else if i + 1 > |snap| then Fault
      else Moved(Cursor(At(snap, i + 1), false))
  }

  /** `handleNextDonor` as written. */
  function NextAsWritten(p: Policy, snap: seq<Donor>, c: Cursor): (r: Outcome)
    ensures r.Fault? <==> match p
                          case Clamp006 => c.visible.index > |snap|
                          case Clamp005 => c.visible.index == 0 || c.visible.index > |snap|
                          case Wrap002 => c.visible.index > |snap| || (c.visible.index == 0 && |snap| == 0)
    ensures 1 < c.visible.index <= |snap| ==> r == Moved(Cursor(At(snap, c.visible.index - 1), false))
  {
    var i := c.visible.index;
    match p
    case Clamp006 =>
      if i == 0 then Moved(c.(sync := false))
      else if i - 1 >= |snap| then Fault
      else if i - 1 == 0 then Moved(Cursor(At(snap, 0), true))
      else Moved(Cursor(At(snap, i - 1), false))
    case Clamp005 =>
      if i - 1 >= |snap| then Fault
      else if i - 1 == 0 then Moved(Cursor(At(snap, 0), true))
      else if i == 0 then Fault            // recentDonors[-1] is undefined
      else Moved(Cursor(At(snap, i - 1), false))
    case Wrap002 =>
      if i - 1 >= |snap| then Fault
      else if i == 0 then (if |snap| == 0 then Fault else Moved(Cursor(At(snap, 0), true)))
      else Moved(Cursor(At(snap, i - 1), false))
  }

  /** `handleResetDonor` as written: 006 falls back to the placeholder, the others read `recentDonors[0]`. */
  function ResetAsWritten(p: Policy, snap: seq<Donor>): (r: Outcome)
    ensures r.Fault? <==> p != Clamp006 && |snap| == 0
    ensures r.Moved? ==> r.cursor.sync && r.cursor.visible == Latest(snap)
  {
    if p == Clamp006 then Moved(ToLatest(snap))
    else if |snap| == 0 then Fault
    else Moved(Cursor(At(snap, 0), true))
  }

  // ---------------------------------------------------------------------------------------
  // The handlers the model uses: as written, except that an empty snapshot no longer faults.

  /**
   * "Previous donor": one step older with sync paused. At the oldest donor 006 only pauses
   * sync, 005 and live/stats stay put, and 002 wraps round to the latest donor with sync on.
   */
  function Prev(p: Policy, snap: seq<Donor>, c: Cursor): (r: Cursor)
    requires Valid(snap, c)
    ensures Valid(snap, r)
    ensures c.visible.index + 1 < |snap| ==> r == Cursor(At(snap, c.visible.index + 1), false)
    ensures c.visible.index + 1 >= |snap| ==>
              r == match p
                   case Clamp006 => c.(sync := false)
                   case Clamp005 => c
                   case Wrap002 => ToLatest(snap)
  {
    var i := c.visible.index;
    if i + 1 < |snap| then Cursor(At(snap, i + 1), false)
    else match p
      case Clamp006 => c.(sync := false)
      case Clamp005 => c
      case Wrap002 => ToLatest(snap)
  }

  /**
   * "Next donor": one step newer. Reaching index 0 resumes sync in 006, 005 and live/stats;
   * 002 keeps sync paused on that step and resumes it only when asked to go past index 0.
   */
  function Next(p: Policy, snap: seq<Donor>, c: Cursor): (r: Cursor)
    requires Valid(snap, c)
    ensures Valid(snap, r)
    ensures c.visible.index > 0 ==> r.visible == At(snap, c.visible.index - 1)
    ensures c.visible.index > 1 ==> !r.sync
    ensures c.visible.index == 1 ==> r.sync == (p != Wrap002)
    ensures c.visible.index == 0 ==>
              r == match p
                   case Clamp006 => c.(sync := false)
                   case Clamp005 => c
                   case Wrap002 => ToLatest(snap)
  {
    var i := c.visible.index;
    if i == 0 then
      match p
      case Clamp006 => c.(sync := false)
      case Clamp005 => c
      case Wrap002 => ToLatest(snap)
    else if i - 1 == 0 && p != Wrap002 then Cursor(At(snap, 0), true)
    else Cursor(At(snap, i - 1), false)
  }

  /** Reset: sync on, showing the latest donor at index 0 (the placeholder when the snapshot is empty). */
  function Reset(snap: seq<Donor>): (r: Cursor)
    ensures Valid(snap, r) && r.sync && r.visible == Latest(snap)
  {
    ToLatest(snap)
  }

  // ---------------------------------------------------------------------------------------
  // How the model's handlers relate to the handlers as written.

  /** Wherever a handler as written does not fault, the model's handler does the same. */
  lemma AsWrittenAgreesWhenNoFault(p: Policy, snap: seq<Donor>, c: Cursor)
    requires Valid(snap, c)
    ensures PrevAsWritten(p, snap, c).Moved? ==> PrevAsWritten(p, snap, c).cursor == Prev(p, snap, c)
    ensures NextAsWritten(p, snap, c).Moved? ==> NextAsWritten(p, snap, c).cursor == Next(p, snap, c)
    ensures ResetAsWritten(p, snap).Moved? ==> ResetAsWritten(p, snap).cursor == Reset(snap)
  {
  }

  /** With a donor on record and an enabled button, no handler as written faults. */
  lemma AsWrittenSafeWhenEnabled(p: Policy, snap: seq<Donor>, c: Cursor, takeover: bool)
    requires Valid(snap, c) && |snap| > 0
    ensures PrevEnabled(p, snap, c.visible, takeover) ==> PrevAsWritten(p, snap, c).Moved?
    ensures NextEnabled(p, c.visible, takeover) ==> NextAsWritten(p, snap, c).Moved?
    ensures ResetAsWritten(p, snap).Moved?
  {
  }

  /** With an empty snapshot the enabled reset and "previous" buttons of 005, live/stats and 002 fault. */
  lemma EmptySnapshotFaults(p: Policy)
    requires p != Clamp006
    ensures ResetEnabled(p, false) && ResetAsWritten(p, []) == Fault
    ensures PrevEnabled(p, [], Latest([]), false) && PrevAsWritten(p, [], ToLatest([])) == Fault
  {
  }

  // ---------------------------------------------------------------------------------------
  // Browsing round trips.

  /** One step older then one step newer comes back to the same donor. */
  lemma PrevThenNext(p: Policy, snap: seq<Donor>, c: Cursor)
    requires Valid(snap, c) && c.visible.index + 1 < |snap|
    ensures Next(p, snap, Prev(p, snap, c)).visible == At(snap, c.visible.index)
    ensures Next(p, snap, Prev(p, snap, c)).sync == (c.visible.index == 0 && p != Wrap002)
  {
  }

  /** The cursor after `n` clicks on "previous donor". */
  function PrevTimes(p: Policy, snap: seq<Donor>, c: Cursor, n: nat): (r: Cursor)
    requires Valid(snap, c)
    ensures Valid(snap, r)
  {
    if n == 0 then c else Prev(p, snap, PrevTimes(p, snap, c, n - 1))
  }

  /** 002, from the latest donor: n < length clicks on "previous" walk to index n with sync paused. */
  lemma {:induction false} WrapWalks(snap: seq<Donor>, n: nat)
    requires 0 < n < |snap|
    ensures PrevTimes(Wrap002, snap, ToLatest(snap), n) == Cursor(At(snap, n), false)
  {
    if n > 1 {
      WrapWalks(snap, n - 1);
    }
  }

  /** 002 wraps: as many clicks on "previous" as there are donors come back to the latest donor with sync on. */
  lemma WrapFullCycle(snap: seq<Donor>)
    requires |snap| > 0
    ensures PrevTimes(Wrap002, snap, ToLatest(snap), |snap|) == ToLatest(snap)
  {
    if |snap| > 1 {
      WrapWalks(snap, |snap| - 1);
    }
  }

  /** 005 and live/stats clamp: from the latest donor, n clicks on "previous" stop at the oldest donor. */
  lemma {:induction false} ClampStops(snap: seq<Donor>, n: nat)
    requires |snap| > 0
    ensures PrevTimes(Clamp005, snap, ToLatest(snap), n).visible
            == At(snap, if n < |snap| then n else |snap| - 1)
  {
    if n > 0 {
      ClampStops(snap, n - 1);
    }
  }
}
