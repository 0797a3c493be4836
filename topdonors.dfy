/**
 * The top-donor takeover of page 006 (`cycleTopDonors`). A cycle fetches the leaderboard,
 * builds a fixed-order list of labelled slots, and when the list is not empty shows each
 * entry for 4 s with the takeover view active; its `finally` block always deactivates the
 * view and schedules the next cycle 30 s later. The fetch, the 4 s waits and the 30 s wait
 * are events here.
 */
module TopDonors {
  import opened Optional

  /** One leaderboard slot of the stats endpoint. */
  datatype Slot = Slot(name: string, amount: int)

  /** `data.topDonors`: every slot may be null. */
  datatype Board = Board(today: Option<Slot>, weekly: Option<Slot>, monthly: Option<Slot>, allTime: Option<Slot>)

  /** What a stats fetch delivers: the fetch or parse threw, or a reply with `ok` and an optional `data.topDonors`. */
  datatype StatsReply = StatsFailed | StatsReplied(ok: bool, topDonors: Option<Board>)

  /** A labelled slot, as shown in the takeover overlay. */
  datatype Entry = Entry(caption: string, name: string, amount: int)

  const IntervalMs: nat := 30000   // TOP_DONOR_VIEW_INTERVAL

  /** `{ ...slot, label }`: a null slot spreads into an object without a name. */
  function Labelled(slot: Option<Slot>, caption: string): Option<Entry>
  {
    match slot
    case None => None
    case Some(s) => Some(Entry(caption, s.name, s.amount))
  }

  /** `.filter((donor) => donor && donor.name)`: only entries with a non-empty name survive, in order. */
  function KeepNamed(es: seq<Option<Entry>>): (r: seq<Entry>)
    ensures |r| <= |es|
    ensures forall e :: e in r <==> Some(e) in es && e.name != ""
  {
    if es == [] then []
    else
      var head := if es[0].Some? && es[0].value.name != "" then [es[0].value] else [];
      assert es == [es[0]] + es[1..];
      head + KeepNamed(es[1..])
  }

  /** The filter distributes over concatenation, so the survivors keep their order. */
  lemma {:induction false} KeepNamedAppend(a: seq<Option<Entry>>, b: seq<Option<Entry>>)
    ensures KeepNamed(a + b) == KeepNamed(a) + KeepNamed(b)
  {
    if a == [] {
      assert a + b == b;
    } else {
      assert (a + b)[0] == a[0];
      assert (a + b)[1..] == a[1..] + b;
      KeepNamedAppend(a[1..], b);
    }
  }

  /** One entry survives exactly when it is present with a non-empty name. */
  lemma KeepNamedSingle(e: Option<Entry>)
    ensures KeepNamed([e]) == if e.Some? && e.value.name != "" then [e.value] else []
  {
    assert [e][1..] == [];
  }

  /** The entry a slot contributes: one labelled entry when the slot has a name, none otherwise. */
  function Contribution(slot: Option<Slot>, caption: string): seq<Entry>
  {
    if slot.Some? && slot.value.name != "" then [Entry(caption, slot.value.name, slot.value.amount)] else []
  }

  /**
   * `topDonorsToShow`: All-Time, then Monthly, then Today, each only when its slot has a
   * name. The weekly slot is never listed.
   */
  function ToShow(b: Board): (r: seq<Entry>)
    ensures |r| <= 3
    ensures r == Contribution(b.allTime, "All-Time Top") + Contribution(b.monthly, "Monthly Top")
                 + Contribution(b.today, "Today's Top")
    ensures forall e :: e in r ==> e.name != "" && e.caption in ["All-Time Top", "Monthly Top", "Today's Top"]
  {
    var es := [Labelled(b.allTime, "All-Time Top"), Labelled(b.monthly, "Monthly Top"), Labelled(b.today, "Today's Top")];
    assert es[1..] == [es[1], es[2]] && es[1..][1..] == [es[2]] && es[1..][1..][1..] == [];
    assert KeepNamed(es[1..][1..]) == Contribution(b.today, "Today's Top");
    assert KeepNamed(es[1..]) == Contribution(b.monthly, "Monthly Top") + KeepNamed(es[1..][1..]);
    assert KeepNamed(es) == Contribution(b.allTime, "All-Time Top") + KeepNamed(es[1..]);
    KeepNamed(es)
  }

  /** The weekly slot has no influence on what the takeover shows. */
  lemma WeeklyIgnored(b: Board, w: Option<Slot>)
    ensures ToShow(b.(weekly := w)) == ToShow(b)
  {
  }

  /**
   * The list a cycle shows, or None when it gives up before the loop: the fetch threw, or
   * `!result.ok || !result.data || !result.data.topDonors`.
   */
  function ShowList(reply: StatsReply): (r: Option<seq<Entry>>)
    ensures r.Some? <==> reply.StatsReplied? && reply.ok && reply.topDonors.Some?
    ensures r.Some? ==> r.value == ToShow(reply.topDonors.value)
  {
    if reply.StatsReplied? && reply.ok && reply.topDonors.Some? then Some(ToShow(reply.topDonors.value)) else None
  }

  // ---------------------------------------------------------------------------------------
  // The cycle as a state machine.

  /** Where the cycle is: its fetch in flight, the loop showing entries, or waiting for the next cycle. */
  datatype Phase = Fetching | Showing(rest: seq<Entry>) | Scheduled(delayMs: nat)

  /** `isTopDonorViewActive`, `currentTopDonor` and the cycle's phase. */
  datatype Takeover = Takeover(active: bool, current: Option<Entry>, phase: Phase)

  /** On mount the first cycle is started at once. */
  const Mounted := Takeover(false, None, Fetching)

  /** After the `finally` block: the view inactive, no current top donor, the next cycle due in 30 s. */
  const Ended := Takeover(false, None, Scheduled(IntervalMs))

  /** The view is active exactly while the loop runs, and exactly then a top donor is current. */
  predicate Valid(t: Takeover)
  {
    t.active == t.phase.Showing? && t.active == t.current.Some?
  }

  /**
   * The cycle's fetch completing. A failed or invalid reply, or an empty list, goes straight
   * to the `finally` block; otherwise the view becomes active showing the first entry.
   */
  function Begin(t: Takeover, reply: StatsReply): (r: Takeover)
    requires Valid(t)
    ensures Valid(r)
    ensures !t.phase.Fetching? ==> r == t
    ensures t.phase.Fetching? && (ShowList(reply).None? || ShowList(reply).value == []) ==> r == Ended
    ensures t.phase.Fetching? && ShowList(reply).Some? && ShowList(reply).value != [] ==>
              var l := ShowList(reply).value; r == Takeover(true, Some(l[0]), Showing(l[1..]))
  {
    if !t.phase.Fetching? then t
    else match ShowList(reply)
      case None => Ended
      case Some(l) => if l == [] then Ended else Takeover(true, Some(l[0]), Showing(l[1..]))
  }

  /** A 4 s display step ending: the next entry becomes current, or after the last one the `finally` block runs. */
  function Step(t: Takeover): (r: Takeover)
    requires Valid(t)
    ensures Valid(r)
    ensures !t.phase.Showing? ==> r == t
    ensures t.phase.Showing? && t.phase.rest == [] ==> r == Ended
    ensures t.phase.Showing? && t.phase.rest != [] ==>
              r == Takeover(true, Some(t.phase.rest[0]), Showing(t.phase.rest[1..]))
  {
    match t.phase
    case Showing(rest) => if rest == [] then Ended else Takeover(true, Some(rest[0]), Showing(rest[1..]))
    case _ => t
  }

  /** The 30 s timeout firing: the next cycle starts its fetch. */
  function Fire(t: Takeover): (r: Takeover)
    requires Valid(t)
    ensures Valid(r)
    ensures t.phase.Scheduled? ==> r == Takeover(false, None, Fetching)
    ensures !t.phase.Scheduled? ==> r == t
  {
    if t.phase.Scheduled? then Takeover(false, None, Fetching) else t
  }

  /**
   * The `for` loop of `cycleTopDonors` from the first entry on: each entry becomes current in
   * turn, one 4 s step each, and after the last one the `finally` block runs.
   */
  method ShowEntries(t0: Takeover) returns (shown: seq<Entry>, t: Takeover)
    requires Valid(t0) && t0.active
    ensures shown == [t0.current.value] + t0.phase.rest
    ensures t == Ended
  {
    t := t0;
    shown := [t.current.value];
    while t.active
      invariant Valid(t)
      invariant t.active ==> shown + t.phase.rest == [t0.current.value] + t0.phase.rest
      invariant t.active ==> t.current == Some(shown[|shown| - 1])
      invariant !t.active ==> t == Ended && shown == [t0.current.value] + t0.phase.rest
      invariant |shown| > 0
      decreases if t.active then |t.phase.rest| + 1 else 0
    {
      var rest := t.phase.rest;
      t := Step(t);
      if t.active {
        shown := shown + [t.current.value];
        assert [rest[0]] + rest[1..] == rest;
      }
    }
  }

  /**
   * One `cycleTopDonors` run with nothing else happening meanwhile: the fetch, the loop over
   * the entries to show, and the `finally` block. Every entry is shown once, in order.
   */
  method Cycle(reply: StatsReply) returns (shown: seq<Entry>, t: Takeover)
    ensures shown == match ShowList(reply) case None => [] case Some(l) => l
    ensures t == Ended
  {
    t := Begin(Mounted, reply);
    if t.active {
      shown, t := ShowEntries(t);
      assert [ShowList(reply).value[0]] + ShowList(reply).value[1..] == ShowList(reply).value;
    } else {
      shown := [];
    }
  }
}
