/**
 * Donors, the donor poll and the new-donor detector shared by every widget page.
 * A donor record is a value; two records are the same donation when their ids match.
 */
module Donors {
  import opened Optional

  /** One entry of `recentDonors`: the id is the identity, the name and amount are shown. */
  datatype Donor = Donor(id: string, name: string, amount: int)

  /**
   * What a donor poll delivers: the fetch or the JSON parse threw, or a reply arrived
   * whose `ok` flag and optional `data.recentDonors` list the handler inspects.
   */
  datatype DonorReply =
    | FetchFailed
    | Replied(ok: bool, recentDonors: Option<seq<Donor>>)

  /** Some donor of `prev` carries the id. */
  ghost predicate Known(prev: seq<Donor>, id: string)
  {
    exists p :: p in prev && p.id == id
  }

  /** `prev.find((p) => p.id === id)`: the first donor of `prev` with that id, if any. */
  function Find(prev: seq<Donor>, id: string): (r: Option<Donor>)
    ensures r.Some? <==> Known(prev, id)
    ensures r.Some? ==> r.value in prev && r.value.id == id
    ensures forall k :: 0 <= k < |prev| && prev[k].id == id && (forall j :: 0 <= j < k ==> prev[j].id != id)
                        ==> r == Some(prev[k])
  {
    if prev == [] then None
    else if prev[0].id == id then Some(prev[0])
    else
      var r := Find(prev[1..], id);
      assert forall k :: 0 < k < |prev| ==> prev[k] == prev[1..][k - 1];
      r
  }

  /**
   * The new-donor detector: the donors of the latest snapshot whose id does not occur in
   * the previous snapshot, in the latest snapshot's order (`recentDonors.filter(...)`).
   */
  function NewDonors(latest: seq<Donor>, prev: seq<Donor>): (r: seq<Donor>)
    ensures |r| <= |latest|
    ensures forall d :: d in r <==> d in latest && !Known(prev, d.id)
  {
    if latest == [] then []
    else
      var head := if Find(prev, latest[0].id).Some? then [] else [latest[0]];
      var tail := NewDonors(latest[1..], prev);
      assert latest == [latest[0]] + latest[1..];
      head + tail
  }

  /** The detector distributes over concatenation, so it keeps the latest snapshot's order. */
  lemma {:induction false} NewDonorsAppend(a: seq<Donor>, b: seq<Donor>, prev: seq<Donor>)
    ensures NewDonors(a + b, prev) == NewDonors(a, prev) + NewDonors(b, prev)
  {
    if a == [] {
      assert a + b == b;
    } else {
      assert (a + b)[0] == a[0];
      assert (a + b)[1..] == a[1..] + b;
      NewDonorsAppend(a[1..], b, prev);
    }
  }

  /** A single donor is reported exactly when its id is missing from the previous snapshot. */
  lemma NewDonorsSingle(d: Donor, prev: seq<Donor>)
    ensures NewDonors([d], prev) == if Known(prev, d.id) then [] else [d]
  {
    assert [d][1..] == [];
  }

  /** Against an empty previous snapshot every donor looks new: the reason for the first-load suppression. */
  lemma {:induction false} EverythingNewOnFirstLoad(latest: seq<Donor>)
    ensures NewDonors(latest, []) == latest
  {
    if latest != [] {
      EverythingNewOnFirstLoad(latest[1..]);
    }
  }

  /** Nothing is reported when every donor of the latest snapshot is already known. */
  lemma {:induction false} NothingNewWhenAllKnown(latest: seq<Donor>, prev: seq<Donor>)
    requires forall d :: d in latest ==> Known(prev, d.id)
    ensures NewDonors(latest, prev) == []
  {
    if latest != [] {
      assert latest[0] in latest;
      assert forall d :: d in latest[1..] ==> d in latest;
      NothingNewWhenAllKnown(latest[1..], prev);
    }
  }

  /** Diffing a snapshot against itself reports nothing: re-running the diff effect is harmless. */
  lemma NothingNewAgainstItself(s: seq<Donor>)
    ensures NewDonors(s, s) == []
  {
    NothingNewWhenAllKnown(s, s);
  }

  /** `slice(0, n)`: the dashboard keeps the first eight donors of a reply. */
  function FirstN<T>(s: seq<T>, n: nat): (r: seq<T>)
    ensures |r| <= n && |r| <= |s|
    ensures r == s[..|r|]
    ensures |s| <= n ==> r == s
    ensures |s| > n ==> |r| == n
  {
    if |s| <= n then s else s[..n]
  }

  /**
   * The name shown for a donor: unchanged when at most `limit` characters long, otherwise
   * its first `limit` characters followed by "...".
   */
  function Truncate(name: string, limit: nat): (r: string)
    ensures |name| <= limit ==> r == name
    ensures |name| > limit ==> |r| == limit + 3 && r[..limit] == name[..limit] && r[limit..] == "..."
    ensures |r| <= limit + 3
  {
    if |name| > limit then name[..limit] + "..." else name
  }
}
