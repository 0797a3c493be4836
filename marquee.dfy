/**
 * Page 001's own helpers: the marquee line built from the recent donors, and the text index
 * that the 10 s interval toggles between 0 and 1.
 */
module Marquee {
  import opened Donors

  /** The character of one decimal digit. */
  function Digit(d: nat): char
    requires d < 10
  {
    ('0' as int + d) as char
  }

  /** The number a string of decimal digits spells (the reading that `NatToString` inverts). */
  function NatValue(s: string): nat
  {
    if s == [] then 0
    else
      var c := s[|s| - 1];
      NatValue(s[..|s| - 1]) * 10 + (if '0' <= c <= '9' then c as int - '0' as int else 0)
  }

  /** A signed number as `-` followed by its digits, or just its digits. */
  function IntValue(s: string): int
  {
    if |s| > 0 && s[0] == '-' then -(NatValue(s[1..]) as int) else NatValue(s)
  }

  /** The digits of a whole number, as JavaScript prints it in a template string: decimal digits spelling n. */
  function NatToString(n: nat): (s: string)
    ensures |s| > 0
    ensures forall k :: 0 <= k < |s| ==> '0' <= s[k] <= '9'
    ensures NatValue(s) == n
    decreases n
  {
    if n < 10 then [Digit(n)]
    else
      var s := NatToString(n / 10) + [Digit(n % 10)];
      assert s[..|s| - 1] == NatToString(n / 10);
      s
  }

  /** A whole number printed in a template string: a minus sign before the digits of a negative one. */
  function IntToString(i: int): (s: string)
    ensures |s| > 0
    ensures IntValue(s) == i
  {
    if i < 0 then
      var s := "-" + NatToString(-i);
      assert s[1..] == NatToString(-i);
      s
    else NatToString(i)
  }

  /** One donor's piece of the marquee: `${donor.name} - ₹${donor.amount} • `. */
  function Piece(d: Donor): (r: string)
    ensures |r| == |d.name| + |IntToString(d.amount)| + 7
    ensures r[..|d.name| + 4] == d.name + " - \U{20B9}"
    ensures IntValue(r[|d.name| + 4..|r| - 3]) == d.amount
    ensures r[|r| - 3..] == " \U{2022} "
  {
    d.name + " - \U{20B9}" + IntToString(d.amount) + " \U{2022} "
  }

  /** The strings one after the other. */
  function Join(ps: seq<string>): string
  {
    if ps == [] then "" else Join(ps[..|ps| - 1]) + ps[|ps| - 1]
  }

  /** Joining two lists of strings one after the other joins each and concatenates. */
  lemma {:induction false} JoinAppend(a: seq<string>, b: seq<string>)
    ensures Join(a + b) == Join(a) + Join(b)
  {
    if b == [] {
      assert a + b == a;
    } else {
      assert (a + b)[..|a + b| - 1] == a + b[..|b| - 1];
      JoinAppend(a, b[..|b| - 1]);
    }
  }

  /** Each donor's piece, in list order. */
  function Pieces(ds: seq<Donor>): (r: seq<string>)
    ensures |r| == |ds|
    ensures forall k :: 0 <= k < |ds| ==> r[k] == Piece(ds[k])
  {
    seq(|ds|, k requires 0 <= k < |ds| => Piece(ds[k]))
  }

  /** The marquee of a donor list: the pieces of all donors, in list order. */
  function MarqueeOf(ds: seq<Donor>): string
  {
    Join(Pieces(ds))
  }

  /** The marquee of two lists one after the other is the one marquee followed by the other. */
  lemma MarqueeAppend(a: seq<Donor>, b: seq<Donor>)
    ensures MarqueeOf(a + b) == MarqueeOf(a) + MarqueeOf(b)
  {
    assert Pieces(a + b) == Pieces(a) + Pieces(b);
    JoinAppend(Pieces(a), Pieces(b));
  }

  /** The marquee of one donor is that donor's piece. */
  lemma MarqueeSingle(d: Donor)
    ensures MarqueeOf([d]) == Piece(d)
  {
    assert Pieces([d]) == [Piece(d)];
    assert [Piece(d)][..0] == [];
    assert Join([Piece(d)]) == Join([]) + Piece(d);
    assert "" + Piece(d) == Piece(d);
  }

  /** Every donor's piece appears, at the position the earlier donors' pieces end. */
  lemma PieceAt(ds: seq<Donor>, k: nat)
    requires k < |ds|
    ensures MarqueeOf(ds) == MarqueeOf(ds[..k]) + Piece(ds[k]) + MarqueeOf(ds[k + 1..])
  {
    assert ds == ds[..k] + [ds[k]] + ds[k + 1..];
    MarqueeAppend(ds[..k] + [ds[k]], ds[k + 1..]);
    MarqueeAppend(ds[..k], [ds[k]]);
    MarqueeSingle(ds[k]);
  }

  /** One more donor adds that donor's piece at the end. */
  lemma MarqueeStep(ds: seq<Donor>, i: nat)
    requires i < |ds|
    ensures MarqueeOf(ds[..i + 1]) == MarqueeOf(ds[..i]) + Piece(ds[i])
  {
    assert ds[..i + 1] == ds[..i] + [ds[i]];
    MarqueeAppend(ds[..i], [ds[i]]);
    MarqueeSingle(ds[i]);
  }

  /** `donorsString`, built by a `forEach` loop that appends each donor's piece in turn. */
  method DonorsString(recentDonors: seq<Donor>) returns (s: string)
    ensures s == MarqueeOf(recentDonors)
  {
    s := "";
    var i := 0;
    while i < |recentDonors|
      invariant 0 <= i <= |recentDonors|
      invariant s == MarqueeOf(recentDonors[..i])
    {
      MarqueeStep(recentDonors, i);
      s := s + Piece(recentDonors[i]);
      i := i + 1;
    }
    assert recentDonors[..i] == recentDonors;
  }

  /** One 10 s step of the text toggle, `(prevIndex + 1) % 2`. */
  function NextTextIndex(i: nat): (r: nat)
    ensures r < 2
    ensures i < 2 ==> r == 1 - i
  {
    (i + 1) % 2
  }

  /** The text index after `steps` toggles from the initial 0. */
  function TextIndexAfter(steps: nat): (r: nat)
    ensures r < 2
  {
    if steps == 0 then 0 else NextTextIndex(TextIndexAfter(steps - 1))
  }

  /** The two texts alternate: after an even number of steps the first is shown, after an odd number the second. */
  lemma {:induction false} TextAlternates(steps: nat)
    ensures TextIndexAfter(steps) == steps % 2
  {
    if steps > 0 {
      TextAlternates(steps - 1);
    }
  }
}
