/** Values shared by every part of the bar pipeline: OHLCV bars, their order and
    the timestamp window a reader accepts (`crates/bar-store/src/lib.rs`). */
module Bars {
  import opened Picking

  /** A value that may be missing. */
  datatype Option<+T> = None | Some(value: T)

  type Byte = bv8

  type I64 = x: int | -0x8000_0000_0000_0000 <= x < 0x8000_0000_0000_0000

  /** A 64-bit float, kept as its bit pattern. */
  type F64 = x: nat | x < 0x1_0000_0000_0000_0000

  /** The two float operations the pipeline uses. They are parameters, so every
      result below holds for IEEE arithmetic as it is, rounding and NaN included. */
  datatype Float = Float(gt: (F64, F64) -> bool, add: (F64, F64) -> F64)

  datatype Bar = Bar(timestamp: I64, open: F64, high: F64, low: F64, close: F64, volume: F64)

  /** Timestamps strictly increase: oldest first, no timestamp twice. */
  ghost predicate Ascending(bars: seq<Bar>) {
    forall i, j :: 0 <= i < j < |bars| ==> bars[i].timestamp < bars[j].timestamp
  }

  predicate InWindow(bar: Bar) {
    1_000_000_000 <= bar.timestamp <= 9_999_999_999
  }

  /** The bars a reader keeps. */
  function Accepted(bars: seq<Bar>): (kept: seq<Bar>)
  {
    if bars == [] then []
    else if InWindow(bars[0]) then [bars[0]] + Accepted(bars[1..])
    else Accepted(bars[1..])
  }

  lemma {:induction false} AcceptedMembers(bars: seq<Bar>)
    ensures forall b :: b in Accepted(bars) <==> b in bars && InWindow(b)
  {
    if bars != [] {
      AcceptedMembers(bars[1..]);
      assert bars == [bars[0]] + bars[1..];
    }
  }

  lemma {:induction false} AcceptedAscending(bars: seq<Bar>)
    requires Ascending(bars)
    ensures Ascending(Accepted(bars))
  {
    if bars != [] {
      AcceptedAscending(bars[1..]);
      AcceptedMembers(bars[1..]);
      forall b | b in Accepted(bars[1..])
        ensures bars[0].timestamp < b.timestamp
      {
        assert b in bars[1..];
      }
    }
  }

  /** Filtering an already filtered list changes nothing. */
  lemma {:induction false} AcceptedFixpoint(bars: seq<Bar>)
    requires forall b :: b in bars ==> InWindow(b)
    ensures Accepted(bars) == bars
  {
    if bars != [] {
      AcceptedFixpoint(bars[1..]);
      assert bars == [bars[0]] + bars[1..];
    }
  }

  lemma AcceptedIdempotent(bars: seq<Bar>)
    ensures Accepted(Accepted(bars)) == Accepted(bars)
  {
    AcceptedMembers(bars);
    AcceptedFixpoint(Accepted(bars));
  }

  lemma {:induction false} AcceptedAppend(a: seq<Bar>, b: seq<Bar>)
    ensures Accepted(a + b) == Accepted(a) + Accepted(b)
  {
    if a == [] {
      assert a + b == b;
    } else {
      AcceptedAppend(a[1..], b);
      assert (a + b)[1..] == a[1..] + b;
    }
  }

  /** Which bars are stamped from 1_000_000_000 to 9_999_999_999. */
  function InBounds(bars: seq<Bar>): (r: seq<bool>)
    ensures |r| == |bars|
  {
    seq(|bars|, i requires 0 <= i < |bars| => 1_000_000_000 <= bars[i].timestamp <= 9_999_999_999)
  }

  /** The reader keeps exactly the bars within these bounds, in their order. */
  lemma {:induction false} AcceptedPicks(bars: seq<Bar>) returns (idx: seq<nat>)
    ensures Picks(bars, Accepted(bars), idx, InBounds(bars))
  {
    if bars == [] {
      idx := [];
    } else {
      hide Accepted, Picks;
      var init, last := bars[..|bars| - 1], bars[|bars| - 1];
      assert bars == init + [last];
      idx := AcceptedPicks(init);
      AcceptedAppend(init, [last]);
      AcceptedOne(last);
      PickNext(init, Accepted(init), idx, InBounds(init), last, InWindow(last));
      assert InBounds(bars) == InBounds(init) + [InWindow(last)];
      assert Accepted(init) + [] == Accepted(init);
      if InWindow(last) {
        idx := idx + [|init|];
      }
    }
  }

  lemma AcceptedOne(bar: Bar)
    ensures Accepted([bar]) == if InWindow(bar) then [bar] else []
  {
    assert [bar][1..] == [];
  }

  lemma AcceptedBounds(bars: seq<Bar>)
    ensures forall b :: b in Accepted(bars) <==> b in bars && 1_000_000_000 <= b.timestamp <= 9_999_999_999
  {
    hide Accepted;
    AcceptedMembers(bars);
  }
}
