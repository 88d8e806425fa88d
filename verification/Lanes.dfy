/** Supplemental ("extra info") events reach a redirect chain without saying
    which hop they belong to. A lane is what one chain knows about one kind of
    them: what each hop holds, and the queue of those not yet attached. The
    recorder drives two lanes per chain, one for request extras and one for
    response extras, with the same rules, so the rules are proved once here. */
module Lanes {
  import opened Common

  // What a hop has learnt about its extra info: nothing yet, that none comes,
  // or that one request extra and one response extra come.
  datatype Expectation = Unknown | NotExpected | Expected

  datatype Lane<+X> = Lane(held: seq<Option<X>>, pending: seq<X>)

  // One pass of reconcileExtraInfo: walk the hops in order, stop at the first
  // unknown one or when the queue runs dry at a hop that needs an event.
  function Fill<X>(gates: seq<Expectation>, lane: Lane<X>): (r: Lane<X>)
    requires |gates| == |lane.held|
    ensures |r.held| == |gates|
  {
    if gates == [] || gates[0].Unknown? then lane
    else if gates[0].NotExpected? || lane.held[0].Some? then
      var rest := Fill(gates[1..], Lane(lane.held[1..], lane.pending));
      Lane([lane.held[0]] + rest.held, rest.pending)
    else if lane.pending == [] then lane
    else
      var rest := Fill(gates[1..], Lane(lane.held[1..], lane.pending[1..]));
      Lane([Some(lane.pending[0])] + rest.held, rest.pending)
  }

  // The events attached to the hops, in hop order.
  function Attached<X>(held: seq<Option<X>>): seq<X> {
    if held == [] then []
    else (if held[0].Some? then [held[0].value] else []) + Attached(held[1..])
  }

  // Everything the lane keeps, attached first, then queued.
  function Contents<X>(lane: Lane<X>): seq<X> {
    Attached(lane.held) + lane.pending
  }

  // Only the newest hop may still be waiting for its expectation.
  ghost predicate OnlyLastUnknown(gates: seq<Expectation>) {
    forall i {:trigger gates[i]} :: 0 <= i < |gates| - 1 ==> !gates[i].Unknown?
  }

  // No hop holds an event while an earlier hop that expects one lacks it.
  ghost predicate InOrder<X>(gates: seq<Expectation>, held: seq<Option<X>>)
    requires |gates| == |held|
  {
    forall i, j {:trigger gates[i], held[j]} ::
      0 <= i < j < |held| && gates[i].Expected? && held[j].Some? ==> held[i].Some?
  }

  // No queued event could still be attached.
  ghost predicate Settled<X>(gates: seq<Expectation>, lane: Lane<X>)
    requires |gates| == |lane.held|
  {
    lane.pending == [] || forall i {:trigger gates[i]} :: 0 <= i < |gates| && gates[i].Expected? ==> lane.held[i].Some?
  }

  // A hop still waiting for its expectation holds nothing.
  ghost predicate UnknownHoldsNone<X>(gates: seq<Expectation>, held: seq<Option<X>>)
    requires |gates| == |held|
  {
    forall i {:trigger gates[i]} :: 0 <= i < |gates| && gates[i].Unknown? ==> held[i].None?
  }

  ghost predicate LaneOk<X>(gates: seq<Expectation>, lane: Lane<X>) {
    && |gates| == |lane.held|
    && OnlyLastUnknown(gates)
    && InOrder(gates, lane.held)
    && UnknownHoldsNone(gates, lane.held)
    && Settled(gates, lane)
  }

  lemma {:induction false} AttachedNone<X>(held: seq<Option<X>>)
    requires forall i :: 0 <= i < |held| ==> held[i].None?
    ensures Attached(held) == []
  {
    if held != [] {
      AttachedNone(held[1..]);
    }
  }

  lemma {:induction false} AttachedConcat<X>(a: seq<Option<X>>, b: seq<Option<X>>)
    ensures Attached(a + b) == Attached(a) + Attached(b)
  {
    if a == [] {
      assert a + b == b;
    } else {
      assert (a + b)[1..] == a[1..] + b;
      AttachedConcat(a[1..], b);
      ConcatAssociates(if a[0].Some? then [a[0].value] else [], Attached(a[1..]), Attached(b));
    }
  }

  lemma ContentsCons<X>(first: Option<X>, lane: Lane<X>)
    ensures Contents(Lane([first] + lane.held, lane.pending))
         == (if first.Some? then [first.value] else []) + Contents(lane)
  {
    assert ([first] + lane.held)[1..] == lane.held;
  }

  // Filling moves events from the queue onto hops and keeps their order.
  lemma {:induction false} FillConserves<X>(gates: seq<Expectation>, lane: Lane<X>)
    requires |gates| == |lane.held|
    requires InOrder(gates, lane.held)
    ensures Contents(Fill(gates, lane)) == Contents(lane)
  {
    if gates != [] && !gates[0].Unknown? {
      var tail := lane.held[1..];
      assert forall j :: 0 <= j < |tail| ==> tail[j] == lane.held[j + 1];
      assert lane.held == [lane.held[0]] + tail;
      assert InOrder(gates[1..], tail);
      if gates[0].NotExpected? || lane.held[0].Some? {
        var rest := Lane(tail, lane.pending);
        FillConserves(gates[1..], rest);
        ContentsCons(lane.held[0], rest);
        ContentsCons(lane.held[0], Fill(gates[1..], rest));
      } else if lane.pending != [] {
        var rest := Lane(tail, lane.pending[1..]);
        assert forall j :: 0 <= j < |tail| ==> tail[j].None?;
        AttachedNone(tail);
        FillConserves(gates[1..], rest);
        ContentsCons(Some(lane.pending[0]), Fill(gates[1..], rest));
        assert lane.pending == [lane.pending[0]] + lane.pending[1..];
      }
    }
  }

  // After filling, the lane obeys its rules again; only Settled was at stake.
  lemma {:induction false} FillSettles<X>(gates: seq<Expectation>, lane: Lane<X>)
    requires |gates| == |lane.held|
    requires OnlyLastUnknown(gates) && InOrder(gates, lane.held) && UnknownHoldsNone(gates, lane.held)
    ensures LaneOk(gates, Fill(gates, lane))
  {
    if gates != [] && !gates[0].Unknown? {
      var tail := lane.held[1..];
      assert forall j :: 0 <= j < |tail| ==> tail[j] == lane.held[j + 1];
      assert forall j :: 0 <= j < |gates[1..]| ==> gates[1..][j] == gates[j + 1];
      var filled := Fill(gates, lane);
      if gates[0].NotExpected? || lane.held[0].Some? {
        FillSettles(gates[1..], Lane(tail, lane.pending));
      } else if lane.pending != [] {
        FillSettles(gates[1..], Lane(tail, lane.pending[1..]));
      }
      assert forall j :: 1 <= j < |gates| ==> gates[j] == gates[1..][j - 1];
      assert filled == lane || forall j :: 1 <= j < |gates| ==> filled.held[j] == filled.held[1..][j - 1];
    }
  }

  // Settled is exactly the fixpoint of filling.
  lemma {:induction false} SettledIffFixpoint<X>(gates: seq<Expectation>, lane: Lane<X>)
    requires |gates| == |lane.held| && OnlyLastUnknown(gates) && InOrder(gates, lane.held)
    ensures Settled(gates, lane) <==> Fill(gates, lane) == lane
    ensures Settled(gates, lane) <==> |Fill(gates, lane).pending| == |lane.pending|
  {
    if gates != [] && !gates[0].Unknown? {
      var tail := lane.held[1..];
      assert forall j :: 0 <= j < |tail| ==> tail[j] == lane.held[j + 1];
      assert forall j :: 0 <= j < |gates[1..]| ==> gates[1..][j] == gates[j + 1];
      if gates[0].NotExpected? || lane.held[0].Some? {
        var rest := Lane(tail, lane.pending);
        SettledIffFixpoint(gates[1..], rest);
        assert Settled(gates, lane) <==> Settled(gates[1..], rest);
        assert lane.held == [lane.held[0]] + tail;
      } else if lane.pending != [] {
        FillPendingShrinks(gates[1..], Lane(tail, lane.pending[1..]));
      }
    }
  }

  lemma {:induction false} FillPendingShrinks<X>(gates: seq<Expectation>, lane: Lane<X>)
    requires |gates| == |lane.held|
    ensures |Fill(gates, lane).pending| <= |lane.pending|
  {
    if gates != [] && !gates[0].Unknown? {
      if gates[0].NotExpected? || lane.held[0].Some? {
        FillPendingShrinks(gates[1..], Lane(lane.held[1..], lane.pending));
      } else if lane.pending != [] {
        FillPendingShrinks(gates[1..], Lane(lane.held[1..], lane.pending[1..]));
      }
    }
  }

  // The lane that filling ends with, when the hops before i are already done.
  function FillFrom<X>(gates: seq<Expectation>, lane: Lane<X>, i: nat): Lane<X>
    requires |gates| == |lane.held| && i <= |gates|
  {
    var rest := Fill(gates[i..], Lane(lane.held[i..], lane.pending));
    Lane(lane.held[..i] + rest.held, rest.pending)
  }

  lemma FillFromStart<X>(gates: seq<Expectation>, lane: Lane<X>)
    requires |gates| == |lane.held|
    ensures FillFrom(gates, lane, 0) == Fill(gates, lane)
    ensures FillFrom(gates, lane, |gates|) == lane
  {
    assert gates[0..] == gates && lane.held[0..] == lane.held;
    assert lane.held[..|gates|] == lane.held;
  }

  // The walk stops at a hop that is unknown, or that lacks what the queue lacks.
  lemma FillFromStops<X>(gates: seq<Expectation>, lane: Lane<X>, i: nat)
    requires |gates| == |lane.held| && i < |gates|
    requires gates[i].Unknown? || (gates[i].Expected? && lane.held[i].None? && lane.pending == [])
    ensures FillFrom(gates, lane, i) == lane
  {
    assert lane.held[..i] + lane.held[i..] == lane.held;
  }

  // It passes over a hop that needs nothing.
  lemma FillFromPasses<X>(gates: seq<Expectation>, lane: Lane<X>, i: nat)
    requires |gates| == |lane.held| && i < |gates|
    requires !gates[i].Unknown? && (gates[i].NotExpected? || lane.held[i].Some?)
    ensures FillFrom(gates, lane, i) == FillFrom(gates, lane, i + 1)
  {
    assert gates[i..][1..] == gates[i + 1..] && lane.held[i..][1..] == lane.held[i + 1..];
    assert lane.held[..i] + [lane.held[i]] == lane.held[..i + 1];
  }

  // It attaches the oldest queued event to a hop that needs one.
  lemma FillFromAttaches<X>(gates: seq<Expectation>, lane: Lane<X>, i: nat)
    requires |gates| == |lane.held| && i < |gates|
    requires gates[i].Expected? && lane.held[i].None? && lane.pending != []
    ensures FillFrom(gates, lane, i)
            == FillFrom(gates, Lane(lane.held[i := Some(lane.pending[0])], lane.pending[1..]), i + 1)
  {
    var filled := lane.held[i := Some(lane.pending[0])];
    assert gates[i..][1..] == gates[i + 1..] && lane.held[i..][1..] == lane.held[i + 1..];
    assert filled[..i + 1] == lane.held[..i] + [filled[i]] && filled[i + 1..] == lane.held[i + 1..];
  }
}
