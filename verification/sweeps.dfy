/**
 * The diff discipline of BufferedInput::PollEvents, stated as functions over
 * the sequence of ids a loop visits: a discrete sweep over a boolean state
 * table, an accumulating sweep over a per-axis running total, and the id
 * sequences the poller's loops visit. Every function recurses on the LAST id,
 * so that one more loop iteration is one more unfolding.
 */
module Sweeps {
  import opened Devices

  predicate Distinct<K(==, !new)>(ids: seq<K>) {
    forall i, j :: 0 <= i < j < |ids| ==> ids[i] != ids[j]
  }

  /** Dropping the last of distinct ids leaves distinct ids, none of them the dropped one. */
  lemma DistinctSnoc<K(!new)>(ids: seq<K>)
    requires Distinct(ids) && ids != []
    ensures Distinct(ids[..|ids| - 1])
    ensures ids[|ids| - 1] !in ids[..|ids| - 1]
  {
    var init := ids[..|ids| - 1];
    forall i | 0 <= i < |init| ensures init[i] != ids[|ids| - 1] {
      assert ids[i] != ids[|ids| - 1];
    }
  }

  /** The ids lo, lo + 1, ..., hi - 1, as a `for` loop visits them. */
  function Range(lo: int, hi: int): (r: seq<int>)
    ensures |r| == if hi <= lo then 0 else hi - lo
  {
    if hi <= lo then [] else seq(hi - lo, i => lo + i)
  }

  /** One more loop iteration visits one more id. */
  lemma RangeSnoc(lo: int, hi: int)
    requires lo <= hi
    ensures Range(lo, hi + 1) == Range(lo, hi) + [hi]
  {
    assert forall i :: 0 <= i < hi - lo ==> Range(lo, hi + 1)[i] == Range(lo, hi)[i];
  }

  /** The i-th id visited is lo + i: the ids are distinct and exactly those in [lo, hi). */
  lemma RangeLaw(lo: int, hi: int)
    ensures forall i :: 0 <= i < |Range(lo, hi)| ==> Range(lo, hi)[i] == lo + i
    ensures Distinct(Range(lo, hi))
    ensures forall k :: k in Range(lo, hi) <==> lo <= k < hi
  {
    var r := Range(lo, hi);
    forall k | lo <= k < hi ensures k in r {
      assert r[k - lo] == k;
    }
  }

  /** The pairs (g, 0), ..., (g, n - 1): one gamepad's controls, in loop order. */
  function Pairs(g: int, n: nat): (r: seq<(int, int)>)
    ensures |r| == n
  {
    if n == 0 then [] else Pairs(g, n - 1) + [(g, n - 1)]
  }

  lemma {:induction false} PairsAt(g: int, n: nat)
    ensures forall i :: 0 <= i < n ==> Pairs(g, n)[i] == (g, i)
  {
    if n > 0 {
      PairsAt(g, n - 1);
    }
  }

  /** The (gamepad, control) pairs the nested loops visit for gamepads 0 .. g - 1, skipping unavailable ones. */
  function GamepadIds(available: int -> bool, g: int, n: nat): seq<(int, int)>
    decreases g
  {
    if g <= 0 then []
    else if available(g - 1) then GamepadIds(available, g - 1, n) + Pairs(g - 1, n)
    else GamepadIds(available, g - 1, n)
  }

  /** One more gamepad: its controls are visited after those of the gamepads before it, if it is available. */
  lemma GamepadIdsSnoc(available: int -> bool, g: int, n: nat)
    requires g >= 0
    ensures GamepadIds(available, g + 1, n)
      == if available(g) then GamepadIds(available, g, n) + Pairs(g, n) else GamepadIds(available, g, n)
  {
  }

  /** The visited pairs are exactly those of the available gamepads 0 .. g - 1 with a control 0 .. n - 1. */
  lemma {:induction false} GamepadIdsMembers(available: int -> bool, g: int, n: nat)
    ensures forall p :: p in GamepadIds(available, g, n) <==> 0 <= p.0 < g && available(p.0) && 0 <= p.1 < n
    decreases g
  {
    if g > 0 {
      GamepadIdsMembers(available, g - 1, n);
      if available(g - 1) {
        var a, b := GamepadIds(available, g - 1, n), Pairs(g - 1, n);
        PairsAt(g - 1, n);
        forall p: (int, int) | p.0 == g - 1 && 0 <= p.1 < n ensures p in a + b {
          assert (a + b)[|a| + p.1] == p;
        }
      }
    }
  }

  /** No pair is visited twice. */
  lemma {:induction false} GamepadIdsDistinct(available: int -> bool, g: int, n: nat)
    ensures Distinct(GamepadIds(available, g, n))
    decreases g
  {
    if g > 0 {
      GamepadIdsDistinct(available, g - 1, n);
      if available(g - 1) {
        var a, b := GamepadIds(available, g - 1, n), Pairs(g - 1, n);
        GamepadIdsMembers(available, g - 1, n);
        PairsAt(g - 1, n);
        forall i, j | 0 <= i < j < |a + b| ensures (a + b)[i] != (a + b)[j] {
          if j >= |a| && i < |a| {
            assert a[i] in a;
            assert (a + b)[j] == b[j - |a|];
          } else if i >= |a| {
            assert (a + b)[i] == b[i - |a|] && (a + b)[j] == b[j - |a|];
          }
        }
      }
    }
  }

  lemma GamepadIdsLaw(available: int -> bool, g: int, n: nat)
    ensures Distinct(GamepadIds(available, g, n))
    ensures forall p :: p in GamepadIds(available, g, n) <==> 0 <= p.0 < g && available(p.0) && 0 <= p.1 < n
  {
    GamepadIdsMembers(available, g, n);
    GamepadIdsDistinct(available, g, n);
  }

  // ---------------------------------------------------------------------------
  // Discrete sweep: keyboard keys, mouse buttons, gamepad buttons.

  datatype SweepResult<K> = SweepResult(states: map<K, bool>, fired: seq<K>)

  /** The firing rule: no stored entry yet, or the stored value differs from the reading. */
  predicate Fires<K(==, !new)>(states: map<K, bool>, k: K, isDown: bool) {
    k !in states || states[k] != isDown
  }

  /** One loop iteration: if the reading of `k` fires, store it and record `k`. */
  function SweepStep<K(==, !new)>(r: SweepResult<K>, k: K, down: K -> bool): SweepResult<K> {
    if Fires(r.states, k, down(k)) then SweepResult(r.states[k := down(k)], r.fired + [k]) else r
  }

  /** Visit `ids` in order, one SweepStep each. */
  function Sweep<K(==, !new)>(states: map<K, bool>, ids: seq<K>, down: K -> bool): SweepResult<K>
    decreases |ids|
  {
    if ids == [] then SweepResult(states, [])
    else SweepStep(Sweep(states, ids[..|ids| - 1], down), ids[|ids| - 1], down)
  }

  /** The ids, in order, whose reading fires against the table as it was before the sweep. */
  function Fired<K(==, !new)>(states: map<K, bool>, ids: seq<K>, down: K -> bool): seq<K>
    decreases |ids|
  {
    if ids == [] then []
    else
      var init, k := ids[..|ids| - 1], ids[|ids| - 1];
      if Fires(states, k, down(k)) then Fired(states, init, down) + [k] else Fired(states, init, down)
  }

  /** An id is among the fired ones exactly when it is visited and fires against the old table. */
  lemma {:induction false} FiredMembers<K(!new)>(states: map<K, bool>, ids: seq<K>, down: K -> bool)
    ensures forall k :: k in Fired(states, ids, down) <==> k in ids && Fires(states, k, down(k))
    decreases |ids|
  {
    if ids != [] {
      var init := ids[..|ids| - 1];
      FiredMembers(states, init, down);
      assert ids == init + [ids[|ids| - 1]];
    }
  }

  /** The callback invocations for the fired ids, each with its reading. */
  function Announce<K>(fired: seq<K>, down: K -> bool, notice: (K, bool) -> Event): (r: seq<Event>)
    ensures |r| == |fired|
    decreases |fired|
  {
    if fired == [] then []
    else Announce(fired[..|fired| - 1], down, notice) + [notice(fired[|fired| - 1], down(fired[|fired| - 1]))]
  }

  /** The i-th invocation is the i-th fired id's, carrying that id's reading. */
  lemma {:induction false} AnnounceLaw<K>(fired: seq<K>, down: K -> bool, notice: (K, bool) -> Event)
    ensures forall i :: 0 <= i < |fired| ==> Announce(fired, down, notice)[i] == notice(fired[i], down(fired[i]))
    decreases |fired|
  {
    if fired != [] {
      var init := fired[..|fired| - 1];
      AnnounceLaw(init, down, notice);
      assert forall i :: 0 <= i < |init| ==> init[i] == fired[i];
    }
  }

  /** One more visited id: the sweep takes one more step. */
  lemma SweepSnoc<K(!new)>(states: map<K, bool>, ids: seq<K>, k: K, down: K -> bool)
    ensures Sweep(states, ids + [k], down) == SweepStep(Sweep(states, ids, down), k, down)
  {
    assert (ids + [k])[..|ids|] == ids;
  }

  /** One more fired id: one more invocation at the end. */
  lemma AnnounceSnoc<K>(fired: seq<K>, k: K, down: K -> bool, notice: (K, bool) -> Event)
    ensures Announce(fired + [k], down, notice) == Announce(fired, down, notice) + [notice(k, down(k))]
  {
    assert (fired + [k])[..|fired|] == fired;
  }

  /** A step does not look at the ids fired before: a prefix of them is carried along. */
  lemma SweepStepPrefix<K(!new)>(r: SweepResult<K>, prefix: seq<K>, k: K, down: K -> bool)
    ensures var s := SweepStep(r, k, down);
      SweepStep(SweepResult(r.states, prefix + r.fired), k, down) == SweepResult(s.states, prefix + s.fired)
  {
    assert (prefix + r.fired) + [k] == prefix + (r.fired + [k]);
  }

  /** Sweeping A then B is sweeping A + B: tables are threaded through and the fired ids concatenate. */
  lemma {:induction false} SweepConcat<K(!new)>(states: map<K, bool>, a: seq<K>, b: seq<K>, down: K -> bool)
    ensures var first := Sweep(states, a, down);
      var second := Sweep(first.states, b, down);
      Sweep(states, a + b, down) == SweepResult(second.states, first.fired + second.fired)
    decreases |b|
  {
    if b == [] {
      assert a + b == a;
    } else {
      var init, k := b[..|b| - 1], b[|b| - 1];
      var first := Sweep(states, a, down);
      var mid := Sweep(first.states, init, down);
      SweepConcat(states, a, init, down);
      assert a + b == (a + init) + [k];
      assert b == init + [k];
      SweepSnoc(states, a + init, k, down);
      SweepSnoc(first.states, init, k, down);
      SweepStepPrefix(mid, first.fired, k, down);
    }
  }

  /** The outer gamepad loop's step: sweeping one more gamepad continues from where the earlier ones left off. */
  lemma GamepadSweepStep(states: map<(int, int), bool>, available: int -> bool, g: int, n: nat, down: ((int, int)) -> bool)
    requires g >= 0
    ensures var r := Sweep(states, GamepadIds(available, g, n), down);
      var pad := Sweep(r.states, Pairs(g, n), down);
      Sweep(states, GamepadIds(available, g + 1, n), down)
        == if available(g) then SweepResult(pad.states, r.fired + pad.fired) else r
  {
    GamepadIdsSnoc(available, g, n);
    if available(g) {
      SweepConcat(states, GamepadIds(available, g, n), Pairs(g, n), down);
    }
  }

  lemma {:induction false} AnnounceConcat<K>(f: seq<K>, g: seq<K>, down: K -> bool, notice: (K, bool) -> Event)
    ensures Announce(f + g, down, notice) == Announce(f, down, notice) + Announce(g, down, notice)
    decreases |g|
  {
    if g == [] {
      assert f + g == f;
    } else {
      var init, k := g[..|g| - 1], g[|g| - 1];
      AnnounceConcat(f, init, down, notice);
      assert f + g == (f + init) + [k];
      assert g == init + [k];
      AnnounceSnoc(f + init, k, down, notice);
      AnnounceSnoc(init, k, down, notice);
      var e := notice(k, down(k));
      assert (Announce(f, down, notice) + Announce(init, down, notice)) + [e]
        == Announce(f, down, notice) + (Announce(init, down, notice) + [e]);
    }
  }

  /**
   * Over distinct ids, a sweep leaves every visited id holding its reading,
   * leaves every other entry (present or absent) as it was, and fires exactly
   * the ids that had no entry or a different one, in visiting order.
   */
  lemma {:induction false} SweepLaw<K(!new)>(states: map<K, bool>, ids: seq<K>, down: K -> bool)
    requires Distinct(ids)
    ensures forall k :: k in ids ==> k in Sweep(states, ids, down).states && Sweep(states, ids, down).states[k] == down(k)
    ensures forall k :: k !in ids ==> (k in Sweep(states, ids, down).states <==> k in states)
    ensures forall k :: k !in ids && k in states ==> Sweep(states, ids, down).states[k] == states[k]
    ensures Sweep(states, ids, down).fired == Fired(states, ids, down)
    decreases |ids|
  {
    if ids != [] {
      var init := ids[..|ids| - 1];
      var k := ids[|ids| - 1];
      assert ids == init + [k];
      DistinctSnoc(ids);
      SweepLaw(states, init, down);
    }
  }

  /**
   * SweepLaw for the ids lo .. hi - 1: those ids hold their readings, every
   * other entry is as it was, and the fired ids are those in range that fire.
   */
  lemma SweepRangeLaw(states: map<int, bool>, lo: int, hi: int, down: int -> bool)
    ensures var r := Sweep(states, Range(lo, hi), down);
      && (forall k :: lo <= k < hi ==> k in r.states && r.states[k] == down(k))
      && (forall k :: !(lo <= k < hi) ==> (k in r.states <==> k in states))
      && (forall k :: !(lo <= k < hi) && k in states ==> r.states[k] == states[k])
      && (forall k :: k in r.fired <==> lo <= k < hi && Fires(states, k, down(k)))
      && r.fired == Fired(states, Range(lo, hi), down)
  {
    RangeLaw(lo, hi);
    SweepLaw(states, Range(lo, hi), down);
    FiredMembers(states, Range(lo, hi), down);
  }

  /** First observation: against an empty table every visited id fires. */
  lemma {:induction false} FiredFromEmpty<K(!new)>(ids: seq<K>, down: K -> bool)
    ensures Fired(map[], ids, down) == ids
    decreases |ids|
  {
    if ids != [] {
      FiredFromEmpty(ids[..|ids| - 1], down);
      assert ids == ids[..|ids| - 1] + [ids[|ids| - 1]];
    }
  }

  /** Against a table that already holds every reading, the sweep fires nothing and changes nothing. */
  lemma {:induction false} SweepWhenSettled<K(!new)>(states: map<K, bool>, ids: seq<K>, down: K -> bool)
    requires forall k :: k in ids ==> k in states && states[k] == down(k)
    ensures Sweep(states, ids, down) == SweepResult(states, [])
    decreases |ids|
  {
    if ids != [] {
      assert ids[|ids| - 1] in ids;
      assert forall k :: k in ids[..|ids| - 1] ==> k in ids;
      SweepWhenSettled(states, ids[..|ids| - 1], down);
    }
  }

  /** Sweeping the same readings twice: the second sweep fires nothing and changes nothing. */
  lemma SweepSettles<K(!new)>(states: map<K, bool>, ids: seq<K>, down: K -> bool)
    requires Distinct(ids)
    ensures var once := Sweep(states, ids, down);
      Sweep(once.states, ids, down) == SweepResult(once.states, [])
  {
    SweepLaw(states, ids, down);
    SweepWhenSettled(Sweep(states, ids, down).states, ids, down);
  }

  // ---------------------------------------------------------------------------
  // Accumulating sweep: gamepad axes.

  datatype AxisSweepResult = AxisSweepResult(states: map<(int, int), real>, events: seq<Event>)

  /** The running total of an axis; an axis with no entry counts as 0. */
  function Total(states: map<(int, int), real>, k: (int, int)): real {
    if k in states then states[k] else 0.0
  }

  /** One loop iteration: a nonzero movement of `k` is added into its total and reported with it. */
  function AxisStep(r: AxisSweepResult, k: (int, int), move: ((int, int)) -> real): AxisSweepResult {
    if move(k) != 0.0 then
      var value := Total(r.states, k) + move(k);
      AxisSweepResult(r.states[k := value], r.events + [GamepadAxisEvent(k.0, k.1, value, move(k))])
    else r
  }

  /** Visit `ids` in order, one AxisStep each. */
  function AxisSweep(states: map<(int, int), real>, ids: seq<(int, int)>, move: ((int, int)) -> real): AxisSweepResult
    decreases |ids|
  {
    if ids == [] then AxisSweepResult(states, [])
    else AxisStep(AxisSweep(states, ids[..|ids| - 1], move), ids[|ids| - 1], move)
  }

  /** The ids, in order, whose movement is nonzero. */
  function Moved(ids: seq<(int, int)>, move: ((int, int)) -> real): (r: seq<(int, int)>)
    ensures |r| <= |ids|
    decreases |ids|
  {
    if ids == [] then []
    else
      var init, k := ids[..|ids| - 1], ids[|ids| - 1];
      if move(k) != 0.0 then Moved(init, move) + [k] else Moved(init, move)
  }

  /** The axis callback invocations for the moved ids: (new total against the old table, movement). */
  function AxisNotices(moved: seq<(int, int)>, states: map<(int, int), real>, move: ((int, int)) -> real): (r: seq<Event>)
    ensures |r| == |moved|
    decreases |moved|
  {
    if moved == [] then []
    else
      var k := moved[|moved| - 1];
      AxisNotices(moved[..|moved| - 1], states, move) + [GamepadAxisEvent(k.0, k.1, Total(states, k) + move(k), move(k))]
  }

  /**
   * Over distinct ids, an accumulating sweep adds each nonzero movement to its
   * axis's total and leaves zero-movement axes and unvisited entries as they
   * were (an absent entry stays absent).
   */
  lemma {:induction false} AxisSweepStates(states: map<(int, int), real>, ids: seq<(int, int)>, move: ((int, int)) -> real)
    requires Distinct(ids)
    ensures forall k :: k in ids && move(k) != 0.0 ==>
      k in AxisSweep(states, ids, move).states && AxisSweep(states, ids, move).states[k] == Total(states, k) + move(k)
    ensures forall k :: (k !in ids || move(k) == 0.0) ==> (k in AxisSweep(states, ids, move).states <==> k in states)
    ensures forall k :: (k !in ids || move(k) == 0.0) && k in states ==> AxisSweep(states, ids, move).states[k] == states[k]
    decreases |ids|
  {
    if ids != [] {
      var init := ids[..|ids| - 1];
      var k := ids[|ids| - 1];
      assert ids == init + [k];
      DistinctSnoc(ids);
      AxisSweepStates(states, init, move);
    }
  }

  /** One more visited axis: the accumulating sweep takes one more step. */
  lemma AxisSweepSnoc(states: map<(int, int), real>, ids: seq<(int, int)>, k: (int, int), move: ((int, int)) -> real)
    ensures AxisSweep(states, ids + [k], move) == AxisStep(AxisSweep(states, ids, move), k, move)
  {
    assert (ids + [k])[..|ids|] == ids;
  }

  /** A step does not look at the reports made before: a prefix of them is carried along. */
  lemma AxisStepPrefix(r: AxisSweepResult, prefix: seq<Event>, k: (int, int), move: ((int, int)) -> real)
    ensures var s := AxisStep(r, k, move);
      AxisStep(AxisSweepResult(r.states, prefix + r.events), k, move) == AxisSweepResult(s.states, prefix + s.events)
  {
    if move(k) != 0.0 {
      var e := GamepadAxisEvent(k.0, k.1, Total(r.states, k) + move(k), move(k));
      assert (prefix + r.events) + [e] == prefix + (r.events + [e]);
    }
  }

  /** Accumulating over A then B is accumulating over A + B. */
  lemma {:induction false} AxisSweepConcat(states: map<(int, int), real>, a: seq<(int, int)>, b: seq<(int, int)>, move: ((int, int)) -> real)
    ensures var first := AxisSweep(states, a, move);
      var second := AxisSweep(first.states, b, move);
      AxisSweep(states, a + b, move) == AxisSweepResult(second.states, first.events + second.events)
    decreases |b|
  {
    if b == [] {
      assert a + b == a;
    } else {
      var init, k := b[..|b| - 1], b[|b| - 1];
      var first := AxisSweep(states, a, move);
      var mid := AxisSweep(first.states, init, move);
      AxisSweepConcat(states, a, init, move);
      assert a + b == (a + init) + [k];
      assert b == init + [k];
      AxisSweepSnoc(states, a + init, k, move);
      AxisSweepSnoc(first.states, init, k, move);
      AxisStepPrefix(mid, first.events, k, move);
    }
  }

  /** The outer gamepad loop's step for axes. */
  lemma GamepadAxisSweepStep(states: map<(int, int), real>, available: int -> bool, g: int, n: nat, move: ((int, int)) -> real)
    requires g >= 0
    ensures var r := AxisSweep(states, GamepadIds(available, g, n), move);
      var pad := AxisSweep(r.states, Pairs(g, n), move);
      AxisSweep(states, GamepadIds(available, g + 1, n), move)
        == if available(g) then AxisSweepResult(pad.states, r.events + pad.events) else r
  {
    GamepadIdsSnoc(available, g, n);
    if available(g) {
      AxisSweepConcat(states, GamepadIds(available, g, n), Pairs(g, n), move);
    }
  }

  /** Over distinct ids, the sweep reports (new total, movement) for the moved axes, in visiting order. */
  lemma {:induction false} AxisSweepEvents(states: map<(int, int), real>, ids: seq<(int, int)>, move: ((int, int)) -> real)
    requires Distinct(ids)
    ensures AxisSweep(states, ids, move).events == AxisNotices(Moved(ids, move), states, move)
    decreases |ids|
  {
    if ids != [] {
      var init, k := ids[..|ids| - 1], ids[|ids| - 1];
      assert ids == init + [k];
      DistinctSnoc(ids);
      var r := AxisSweep(states, init, move);
      var e := GamepadAxisEvent(k.0, k.1, Total(states, k) + move(k), move(k));
      assert r.events == AxisNotices(Moved(init, move), states, move) by {
        AxisSweepEvents(states, init, move);
      }
      assert Total(r.states, k) == Total(states, k) by {
        AxisSweepUntouched(states, init, k, move);
      }
      assert AxisSweep(states, ids, move).events == if move(k) != 0.0 then r.events + [e] else r.events by {
        AxisSweepSnoc(states, init, k, move);
      }
      assert AxisNotices(Moved(ids, move), states, move)
        == if move(k) != 0.0 then AxisNotices(Moved(init, move), states, move) + [e] else AxisNotices(Moved(init, move), states, move) by {
        AxisNoticesSnoc(states, init, k, move);
      }
    }
  }

  /** An axis the sweep does not visit keeps its total. */
  lemma {:induction false} AxisSweepUntouched(states: map<(int, int), real>, ids: seq<(int, int)>, k: (int, int), move: ((int, int)) -> real)
    requires k !in ids
    ensures Total(AxisSweep(states, ids, move).states, k) == Total(states, k)
    decreases |ids|
  {
    if ids != [] {
      assert ids[|ids| - 1] in ids;
      assert k !in ids[..|ids| - 1] by {
        assert forall j :: j in ids[..|ids| - 1] ==> j in ids;
      }
      AxisSweepUntouched(states, ids[..|ids| - 1], k, move);
    }
  }

  /** One more visited axis appends at most one report to AxisNotices. */
  lemma AxisNoticesSnoc(states: map<(int, int), real>, init: seq<(int, int)>, k: (int, int), move: ((int, int)) -> real)
    ensures AxisNotices(Moved(init + [k], move), states, move)
      == if move(k) != 0.0 then AxisNotices(Moved(init, move), states, move) + [GamepadAxisEvent(k.0, k.1, Total(states, k) + move(k), move(k))]
         else AxisNotices(Moved(init, move), states, move)
  {
    MovedSnoc(init, k, move);
    if move(k) != 0.0 {
      AxisNoticesAppend(Moved(init, move), k, states, move);
    }
  }

  lemma MovedSnoc(init: seq<(int, int)>, k: (int, int), move: ((int, int)) -> real)
    ensures Moved(init + [k], move) == if move(k) != 0.0 then Moved(init, move) + [k] else Moved(init, move)
  {
    assert (init + [k])[..|init|] == init;
  }

  lemma AxisNoticesAppend(moved: seq<(int, int)>, k: (int, int), states: map<(int, int), real>, move: ((int, int)) -> real)
    ensures AxisNotices(moved + [k], states, move)
      == AxisNotices(moved, states, move) + [GamepadAxisEvent(k.0, k.1, Total(states, k) + move(k), move(k))]
  {
    assert (moved + [k])[..|moved|] == moved;
  }

  /** With no axis moving, the accumulating sweep changes nothing and reports nothing. */
  lemma {:induction false} AxisSweepAtRest(states: map<(int, int), real>, ids: seq<(int, int)>, move: ((int, int)) -> real)
    requires forall k :: k in ids ==> move(k) == 0.0
    ensures AxisSweep(states, ids, move) == AxisSweepResult(states, [])
    decreases |ids|
  {
    if ids != [] {
      assert ids[|ids| - 1] in ids;
      assert forall k :: k in ids[..|ids| - 1] ==> k in ids;
      AxisSweepAtRest(states, ids[..|ids| - 1], move);
    }
  }
}
