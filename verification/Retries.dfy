/**
 Ticks that fail, die half way and start over: when the store they leave is that of one pass over the logs. What a window's
 logs do is again a parameter.
 */
module Retries {
  import opened Polling
  import opened Wrappers

  /** Deliveries compose, and one that was cut short is absorbed when it is made again in full. */
  ghost predicate Lawful<R(!new), L(!new)>(deliver: (R, seq<L>) -> R, good: R -> bool) {
    && (forall x :: deliver(x, []) == x)
    && (forall x, p, q {:trigger deliver(x, p + q)} :: deliver(x, p + q) == deliver(deliver(x, p), q))
    && (forall x, p, k: nat {:trigger deliver(deliver(x, p[..k]), p)} :: good(x) && k <= |p| ==>
      deliver(deliver(x, p[..k]), p) == deliver(x, p))
    && (forall x, p :: good(x) ==> good(deliver(x, p)))
  }

  /** Whatever was half delivered so far, delivering on to `to` gives what one pass gives. */
  predicate Recovers<R(==), L>(h: History<L>, deliver: (R, seq<L>) -> R, origin: LoopState<R>, s: LoopState<R>, to: nat) {
    to >= s.watermark ==>
      deliver(s.store, Window(h, s.watermark + 1, to)) == deliver(origin.store, Window(h, origin.watermark + 1, to))
  }

  lemma StepRecovers<R(!new), L(!new)>(c: Config, h: History<L>, deliver: (R, seq<L>) -> R, good: R -> bool,
                                       origin: LoopState<R>, s: LoopState<R>, w: Weather, to: nat)
    requires c.Valid() && Fits(c, w) && Lawful(deliver, good) && good(s.store)
    requires Start(c, s.watermark, w).Some? && 0 < s.watermark < w.head.value
    requires Recovers(h, deliver, origin, s, to)
    requires to >= WindowEnd(c, s.watermark, w.head.value)
    ensures Recovers(h, deliver, origin, TickStep(c, h, deliver, s, w), to)
  {
    var end := WindowEnd(c, s.watermark, w.head.value);
    WindowEndMeaning(c, s.watermark, w.head.value);
    if Saves(w) {
      SavedRecovers(h, deliver, good, origin, s, end, to);
    } else {
      var part := Delivered(c, h, s.watermark, w);
      assert part == Window(h, s.watermark + 1, end)[..|part|];
      CutRecovers(h, deliver, good, origin, s, end, |part|, to);
    }
  }

  lemma SavedRecovers<R(!new), L(!new)>(h: History<L>, deliver: (R, seq<L>) -> R, good: R -> bool,
                                        origin: LoopState<R>, s: LoopState<R>, end: nat, to: nat)
    requires Lawful(deliver, good) && s.watermark <= end <= to && Recovers(h, deliver, origin, s, to)
    ensures Recovers(h, deliver, origin, LoopState(deliver(s.store, Window(h, s.watermark + 1, end)), end), to)
  {
    WindowSum(h, s.watermark + 1, end, to);
    var p, q := Window(h, s.watermark + 1, end), Window(h, end + 1, to);
    assert deliver(s.store, p + q) == deliver(deliver(s.store, p), q);
  }

  lemma Absorbed<R(!new), L(!new)>(deliver: (R, seq<L>) -> R, good: R -> bool, x: R, p: seq<L>, k: nat)
    requires Lawful(deliver, good) && good(x) && k <= |p|
    ensures deliver(deliver(x, p[..k]), p) == deliver(x, p)
  {
  }

  lemma CutRecovers<R(!new), L(!new)>(h: History<L>, deliver: (R, seq<L>) -> R, good: R -> bool,
                                      origin: LoopState<R>, s: LoopState<R>, end: nat, k: nat, to: nat)
    requires Lawful(deliver, good) && good(s.store) && s.watermark <= end <= to && Recovers(h, deliver, origin, s, to)
    requires k <= |Window(h, s.watermark + 1, end)|
    ensures Recovers(h, deliver, origin, LoopState(deliver(s.store, Window(h, s.watermark + 1, end)[..k]), s.watermark), to)
  {
    PrefixOfWindow(h, s.watermark + 1, end, to, k);
    var all := Window(h, s.watermark + 1, to);
    Absorbed(deliver, good, s.store, all, k);
  }

  lemma PrefixOfWindow<L>(h: History<L>, from: nat, end: nat, to: nat, k: nat)
    requires from <= end + 1 && end <= to && k <= |Window(h, from, end)|
    ensures k <= |Window(h, from, to)| && Window(h, from, end)[..k] == Window(h, from, to)[..k]
  {
    WindowSum(h, from, end, to);
  }

  // ---- how far deliveries went ----

  /** The watermark after a tick. */
  function NextMark(c: Config, watermark: nat, w: Weather): nat {
    var start := Start(c, watermark, w);
    if start.None? then watermark
    else if start.value < w.head.value && Saves(w) then WindowEnd(c, start.value, w.head.value)
    else start.value
  }

  function Mark(c: Config, watermark: nat, ws: seq<Weather>): nat {
    if ws == [] then watermark else NextMark(c, Mark(c, watermark, ws[..|ws| - 1]), ws[|ws| - 1])
  }

  lemma {:induction false} TicksMark<R, L>(c: Config, h: History<L>, deliver: (R, seq<L>) -> R, s: LoopState<R>, ws: seq<Weather>)
    ensures Ticks(c, h, deliver, s, ws).watermark == Mark(c, s.watermark, ws)
  {
    if ws == [] {
    } else {
      var front, w := ws[..|ws| - 1], ws[|ws| - 1];
      assert front + [w] == ws;
      TicksMark(c, h, deliver, s, front);
      TicksSnoc(c, h, deliver, s, front, w);
    }
  }

  /** The end of the window a tick may have delivered from, or 0 if it delivered nothing. */
  function Touched(c: Config, watermark: nat, w: Weather): nat {
    var start := Start(c, watermark, w);
    if start.Some? && start.value < w.head.value && w.filterOk && w.diesAfter != Some(0) then
      WindowEnd(c, start.value, w.head.value)
    else 0
  }

  /** The end of the furthest window the run may have delivered from. */
  function Furthest(c: Config, watermark: nat, ws: seq<Weather>): nat {
    if ws == [] then 0
    else
      var front := ws[..|ws| - 1];
      Max(Furthest(c, watermark, front), Touched(c, Mark(c, watermark, front), ws[|ws| - 1]))
  }

  /** The watermark has reached the end of every window delivered from. */
  predicate CaughtUp(c: Config, watermark: nat, ws: seq<Weather>) {
    Furthest(c, watermark, ws) <= Mark(c, watermark, ws)
  }

  // ---- one pass ----

  /** From the end of the furthest window on, what was half delivered does not show. */
  ghost predicate OnCourse<R, L>(h: History<L>, deliver: (R, seq<L>) -> R, good: R -> bool, origin: LoopState<R>, s: LoopState<R>, reach: nat) {
    && 0 < origin.watermark <= s.watermark
    && good(s.store)
    && forall to: nat :: to >= reach ==> Recovers(h, deliver, origin, s, to)
  }

  lemma IdleTick<R(!new), L(!new)>(c: Config, h: History<L>, deliver: (R, seq<L>) -> R, good: R -> bool, s: LoopState<R>, w: Weather)
    requires Lawful(deliver, good) && s.watermark > 0 && Touched(c, s.watermark, w) == 0 && c.Valid() && Fits(c, w)
    ensures TickStep(c, h, deliver, s, w) == s
  {
    if Start(c, s.watermark, w).Some? && s.watermark < w.head.value {
      WindowEndMeaning(c, s.watermark, w.head.value);
      assert Delivered(c, h, s.watermark, w) == [];
    }
  }

  lemma TickOnCourse<R(!new), L(!new)>(c: Config, h: History<L>, deliver: (R, seq<L>) -> R, good: R -> bool,
                                       origin: LoopState<R>, s: LoopState<R>, w: Weather, reach: nat)
    requires c.Valid() && Fits(c, w) && Lawful(deliver, good) && OnCourse(h, deliver, good, origin, s, reach)
    ensures OnCourse(h, deliver, good, origin, TickStep(c, h, deliver, s, w), Max(reach, Touched(c, s.watermark, w)))
  {
    if Touched(c, s.watermark, w) == 0 {
      IdleTick(c, h, deliver, good, s, w);
    } else {
      var t, end := TickStep(c, h, deliver, s, w), WindowEnd(c, s.watermark, w.head.value);
      WindowEndMeaning(c, s.watermark, w.head.value);
      forall to: nat | to >= Max(reach, end) ensures Recovers(h, deliver, origin, t, to) {
        assert Recovers(h, deliver, origin, s, to);
        StepRecovers(c, h, deliver, good, origin, s, w, to);
      }
    }
  }

  /** The course of a run that may not be seeded yet. */
  ghost predicate Course<R, L>(h: History<L>, deliver: (R, seq<L>) -> R, good: R -> bool, first: LoopState<R>, origin: nat,
                               s: LoopState<R>, reach: nat) {
    if origin == 0 then s == first && s.watermark == 0 && good(s.store)
    else OnCourse(h, deliver, good, LoopState(first.store, origin), s, reach)
  }

  lemma SeedIsOnCourse<R, L>(h: History<L>, deliver: (R, seq<L>) -> R, good: R -> bool, s: LoopState<R>, reach: nat)
    requires s.watermark > 0 && good(s.store)
    ensures OnCourse(h, deliver, good, s, s, reach)
  {
  }

  lemma TickStaysOnCourse<R(!new), L(!new)>(c: Config, h: History<L>, deliver: (R, seq<L>) -> R, good: R -> bool,
                                            first: LoopState<R>, origin: nat, s: LoopState<R>, w: Weather, reach: nat)
    requires c.Valid() && Fits(c, w) && Lawful(deliver, good) && Course(h, deliver, good, first, origin, s, reach)
    ensures Course(h, deliver, good, first, if origin > 0 then origin else TickSeed(c, w),
                   TickStep(c, h, deliver, s, w), Max(reach, Touched(c, s.watermark, w)))
  {
    if origin > 0 {
      TickOnCourse(c, h, deliver, good, LoopState(first.store, origin), s, w, reach);
    } else {
      SeedingTick(c, h, deliver, s.store, w);
      if TickSeed(c, w) > 0 {
        var seeded := LoopState(s.store, TickSeed(c, w));
        SeedIsOnCourse(h, deliver, good, seeded, reach);
        TickOnCourse(c, h, deliver, good, seeded, seeded, w, reach);
      }
    }
  }

  lemma {:induction false} RunStaysOnCourse<R(!new), L(!new)>(c: Config, h: History<L>, deliver: (R, seq<L>) -> R, good: R -> bool,
                                                              s: LoopState<R>, ws: seq<Weather>)
    requires c.Valid() && Lawful(deliver, good) && good(s.store) && forall i :: 0 <= i < |ws| ==> Fits(c, ws[i])
    ensures Course(h, deliver, good, s, Origin(c, s.watermark, ws), Ticks(c, h, deliver, s, ws), Furthest(c, s.watermark, ws))
  {
    if ws == [] {
      if s.watermark > 0 {
        SeedIsOnCourse(h, deliver, good, s, 0);
      }
    } else {
      var front, w := ws[..|ws| - 1], ws[|ws| - 1];
      assert front + [w] == ws && forall i :: 0 <= i < |front| ==> front[i] == ws[i];
      RunStaysOnCourse(c, h, deliver, good, s, front);
      TicksMark(c, h, deliver, s, front);
      TicksSnoc(c, h, deliver, s, front, w);
      TickStaysOnCourse(c, h, deliver, good, s, Origin(c, s.watermark, front), Ticks(c, h, deliver, s, front), w,
                        Furthest(c, s.watermark, front));
    }
  }

  lemma CourseEnds<R(!new), L(!new)>(h: History<L>, deliver: (R, seq<L>) -> R, good: R -> bool, first: LoopState<R>, origin: nat,
                                     t: LoopState<R>, reach: nat)
    requires Lawful(deliver, good) && Course(h, deliver, good, first, origin, t, reach) && reach <= t.watermark
    ensures IsOnePass(h, deliver, first, origin, t)
  {
    if origin > 0 {
      assert Recovers(h, deliver, LoopState(first.store, origin), t, t.watermark);
    }
  }

  /** One delivery of every log after the origin, or nothing while there is no origin. */
  predicate IsOnePass<R(==), L>(h: History<L>, deliver: (R, seq<L>) -> R, first: LoopState<R>, origin: nat, t: LoopState<R>) {
    if origin == 0 then t == first else t.store == deliver(first.store, Window(h, origin + 1, t.watermark))
  }

  /**
   Retried delivery refines one pass. Let ticks fail at any call or die after any number of logs, let the process start over
   each time, and let reported heads go anywhere: whenever the watermark has reached the end of every window delivered from,
   the store equals one delivery of every log from the first watermark, or the first seed, up to the present one.
   */
  lemma RetryRefinesOnePass<R(!new), L(!new)>(c: Config, h: History<L>, deliver: (R, seq<L>) -> R, good: R -> bool,
                                              s: LoopState<R>, ws: seq<Weather>)
    requires c.Valid() && Lawful(deliver, good) && good(s.store) && forall i :: 0 <= i < |ws| ==> Fits(c, ws[i])
    requires CaughtUp(c, s.watermark, ws)
    ensures IsOnePass(h, deliver, s, Origin(c, s.watermark, ws), Ticks(c, h, deliver, s, ws))
  {
    RunStaysOnCourse(c, h, deliver, good, s, ws);
    TicksMark(c, h, deliver, s, ws);
    CourseEnds(h, deliver, good, s, Origin(c, s.watermark, ws), Ticks(c, h, deliver, s, ws), Furthest(c, s.watermark, ws));
  }

  // ---- rising heads ----

  predicate Rising(ws: seq<Weather>) {
    forall i, j :: 0 <= i < j < |ws| && ws[i].head.Some? && ws[j].head.Some? ==> ws[i].head.value <= ws[j].head.value
  }

  function Highest(ws: seq<Weather>): nat {
    if ws == [] then 0
    else
      var n := |ws| - 1;
      if ws[n].head.Some? then ws[n].head.value else Highest(ws[..n])
  }

  lemma RisingFront(ws: seq<Weather>)
    requires ws != [] && Rising(ws)
    ensures Rising(ws[..|ws| - 1]) && (ws[|ws| - 1].head.Some? ==> Highest(ws[..|ws| - 1]) <= ws[|ws| - 1].head.value)
  {
    HighestIsReported(ws[..|ws| - 1]);
  }

  lemma {:induction false} HighestIsReported(ws: seq<Weather>)
    ensures Highest(ws) > 0 ==> exists i :: 0 <= i < |ws| && ws[i].head == Some(Highest(ws))
  {
    if ws == [] {
    } else if ws[|ws| - 1].head.None? {
      HighestIsReported(ws[..|ws| - 1]);
    }
  }

  lemma TouchedWithin(c: Config, watermark: nat, w: Weather)
    requires c.Valid() && Fits(c, w)
    ensures watermark <= NextMark(c, watermark, w)
    ensures Touched(c, watermark, w) > 0 ==>
      w.head.Some? && Touched(c, watermark, w) <= Min(w.head.value, NextMark(c, watermark, w) + c.maxBlocks)
  {
    var start := Start(c, watermark, w);
    if start.Some? && start.value < w.head.value {
      WindowEndMeaning(c, start.value, w.head.value);
    }
  }

  lemma ReachGrows(c: Config, watermark: nat, w: Weather, reach: nat, highest: nat)
    requires c.Valid() && Fits(c, w) && reach <= Min(highest, watermark + c.maxBlocks) && (w.head.Some? ==> highest <= w.head.value)
    ensures Max(reach, Touched(c, watermark, w)) <=
            Min(if w.head.Some? then w.head.value else highest, NextMark(c, watermark, w) + c.maxBlocks)
  {
    TouchedWithin(c, watermark, w);
  }

  lemma {:induction false} RisingReach(c: Config, watermark: nat, ws: seq<Weather>)
    requires c.Valid() && Rising(ws) && forall i :: 0 <= i < |ws| ==> Fits(c, ws[i])
    ensures Furthest(c, watermark, ws) <= Min(Highest(ws), Mark(c, watermark, ws) + c.maxBlocks)
  {
    if ws == [] {
    } else {
      var front, w := ws[..|ws| - 1], ws[|ws| - 1];
      RisingFront(ws);
      RisingReach(c, watermark, front);
      ReachGrows(c, Mark(c, watermark, front), w, Furthest(c, watermark, front), Highest(front));
    }
  }

  /** While heads do not go back, a run that ends with a completed tick has caught up. */
  lemma RisingHeadsCatchUp(c: Config, watermark: nat, ws: seq<Weather>)
    requires c.Valid() && Rising(ws) && forall i :: 0 <= i < |ws| ==> Fits(c, ws[i])
    requires ws != [] && Completes(c, Mark(c, watermark, ws[..|ws| - 1]), ws[|ws| - 1])
    ensures CaughtUp(c, watermark, ws)
  {
    var front, last := ws[..|ws| - 1], ws[|ws| - 1];
    RisingFront(ws);
    RisingReach(c, watermark, front);
    CompletedReach(c, Mark(c, watermark, front), last, Furthest(c, watermark, front));
  }

  lemma CompletedReach(c: Config, watermark: nat, last: Weather, reach: nat)
    requires c.Valid() && Fits(c, last) && Completes(c, watermark, last)
    requires reach <= Min(last.head.value, watermark + c.maxBlocks)
    ensures reach <= NextMark(c, watermark, last) && Touched(c, watermark, last) <= NextMark(c, watermark, last)
  {
    var start := Start(c, watermark, last).value;
    if start < last.head.value {
      WindowEndMeaning(c, start, last.head.value);
    }
  }
}
