/**
 Polling a chain window by window behind a saved watermark. What a window's logs do is a parameter, so that the
 arguments about windows and retries rest only on the laws stated in `Lawful`.
 */
module Polling {
  import opened Bytes
  import opened Runs
  import opened Wrappers

  /** The chain's logs, block by block. */
  type History<L> = nat -> seq<L>

  datatype Config = Config(maxBlocks: nat, backfill: nat) {
    predicate Valid() {
      0 < maxBlocks < TWO_64
    }
  }

  /** `defaults`: a window size of zero means 5000 blocks. */
  function WithDefaults(c: Config): Config {
    if c.maxBlocks == 0 then c.(maxBlocks := 5000) else c
  }

  datatype LoopState<R> = LoopState(store: R, watermark: nat)

  /** How the world treats one tick: the head it reports, which calls fail, and after how many logs the process dies. */
  datatype Weather = Weather(
    head: Option<nat>,
    readOk: bool,
    seedOk: bool,
    filterOk: bool,
    diesAfter: Option<nat>,
    saveOk: bool)

  function Min(a: nat, b: nat): nat {
    if a < b then a else b
  }

  function Max(a: nat, b: nat): nat {
    if a < b then b else a
  }

  /** Logs of the blocks `from` to `end`, in block order. */
  function Window<L>(h: History<L>, from: nat, end: nat): seq<L>
    decreases end
  {
    if end < from then [] else (if end == 0 then [] else Window(h, from, end - 1)) + h(end)
  }

  function Seed(c: Config, head: nat): nat {
    if c.backfill > 0 && head > c.backfill then head - c.backfill else head
  }

  /** The last block of the window after `wm`, in 64-bit arithmetic. */
  function WindowEnd(c: Config, wm: nat, head: nat): nat {
    var limit := (wm + 1 + c.maxBlocks - 1) % TWO_64;
    if head > limit then limit else head
  }

  /** The watermark a tick works from, or none when it stops before having one. */
  function Start(c: Config, watermark: nat, w: Weather): Option<nat> {
    if w.head.None? || !w.readOk then None
    else if watermark > 0 then Some(watermark)
    else if w.seedOk then Some(Seed(c, w.head.value))
    else None
  }

  /** Logs a tick applies before it ends or dies. */
  function Delivered<L>(c: Config, h: History<L>, wm: nat, w: Weather): seq<L>
    requires w.head.Some?
  {
    var logs := Window(h, wm + 1, WindowEnd(c, wm, w.head.value));
    if !w.filterOk then [] else if w.diesAfter.Some? then logs[..Min(w.diesAfter.value, |logs|)] else logs
  }

  predicate Saves(w: Weather) {
    w.filterOk && w.diesAfter.None? && w.saveOk
  }

  function TickStep<R, L>(c: Config, h: History<L>, deliver: (R, seq<L>) -> R, s: LoopState<R>, w: Weather): LoopState<R> {
    var start := Start(c, s.watermark, w);
    if start.None? then s
    else
      var wm := start.value;
      if wm >= w.head.value then LoopState(s.store, wm)
      else
        LoopState(deliver(s.store, Delivered(c, h, wm, w)), if Saves(w) then WindowEnd(c, wm, w.head.value) else wm)
  }

  /** The tick returned no error. */
  predicate Completes(c: Config, watermark: nat, w: Weather) {
    var start := Start(c, watermark, w);
    start.Some? && (start.value >= w.head.value || Saves(w))
  }

  function Ticks<R, L>(c: Config, h: History<L>, deliver: (R, seq<L>) -> R, s: LoopState<R>, ws: seq<Weather>): LoopState<R> {
    Run((t, w) => TickStep(c, h, deliver, t, w), s, ws)
  }

  lemma TicksSnoc<R, L>(c: Config, h: History<L>, deliver: (R, seq<L>) -> R, s: LoopState<R>, ws: seq<Weather>, w: Weather)
    ensures Ticks(c, h, deliver, s, ws + [w]) == TickStep(c, h, deliver, Ticks(c, h, deliver, s, ws), w)
  {
    RunSnoc((t, w) => TickStep(c, h, deliver, t, w), s, ws, w);
  }

  // ---- windows ----

  /** Window arithmetic stays inside 64 bits. */
  predicate Fits(c: Config, w: Weather) {
    w.head.Some? ==> w.head.value + c.maxBlocks < TWO_64
  }

  /** A window ends at the head or after `maxBlocks` blocks, whichever comes first; wrapped arithmetic sends it backwards. */
  lemma WindowEndMeaning(c: Config, wm: nat, head: nat)
    requires c.Valid() && wm < head < TWO_64
    ensures WindowEnd(c, wm, head) > wm <==> wm + c.maxBlocks < TWO_64
    ensures wm + c.maxBlocks < TWO_64 ==> WindowEnd(c, wm, head) == Min(head, wm + c.maxBlocks)
  {
    var sum := wm + c.maxBlocks;
    if sum >= TWO_64 {
      assert sum % TWO_64 == sum - TWO_64;
    }
  }

  /** One tick moves the watermark forward over at most one window, and a completed one applies exactly that window. */
  lemma TickWindow<R, L>(c: Config, h: History<L>, deliver: (R, seq<L>) -> R, s: LoopState<R>, w: Weather)
    requires c.Valid() && Fits(c, w) && deliver(s.store, []) == s.store
    ensures var t := TickStep(c, h, deliver, s, w);
      && (s.watermark > 0 ==> s.watermark <= t.watermark <= s.watermark + c.maxBlocks)
      && (Completes(c, s.watermark, w) ==>
        var from := Start(c, s.watermark, w).value;
        && t.watermark == Max(from, Min(w.head.value, from + c.maxBlocks))
        && t.store == deliver(s.store, Window(h, from + 1, t.watermark)))
  {
    var start := Start(c, s.watermark, w);
    if start.Some? && start.value < w.head.value {
      WindowEndMeaning(c, start.value, w.head.value);
    }
  }

  lemma {:induction false} WindowSum<L>(h: History<L>, from: nat, mid: nat, end: nat)
    requires from <= mid + 1 && mid <= end
    ensures Window(h, from, mid) + Window(h, mid + 1, end) == Window(h, from, end)
    decreases end
  {
    if end == mid {
      assert Window(h, from, mid) + [] == Window(h, from, mid);
    } else {
      WindowSum(h, from, mid, end - 1);
      var a, b, c := Window(h, from, mid), Window(h, mid + 1, end - 1), h(end);
      assert Window(h, from, end) == Window(h, from, end - 1) + c;
      assert Window(h, mid + 1, end) == b + c;
      assert a + (b + c) == (a + b) + c;
    }
  }

  /** The watermark never goes back, whatever heads are reported, and never returns to the unseeded state. */
  lemma WatermarkGrows<R(!new), L>(c: Config, h: History<L>, deliver: (R, seq<L>) -> R, s: LoopState<R>, ws: seq<Weather>)
    requires c.Valid() && s.watermark > 0
    requires forall x :: deliver(x, []) == x
    requires forall i :: 0 <= i < |ws| ==> Fits(c, ws[i])
    ensures Ticks(c, h, deliver, s, ws).watermark >= s.watermark
  {
    var inv := (t: LoopState<R>, done: seq<Weather>) => t.watermark >= s.watermark;
    forall t, k | 0 <= k < |ws| && inv(t, ws[..k]) ensures inv(TickStep(c, h, deliver, t, ws[k]), ws[..k + 1]) {
      TickWindow(c, h, deliver, t, ws[k]);
    }
    RunKeeps((t, w) => TickStep(c, h, deliver, t, w), s, ws, inv);
  }

  /** Before it is seeded the loop changes nothing; the seeding tick is a tick from the seed. */
  lemma SeedingTick<R, L>(c: Config, h: History<L>, deliver: (R, seq<L>) -> R, store: R, w: Weather)
    ensures var s := LoopState(store, 0); var start := Start(c, 0, w);
      TickStep(c, h, deliver, s, w) ==
      if start.Some? && start.value > 0 then TickStep(c, h, deliver, LoopState(store, start.value), w) else s
  {
    var start := Start(c, 0, w);
    if start.Some? && start.value == 0 {
      assert w.head.value == 0;
    }
  }

  /** The watermark a tick would give a loop that has none. */
  function TickSeed(c: Config, w: Weather): nat {
    Start(c, 0, w).GetOr(0)
  }

  /** The seed of a run: what the first tick that can seed the loop gives it, or 0 while none can. */
  function FirstSeed(c: Config, ws: seq<Weather>): nat {
    if ws == [] then 0
    else
      var n := |ws| - 1;
      if FirstSeed(c, ws[..n]) > 0 then FirstSeed(c, ws[..n]) else TickSeed(c, ws[n])
  }

  lemma {:induction false} FirstSeedIsFirst(c: Config, ws: seq<Weather>)
    ensures FirstSeed(c, ws) == 0 <==> forall j :: 0 <= j < |ws| ==> TickSeed(c, ws[j]) == 0
    ensures FirstSeed(c, ws) > 0 ==>
      exists k :: 0 <= k < |ws| && TickSeed(c, ws[k]) == FirstSeed(c, ws) && forall j :: 0 <= j < k ==> TickSeed(c, ws[j]) == 0
  {
    if ws == [] {
    } else {
      var n := |ws| - 1;
      var front := ws[..n];
      FirstSeedIsFirst(c, front);
      assert forall j :: 0 <= j < n ==> front[j] == ws[j];
      if FirstSeed(c, front) > 0 {
        var k :| 0 <= k < n && TickSeed(c, front[k]) == FirstSeed(c, front) && forall j :: 0 <= j < k ==> TickSeed(c, front[j]) == 0;
        assert TickSeed(c, ws[k]) == FirstSeed(c, ws);
      }
    }
  }

  // ---- the windows of a run ----

  datatype Span = Span(first: nat, last: nat)

  /** The window a tick saves, if it saves one. */
  function SavedSpan(c: Config, watermark: nat, w: Weather): seq<Span> {
    var start := Start(c, watermark, w);
    if start.Some? && start.value < w.head.value && Saves(w) then
      [Span(start.value + 1, WindowEnd(c, start.value, w.head.value))]
    else []
  }

  /** The windows saved along a run, in order. */
  function Spans<R, L>(c: Config, h: History<L>, deliver: (R, seq<L>) -> R, s: LoopState<R>, ws: seq<Weather>): seq<Span> {
    if ws == [] then []
    else
      var n := |ws| - 1;
      Spans(c, h, deliver, s, ws[..n]) + SavedSpan(c, Ticks(c, h, deliver, s, ws[..n]).watermark, ws[n])
  }

  function Flatten<L>(h: History<L>, spans: seq<Span>): seq<L> {
    if spans == [] then []
    else Flatten(h, spans[..|spans| - 1]) + Window(h, spans[|spans| - 1].first, spans[|spans| - 1].last)
  }

  /** Windows of at most `maxBlocks` blocks, each beginning right after the one before, from `from + 1` up to `end`. */
  predicate Tiles(c: Config, spans: seq<Span>, from: nat, end: nat) {
    && (forall i :: 0 <= i < |spans| ==> spans[i].first <= spans[i].last < spans[i].first + c.maxBlocks)
    && (forall i :: 0 < i < |spans| ==> spans[i].first == spans[i - 1].last + 1)
    && (if spans == [] then from == end else spans[0].first == from + 1 && spans[|spans| - 1].last == end)
  }

  lemma AddTile(c: Config, spans: seq<Span>, from: nat, mid: nat, end: nat)
    requires Tiles(c, spans, from, mid) && mid < end <= mid + c.maxBlocks
    ensures Tiles(c, spans + [Span(mid + 1, end)], from, end)
  {
    var all := spans + [Span(mid + 1, end)];
    forall i | 0 < i < |all| ensures all[i].first == all[i - 1].last + 1 {
      if i < |spans| {
        assert all[i] == spans[i] && all[i - 1] == spans[i - 1];
      }
    }
  }

  lemma FlattenMore<L>(h: History<L>, spans: seq<Span>, from: nat, mid: nat, end: nat)
    requires Flatten(h, spans) == Window(h, from + 1, mid) && from <= mid <= end
    ensures Flatten(h, spans + [Span(mid + 1, end)]) == Window(h, from + 1, end)
  {
    var all := spans + [Span(mid + 1, end)];
    assert all[..|spans|] == spans;
    WindowSum(h, from + 1, mid, end);
  }

  function Origin(c: Config, watermark: nat, ws: seq<Weather>): nat {
    if watermark > 0 then watermark else FirstSeed(c, ws)
  }

  /** What holds of the windows saved so far. */
  predicate Tiled<L(==)>(c: Config, h: History<L>, spans: seq<Span>, origin: nat, watermark: nat) {
    if origin == 0 then watermark == 0 && spans == []
    else origin <= watermark && Tiles(c, spans, origin, watermark) && Flatten(h, spans) == Window(h, origin + 1, watermark)
  }

  lemma TiledFrom<L>(c: Config, h: History<L>, from: nat)
    ensures Tiled(c, h, [], from, from)
  {
    assert Window(h, from + 1, from) == [];
  }

  lemma TiledFurther<L>(c: Config, h: History<L>, spans: seq<Span>, origin: nat, mid: nat, end: nat)
    requires origin > 0 && Tiled(c, h, spans, origin, mid) && mid < end <= mid + c.maxBlocks
    ensures Tiled(c, h, spans + [Span(mid + 1, end)], origin, end)
  {
    AddTile(c, spans, origin, mid, end);
    FlattenMore(h, spans, origin, mid, end);
  }

  lemma TiledNext<L>(c: Config, h: History<L>, spans: seq<Span>, origin: nat, mid: nat, end: nat, saved: seq<Span>)
    requires Tiled(c, h, spans, origin, mid)
    requires if saved == [] then end == mid else origin > 0 && mid < end <= mid + c.maxBlocks && saved == [Span(mid + 1, end)]
    ensures Tiled(c, h, spans + saved, origin, end)
  {
    if saved == [] {
      assert spans + saved == spans;
    } else {
      TiledFurther(c, h, spans, origin, mid, end);
    }
  }

  lemma SpanOfTick<R, L>(c: Config, h: History<L>, deliver: (R, seq<L>) -> R, s: LoopState<R>, w: Weather)
    requires c.Valid() && Fits(c, w)
    ensures var from := Start(c, s.watermark, w).GetOr(s.watermark); var end := TickStep(c, h, deliver, s, w).watermark;
      && (SavedSpan(c, s.watermark, w) == [] ==> end == from)
      && (SavedSpan(c, s.watermark, w) != [] ==>
        from < end <= from + c.maxBlocks && SavedSpan(c, s.watermark, w) == [Span(from + 1, end)])
  {
    if Start(c, s.watermark, w).Some? && Start(c, s.watermark, w).value < w.head.value {
      WindowEndMeaning(c, Start(c, s.watermark, w).value, w.head.value);
    }
  }

  lemma TickTiles<R, L>(c: Config, h: History<L>, deliver: (R, seq<L>) -> R, s: LoopState<R>, w: Weather, spans: seq<Span>, origin: nat)
    requires c.Valid() && Fits(c, w) && Tiled(c, h, spans, origin, s.watermark) && (origin == 0 <==> s.watermark == 0)
    ensures Tiled(c, h, spans + SavedSpan(c, s.watermark, w), if origin > 0 then origin else TickSeed(c, w),
                  TickStep(c, h, deliver, s, w).watermark)
  {
    SpanOfTick(c, h, deliver, s, w);
    var from := Start(c, s.watermark, w).GetOr(s.watermark);
    var since := if origin > 0 then origin else from;
    if origin == 0 {
      TiledFrom(c, h, from);
    }
    var saved, end := SavedSpan(c, s.watermark, w), TickStep(c, h, deliver, s, w).watermark;
    if saved != [] {
      SavesPastZero(c, s.watermark, w);
    }
    TiledNext(c, h, spans, since, from, end, saved);
  }

  /** A loop saves no window before it has a watermark. */
  lemma SavesPastZero(c: Config, watermark: nat, w: Weather)
    requires SavedSpan(c, watermark, w) != []
    ensures Start(c, watermark, w).value > 0
  {
  }

  /**
   The windows of any run, through failures and whatever heads are reported, partition what the watermark covers: contiguous
   and disjoint, at most `maxBlocks` blocks each, from the block after the first watermark up to the present one.
   */
  lemma {:induction false} WindowsPartition<R, L>(c: Config, h: History<L>, deliver: (R, seq<L>) -> R, s: LoopState<R>, ws: seq<Weather>)
    requires c.Valid() && forall i :: 0 <= i < |ws| ==> Fits(c, ws[i])
    ensures Tiled(c, h, Spans(c, h, deliver, s, ws), Origin(c, s.watermark, ws), Ticks(c, h, deliver, s, ws).watermark)
  {
    if ws == [] {
      TiledFrom(c, h, s.watermark);
    } else {
      var n := |ws| - 1;
      var front, w := ws[..n], ws[n];
      assert front + [w] == ws && forall i :: 0 <= i < n ==> front[i] == ws[i];
      WindowsPartition(c, h, deliver, s, front);
      TicksSnoc(c, h, deliver, s, front, w);
      TickTiles(c, h, deliver, Ticks(c, h, deliver, s, front), w, Spans(c, h, deliver, s, front), Origin(c, s.watermark, front));
    }
  }

  predicate Fair(w: Weather, head: nat) {
    w.head == Some(head) && w.readOk && Saves(w)
  }

  lemma FairTick<R, L>(c: Config, h: History<L>, deliver: (R, seq<L>) -> R, s: LoopState<R>, w: Weather, head: nat)
    requires c.Valid() && 0 < s.watermark <= head && head + c.maxBlocks < TWO_64
    requires Fair(w, head) && deliver(s.store, []) == s.store
    ensures TickStep(c, h, deliver, s, w).watermark == Min(head, s.watermark + c.maxBlocks)
  {
    TickWindow(c, h, deliver, s, w);
  }

  lemma Times(k: nat, m: nat)
    ensures (k + 1) * m == k * m + m
  {
  }

  /** Against a head that stands still, `n` fair ticks cover `n` windows: ceil((head - seed) / maxBlocks) of them catch up. */
  lemma {:induction false} CatchesUp<R(!new), L>(c: Config, h: History<L>, deliver: (R, seq<L>) -> R, s: LoopState<R>,
                                                 head: nat, ws: seq<Weather>)
    requires c.Valid() && 0 < s.watermark <= head && head + c.maxBlocks < TWO_64
    requires forall x :: deliver(x, []) == x
    requires forall i :: 0 <= i < |ws| ==> Fair(ws[i], head)
    ensures Ticks(c, h, deliver, s, ws).watermark == Min(head, s.watermark + |ws| * c.maxBlocks)
    ensures |ws| * c.maxBlocks >= head - s.watermark <==> Ticks(c, h, deliver, s, ws).watermark == head
  {
    if ws == [] {
    } else {
      var n := |ws| - 1;
      var front, w := ws[..n], ws[n];
      assert front + [w] == ws && forall i :: 0 <= i < n ==> front[i] == ws[i];
      CatchesUp(c, h, deliver, s, head, front);
      TicksSnoc(c, h, deliver, s, front, w);
      FairTick(c, h, deliver, Ticks(c, h, deliver, s, front), w, head);
      Times(n, c.maxBlocks);
    }
  }

  /** A window size near 2^64 wraps, and the loop saves a watermark below the one it had: here, the unseeded 0. */
  lemma WrappedWindowLosesWatermark<R, L>(h: History<L>, deliver: (R, seq<L>) -> R, store: R)
    ensures var c := Config(0xFFFF_FFFF_FFFF_FFFF, 0); var w := Weather(Some(9), true, true, true, None, true);
      Completes(c, 1, w) && TickStep(c, h, deliver, LoopState(store, 1), w).watermark == 0
  {
  }
}
