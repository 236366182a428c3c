/** The request pacing of the benchmark: levels are sent in windows of at most
    `limit` requests, and a full window is waited out before the next begins. */
module RequestPacing {
  import opened Collections

  /** `limit` and `seconds` as validated: positive, and one level fits a window. */
  datatype Config = Config(limit: nat, seconds: real, cases: nat)

  predicate Valid(c: Config) { 1 <= c.limit && c.seconds > 0.0 && c.cases <= c.limit }

  /** The clock as one level sees it: when the pace is checked, when a sleep is
      over, when each request is sent, and when the last one is done. */
  datatype Level = Level(check: real, wake: real, sends: seq<real>, done: real)

  datatype Window = Window(start: real, sends: seq<real>)

  datatype Pacer = Pacer(started: real, used: nat, closed: seq<Window>, sends: seq<real>)

  function Begin(start: real): Pacer { Pacer(start, 0, [], []) }

  predicate Full(p: Pacer, c: Config) { p.used + c.cases > c.limit }

  function Remaining(p: Pacer, c: Config, now: real): real {
    var wait := c.seconds - (now - p.started) + 1.0;
    if wait > 0.0 then wait else 0.0
  }

  function Step(p: Pacer, c: Config, level: Level): Pacer {
    var q := if Full(p, c) then Pacer(level.wake, 0, p.closed + [Window(p.started, p.sends)], []) else p;
    q.(used := q.used + c.cases, sends := q.sends + level.sends)
  }

  function Run(p: Pacer, c: Config, levels: seq<Level>): Pacer {
    if levels == [] then p else Step(Run(p, c, levels[..|levels| - 1]), c, levels[|levels| - 1])
  }

  /** All windows of a run, the open one last. */
  function Windows(p: Pacer): seq<Window> { p.closed + [Window(p.started, p.sends)] }

  /** The pacing loop of `main`. */
  method Pace(c: Config, start: real, levels: seq<Level>) returns (windows: seq<Window>)
    ensures windows == Windows(Run(Begin(start), c, levels))
  {
    var started := start;
    var used: nat := 0;
    var closed: seq<Window>, sends: seq<real> := [], [];
    for i := 0 to |levels|
      invariant Pacer(started, used, closed, sends) == Run(Begin(start), c, levels[..i])
    {
      assert levels[..i + 1][..i] == levels[..i];
      if used + c.cases > c.limit {
        closed := closed + [Window(started, sends)];
        started, used, sends := levels[i].wake, 0, [];
      }
      sends := sends + levels[i].sends;
      used := used + c.cases;
    }
    assert levels[..|levels|] == levels;
    windows := closed + [Window(started, sends)];
  }

  // ----- what the clock guarantees

  /** Time does not run backwards, a sleep lasts at least as long as asked for,
      and a level sends its requests between being released and being done. */
  predicate Timed(p: Pacer, c: Config, level: Level, before: real) {
    && before <= level.check <= level.wake <= level.done
    && (Full(p, c) ==> level.wake >= level.check + Remaining(p, c, level.check))
    && |level.sends| == c.cases
    && forall s :: s in level.sends ==> level.wake <= s <= level.done
  }

  predicate AllTimed(c: Config, start: real, levels: seq<Level>) {
    levels == [] ||
    (AllTimed(c, start, levels[..|levels| - 1]) &&
     Timed(Run(Begin(start), c, levels[..|levels| - 1]), c, levels[|levels| - 1],
           DoneBefore(start, levels[..|levels| - 1])))
  }

  function DoneBefore(start: real, levels: seq<Level>): real {
    if levels == [] then start else levels[|levels| - 1].done
  }

  // ----- windows of a run

  /** When the sends of window `k` are over. */
  function Until(windows: seq<Window>, k: nat, now: real): real {
    if k + 1 < |windows| then windows[k + 1].start else now
  }

  predicate WindowPaced(windows: seq<Window>, k: nat, c: Config, now: real)
    requires k < |windows|
  {
    && |windows[k].sends| <= c.limit
    && SentWithin(windows[k], Until(windows, k, now))
    && (k + 1 < |windows| ==> windows[k + 1].start >= windows[k].start + c.seconds + 1.0)
  }

  /** Windows start more than a window length apart, hold at most `limit` sends,
      and send before the next one starts. */
  predicate Paced(windows: seq<Window>, c: Config, now: real) {
    forall k :: 0 <= k < |windows| ==> WindowPaced(windows, k, c, now)
  }

  predicate SentWithin(w: Window, until: real) {
    forall s :: s in w.sends ==> w.start <= s <= until
  }

  predicate Tracks(p: Pacer, c: Config, now: real) {
    |p.sends| == p.used <= c.limit && p.started <= now && Paced(Windows(p), c, now)
  }

  lemma PacedLater(windows: seq<Window>, c: Config, now: real, later: real)
    requires Paced(windows, c, now) && now <= later
    ensures Paced(windows, c, later)
  {
    forall k | 0 <= k < |windows| ensures WindowPaced(windows, k, c, later) {
      assert WindowPaced(windows, k, c, now);
    }
  }

  /** A new, empty window after a full one. */
  lemma NewWindow(p: Pacer, c: Config, level: Level, before: real)
    requires Valid(c) && Tracks(p, c, before) && Full(p, c) && Timed(p, c, level, before)
    ensures Paced(Windows(p) + [Window(level.wake, [])], c, level.wake)
  {
    var windows := Windows(p);
    var more := windows + [Window(level.wake, [])];
    forall k | 0 <= k < |more| ensures WindowPaced(more, k, c, level.wake) {
      if k < |windows| {
        assert WindowPaced(windows, k, c, before);
        assert Until(more, k, level.wake) >= Until(windows, k, before);
      }
    }
  }

  /** Adding a level's sends to the open window. */
  lemma MoreSends(closed: seq<Window>, start: real, sends: seq<real>, c: Config, level: Level, from: real)
    requires Paced(closed + [Window(start, sends)], c, from) && start <= from <= level.wake <= level.done
    requires |sends| + |level.sends| <= c.limit
    requires forall s :: s in level.sends ==> level.wake <= s <= level.done
    ensures Paced(closed + [Window(start, sends + level.sends)], c, level.done)
  {
    var windows, more := closed + [Window(start, sends)], closed + [Window(start, sends + level.sends)];
    forall k | 0 <= k < |more| ensures WindowPaced(more, k, c, level.done) {
      assert WindowPaced(windows, k, c, from);
    }
  }

  lemma StepTracks(p: Pacer, c: Config, level: Level, before: real)
    requires Valid(c) && Tracks(p, c, before) && Timed(p, c, level, before)
    ensures Tracks(Step(p, c, level), c, level.done)
  {
    hide Paced;
    if Full(p, c) {
      assert Windows(p) + [Window(level.wake, [] + level.sends)] == Windows(Step(p, c, level));
      NewWindow(p, c, level, before);
      MoreSends(Windows(p), level.wake, [], c, level, level.wake);
    } else {
      PacedLater(Windows(p), c, before, level.wake);
      MoreSends(p.closed, p.started, p.sends, c, level, level.wake);
    }
  }

  lemma {:induction false} EveryRunTracks(c: Config, start: real, levels: seq<Level>)
    requires Valid(c) && AllTimed(c, start, levels)
    ensures Tracks(Run(Begin(start), c, levels), c, DoneBefore(start, levels))
  {
    if levels == [] {
      assert WindowPaced(Windows(Begin(start)), 0, c, start);
    } else {
      var front := levels[..|levels| - 1];
      EveryRunTracks(c, start, front);
      StepTracks(Run(Begin(start), c, front), c, levels[|levels| - 1], DoneBefore(start, front));
    }
  }

  /** Every window sends at most `limit` requests, and windows start more than
      the window length apart. */
  lemma WindowsPaced(c: Config, start: real, levels: seq<Level>)
    requires Valid(c) && AllTimed(c, start, levels)
    ensures Paced(Windows(Run(Begin(start), c, levels)), c, DoneBefore(start, levels))
  {
    EveryRunTracks(c, start, levels);
  }

  // ----- any interval of one window length

  predicate InInterval(s: real, t: real, length: real) { t <= s <= t + length }

  function SentIn(sends: seq<real>, t: real, length: real): nat {
    Count((s: real) => InInterval(s, t, length), sends)
  }

  function TotalIn(windows: seq<Window>, t: real, length: real): nat {
    if windows == [] then 0
    else TotalIn(windows[..|windows| - 1], t, length) + SentIn(windows[|windows| - 1].sends, t, length)
  }

  lemma {:induction false} CountBounds<T>(p: T -> bool, s: seq<T>)
    ensures Count(p, s) <= |s|
    ensures Count(p, s) > 0 ==> exists x :: x in s && p(x)
  {
    if |s| > 0 {
      assert s == s[..|s| - 1] + [s[|s| - 1]];
      CountBounds(p, s[..|s| - 1]);
    }
  }

  lemma SomeSend(w: Window, t: real, length: real)
    ensures SentIn(w.sends, t, length) <= |w.sends|
    ensures SentIn(w.sends, t, length) > 0 ==> exists s :: s in w.sends && InInterval(s, t, length)
  {
    CountBounds((s: real) => InInterval(s, t, length), w.sends);
  }

  lemma {:induction false} StartsApart(windows: seq<Window>, c: Config, now: real, i: nat, j: nat)
    requires Valid(c) && Paced(windows, c, now) && i < j < |windows|
    ensures windows[j].start >= windows[i].start + c.seconds + 1.0
  {
    assert WindowPaced(windows, j - 1, c, now);
    if i + 1 < j {
      StartsApart(windows, c, now, i, j - 1);
    }
  }

  /** Windows two apart never both send within one window length. */
  lemma FarApart(windows: seq<Window>, c: Config, now: real, i: nat, j: nat, t: real)
    requires Valid(c) && Paced(windows, c, now) && i + 2 <= j < |windows|
    requires SentIn(windows[j].sends, t, c.seconds) > 0
    ensures SentIn(windows[i].sends, t, c.seconds) == 0
  {
    SomeSend(windows[i], t, c.seconds);
    SomeSend(windows[j], t, c.seconds);
    StartsApart(windows, c, now, i + 1, j);
    assert WindowPaced(windows, i, c, now) && WindowPaced(windows, j, c, now);
  }

  lemma {:induction false} NoneBefore(windows: seq<Window>, c: Config, now: real, n: nat, j: nat, t: real)
    requires Valid(c) && Paced(windows, c, now) && n + 1 <= j < |windows|
    requires SentIn(windows[j].sends, t, c.seconds) > 0
    ensures TotalIn(windows[..n], t, c.seconds) == 0
  {
    if n > 0 {
      assert windows[..n][..n - 1] == windows[..n - 1];
      NoneBefore(windows, c, now, n - 1, j, t);
      FarApart(windows, c, now, n - 1, j, t);
    }
  }

  lemma {:induction false} AtMostTwoWindows(windows: seq<Window>, c: Config, now: real, n: nat, t: real)
    requires Valid(c) && Paced(windows, c, now) && n <= |windows|
    ensures TotalIn(windows[..n], t, c.seconds) <= 2 * c.limit
  {
    if n > 0 {
      assert windows[..n][..n - 1] == windows[..n - 1];
      assert WindowPaced(windows, n - 1, c, now);
      SomeSend(windows[n - 1], t, c.seconds);
      if SentIn(windows[n - 1].sends, t, c.seconds) == 0 {
        AtMostTwoWindows(windows, c, now, n - 1, t);
      } else if n >= 2 {
        assert windows[..n - 1][..n - 2] == windows[..n - 2];
        NoneBefore(windows, c, now, n - 2, n - 1, t);
        assert WindowPaced(windows, n - 2, c, now);
        SomeSend(windows[n - 2], t, c.seconds);
      }
    }
  }

  /** Any interval of one window length sees at most twice the limit. */
  lemma TwiceTheLimit(c: Config, start: real, levels: seq<Level>, t: real)
    requires Valid(c) && AllTimed(c, start, levels)
    ensures TotalIn(Windows(Run(Begin(start), c, levels)), t, c.seconds) <= 2 * c.limit
  {
    WindowsPaced(c, start, levels);
    var windows := Windows(Run(Begin(start), c, levels));
    AtMostTwoWindows(windows, c, DoneBefore(start, levels), |windows|, t);
    assert windows[..|windows|] == windows;
  }

  // ----- nothing is lost, and nothing waits for nothing

  function SentBy(levels: seq<Level>): seq<real> {
    if levels == [] then [] else SentBy(levels[..|levels| - 1]) + levels[|levels| - 1].sends
  }

  function SentInAll(windows: seq<Window>): seq<real> {
    if windows == [] then [] else SentInAll(windows[..|windows| - 1]) + windows[|windows| - 1].sends
  }

  lemma SentInLast(windows: seq<Window>, w: Window)
    ensures SentInAll(windows + [w]) == SentInAll(windows) + w.sends
  {
    assert (windows + [w])[..|windows|] == windows;
  }

  lemma StepHoldsAll(p: Pacer, c: Config, level: Level)
    ensures SentInAll(Windows(Step(p, c, level))) == SentInAll(Windows(p)) + level.sends
  {
    hide SentInAll;
    SentInLast(p.closed, Window(p.started, p.sends));
    if Full(p, c) {
      SentInLast(Windows(p), Window(level.wake, [] + level.sends));
      assert [] + level.sends == level.sends;
    } else {
      SentInLast(p.closed, Window(p.started, p.sends + level.sends));
    }
  }

  /** The windows of a run hold the sends of its levels, all of them and in order. */
  lemma {:induction false} WindowsHoldAll(c: Config, start: real, levels: seq<Level>)
    ensures SentInAll(Windows(Run(Begin(start), c, levels))) == SentBy(levels)
  {
    hide Step, SentInAll, Windows;
    if levels == [] {
      NothingSent(start);
    } else {
      var front := levels[..|levels| - 1];
      WindowsHoldAll(c, start, front);
      StepHoldsAll(Run(Begin(start), c, front), c, levels[|levels| - 1]);
    }
  }

  lemma NothingSent(start: real)
    ensures SentInAll(Windows(Begin(start))) == []
  {
    SentInLast([], Window(start, []));
    assert [] + [Window(start, [])] == Windows(Begin(start));
  }

  /** The window before window `k` had no room for another level. */
  predicate FollowsFull(windows: seq<Window>, k: nat, c: Config)
    requires 0 < k < |windows|
  {
    |windows[k - 1].sends| + c.cases > c.limit
  }

  /** Window `k` starts when the one before it is over, or when the next level is
      ready if that is later. */
  predicate StartsPromptly(windows: seq<Window>, k: nat, c: Config, levels: seq<Level>)
    requires 0 < k < |windows|
  {
    exists level :: level in levels &&
      windows[k].start == Later(level.check, windows[k - 1].start + c.seconds + 1.0)
  }

  function Later(a: real, b: real): real { if a < b then b else a }

  /** Every sleep takes as long as asked for, and no level waits otherwise. */
  predicate AllPrompt(c: Config, start: real, levels: seq<Level>) {
    levels == [] ||
    (AllPrompt(c, start, levels[..|levels| - 1]) &&
     Prompt(Run(Begin(start), c, levels[..|levels| - 1]), c, levels[|levels| - 1]))
  }

  predicate Prompt(p: Pacer, c: Config, level: Level) {
    && |level.sends| == c.cases
    && level.wake == level.check + if Full(p, c) then Remaining(p, c, level.check) else 0.0
  }

  /** A new window is begun only when the last one has no room left, and then as soon
      as it may be. */
  lemma {:induction false} NoIdleWait(c: Config, start: real, levels: seq<Level>)
    requires AllPrompt(c, start, levels)
    ensures var p := Run(Begin(start), c, levels);
            && p.used == |p.sends|
            && forall k :: 0 < k < |Windows(p)| ==>
                 FollowsFull(Windows(p), k, c) && StartsPromptly(Windows(p), k, c, levels)
  {
    if levels != [] {
      var front, level := levels[..|levels| - 1], levels[|levels| - 1];
      NoIdleWait(c, start, front);
      var p := Run(Begin(start), c, front);
      var before, after := Windows(p), Windows(Step(p, c, level));
      forall k | 0 < k < |after| ensures FollowsFull(after, k, c) && StartsPromptly(after, k, c, levels) {
        if k < |before| {
          assert FollowsFull(before, k, c) && StartsPromptly(before, k, c, front);
          var l :| l in front && before[k].start == Later(l.check, before[k - 1].start + c.seconds + 1.0);
          assert l in levels;
        } else {
          assert level in levels;
        }
      }
    }
  }
}
