/** The live scrolling chart (`PingScene`): a newest-first buffer of stamps,
    a scroll position with a "pinned to live" flag, and the counters shown on
    screen. Drawing is reduced to which buffer entries each frame reads. */
module LiveView {
  import opened Wrappers
  import opened Records

  /** Rows fetched per backfill pull. */
  const DbPullInterval: int := 100
  /** Entries moved by one wheel notch up or down. */
  const StepUp: int := 2
  const StepDown: int := 2
  /** `MARGIN_SMALL_H`, the label offset every stamp is created with. */
  const LabelOffsetY: int := 10

  datatype EventKind = MouseButtonDown | OtherEvent

  /** A pygame event as the scene sees it; `onJumpButton` says whether the
      click lies inside the jump-to-live button's rectangle. */
  datatype MouseEvent = MouseEvent(kind: EventKind, button: int, onJumpButton: bool)

  /** An x-axis label: a number of time steps back, or the word "LIVE". */
  datatype XLabel = Steps(value: int) | Live

  function Min(a: int, b: int): int { if a <= b then a else b }

  /** Python's `round(a / b)` for a positive divisor: the nearest integer,
      ties going to the even one. */
  function RoundDiv(a: int, b: int): (r: int)
    requires b > 0
    ensures -b <= 2 * (a - r * b) <= b
    ensures (2 * (a - r * b) == b || 2 * (a - r * b) == -b) ==> r % 2 == 0
  {
    var q, m := a / b, a % b;
    if 2 * m > b then q + 1
    else if 2 * m < b then q
    else if q % 2 == 0 then q
    else q + 1
  }

  /** The stamp `render` makes of one stored row. */
  function RowStamp(row: ProbeRecord): Stamp
  {
    Stamp(row.receiverReadable, row.ms, LabelOffsetY)
  }

  function RowStamps(rows: seq<ProbeRecord>): (r: seq<Stamp>)
    ensures |r| == |rows|
    ensures forall i :: 0 <= i < |rows| ==> r[i] == RowStamp(rows[i])
  {
    if |rows| == 0 then [] else RowStamps(rows[..|rows| - 1]) + [RowStamp(rows[|rows| - 1])]
  }

  function DeadRows(rows: seq<ProbeRecord>): nat
  {
    if |rows| == 0 then 0
    else DeadRows(rows[..|rows| - 1]) + (if IsDead(rows[|rows| - 1].ms) then 1 else 0)
  }

  /** The number of dead entries of a buffer. */
  function DeadStamps(s: seq<Stamp>): nat
  {
    if |s| == 0 then 0 else DeadStamps(s[..|s| - 1]) + (if IsDead(s[|s| - 1].ping) then 1 else 0)
  }

  lemma {:induction false} DeadStampsAppend(a: seq<Stamp>, b: seq<Stamp>)
    ensures DeadStamps(a + b) == DeadStamps(a) + DeadStamps(b)
  {
    if |b| > 0 {
      DeadStampsAppend(a, b[..|b| - 1]);
      assert (a + b)[..|a + b| - 1] == a + b[..|b| - 1];
    } else {
      assert a + b == a;
    }
  }

  /** Converting rows to stamps keeps exactly the dead ones dead. */
  lemma {:induction false} DeadRowStamps(rows: seq<ProbeRecord>)
    ensures DeadStamps(RowStamps(rows)) == DeadRows(rows)
  {
    if |rows| > 0 {
      DeadRowStamps(rows[..|rows| - 1]);
      var r := RowStamps(rows);
      assert r[..|r| - 1] == RowStamps(rows[..|rows| - 1]);
    }
  }

  /** The conversion loop of `render`: one stamp per row, in the order the
      rows came, and the number of dead rows among them. */
  method ConvertRows(rows: seq<ProbeRecord>) returns (stamps: seq<Stamp>, dead: nat)
    ensures stamps == RowStamps(rows)
    ensures dead == DeadRows(rows)
  {
    stamps, dead := [], 0;
    var i := 0;
    while i < |rows|
      invariant 0 <= i <= |rows|
      invariant stamps == RowStamps(rows[..i])
      invariant dead == DeadRows(rows[..i])
    {
      assert rows[..i + 1][..i] == rows[..i];
      if rows[i].ms <= 0 {
        dead := dead + 1;
      }
      stamps := stamps + [RowStamp(rows[i])];
      i := i + 1;
    }
    assert rows[..i] == rows;
  }

  class PingScene {
    const elementCount: int
    const stepX: int
    const stepY: int
    const ylim: int

    var scrollOffset: int
    var startSticky: bool
    var totalStamps: int
    var displayStamps: seq<Stamp>
    var deadCounter: int

    /** The scene's invariant: the offset is never negative, a pinned view sits
        at offset 0, and the dead counter counts the dead entries of the buffer. */
    ghost predicate Valid()
      reads this
    {
      && elementCount > 0
      && scrollOffset >= 0
      && (startSticky ==> scrollOffset == 0)
      && totalStamps >= 0
      && deadCounter == DeadStamps(displayStamps)
    }

    constructor (timeStep: int, ylimit: int, count: int)
      requires count > 0
      ensures Valid()
      ensures elementCount == count && stepX == timeStep && ylim == ylimit
      ensures stepY == RoundDiv(ylimit, count)
      ensures scrollOffset == 0 && startSticky && totalStamps == 0
      ensures displayStamps == [] && deadCounter == 0
    {
      elementCount := count;
      stepX := timeStep;
      stepY := RoundDiv(ylimit, count);
      ylim := ylimit;
      scrollOffset := 0;
      startSticky := true;
      totalStamps := 0;
      displayStamps := [];
      deadCounter := 0;
    }

    /** `end` of `render` and `draw_stamps`: how many entries a frame shows. */
    function Window(): int
      reads this
    {
      Min(|displayStamps|, elementCount + 1)
    }

    /** Whether `render` pulls older rows: the view is not pinned and the
        buffer is shorter than the window at the current offset plus one. */
    predicate NeedsBackfill()
      reads this
    {
      !startSticky && |displayStamps| < Window() + scrollOffset + 1
    }

    /** Mouse input: the wheel (buttons 4 and 5) scrolls, a left click on the
        jump button returns to the live edge; any other event changes nothing. */
    method PushEvent(e: MouseEvent)
      requires Valid()
      modifies this`scrollOffset, this`startSticky
      ensures Valid()
      ensures e.kind != MouseButtonDown || e.button !in {1, 4, 5} ==>
        scrollOffset == old(scrollOffset) && startSticky == old(startSticky)
      ensures e.kind == MouseButtonDown && e.button == 1 ==>
        if old(scrollOffset) > 0 && e.onJumpButton then scrollOffset == 0 && startSticky
        else scrollOffset == old(scrollOffset) && startSticky == old(startSticky)
      ensures e.kind == MouseButtonDown && e.button == 4 ==>
        scrollOffset == old(scrollOffset) + StepUp && !startSticky
      ensures e.kind == MouseButtonDown && e.button == 5 ==>
        if old(scrollOffset) - StepDown <= 0 then scrollOffset == 0 && startSticky
        else scrollOffset == old(scrollOffset) - StepDown && startSticky == old(startSticky)
    {
      if e.kind == MouseButtonDown {
        if e.button == 1 && scrollOffset > 0 {
          if e.onJumpButton {
            scrollOffset := 0;
            startSticky := true;
          }
        }
        if e.button == 4 {
          scrollOffset := scrollOffset + StepUp;
          startSticky := false;
        }
        if e.button == 5 {
          scrollOffset := scrollOffset - StepDown;
          if scrollOffset <= 0 {
            startSticky := true;
            scrollOffset := 0;
          }
        }
      }
    }

    /** A live observation: prepended at index 0; when the view is not pinned
        the offset follows it so the scrolled-to entries stay in place. */
    method AddStamp(labelText: string, ping: int)
      requires Valid()
      modifies this`scrollOffset, this`deadCounter, this`displayStamps, this`totalStamps
      ensures Valid()
      ensures displayStamps == [Stamp(labelText, ping, LabelOffsetY)] + old(displayStamps)
      ensures |displayStamps| == |old(displayStamps)| + 1
      ensures forall i :: 0 <= i < |old(displayStamps)| ==> displayStamps[i + 1] == old(displayStamps)[i]
      ensures totalStamps == old(totalStamps) + 1
      ensures deadCounter == old(deadCounter) + (if IsDead(ping) then 1 else 0)
      ensures scrollOffset == old(scrollOffset) + (if old(startSticky) then 0 else 1)
      ensures startSticky == old(startSticky)
    {
      if !startSticky {
        scrollOffset := scrollOffset + 1;
      }
      if ping <= 0 {
        deadCounter := deadCounter + 1;
      }
      var stamp := Stamp(labelText, ping, LabelOffsetY);
      DeadStampsAppend([stamp], displayStamps);
      assert DeadStamps([stamp]) == (if IsDead(ping) then 1 else 0) by {
        assert [stamp][..0] == [];
      }
      displayStamps := [stamp] + displayStamps;
      totalStamps := totalStamps + 1;
    }

    /** The state-changing half of `render`. `pull(skip, limit)` stands for the
        store's offset query: up to `limit` rows, newest first, after skipping
        the `skip` most recent ones. One backfill pull happens only when
        `NeedsBackfill()`; if the buffer is still short afterwards the offset
        takes one step back toward 0. */
    method Render(pull: (int, int) -> seq<ProbeRecord>)
      requires Valid()
      modifies this`scrollOffset, this`deadCounter, this`displayStamps, this`totalStamps
      ensures Valid()
      ensures startSticky == old(startSticky)
      ensures !old(NeedsBackfill()) ==>
        && displayStamps == old(displayStamps) && totalStamps == old(totalStamps)
        && deadCounter == old(deadCounter) && scrollOffset == old(scrollOffset)
      ensures old(NeedsBackfill()) ==>
        var rows := pull(old(totalStamps), DbPullInterval);
        && displayStamps == old(displayStamps) + RowStamps(rows)
        && totalStamps == old(totalStamps) + DbPullInterval
        && deadCounter == old(deadCounter) + DeadRows(rows)
        && scrollOffset ==
             if |displayStamps| < old(Window()) + old(scrollOffset) + 1 then
               (if old(scrollOffset) > StepUp then old(scrollOffset) - StepUp else 0)
             else old(scrollOffset)
    {
      if !startSticky {
        var end := Window();
        if |displayStamps| < end + scrollOffset + 1 {
          var timestamps := pull(totalStamps, DbPullInterval);
          var stamps, dead := ConvertRows(timestamps);
          DeadRowStamps(timestamps);
          DeadStampsAppend(displayStamps, stamps);
          var grown := displayStamps + stamps;
          var offset := scrollOffset;
          if |grown| < end + offset + 1 {
            offset := if offset > StepUp then offset - StepUp else 0;
          }
          totalStamps := totalStamps + DbPullInterval;
          deadCounter := deadCounter + dead;
          displayStamps := grown;
          scrollOffset := offset;
        }
      }
    }

    /** The entries `draw_stamps` reads: for `0 <= i < end - 1` the pair at
        `i + scrollOffset` and `i + 1 + scrollOffset`. `None` stands for the
        IndexError raised when the buffer is too short for the offset. */
    method DrawStamps() returns (segments: Option<seq<(Stamp, Stamp)>>)
      requires Valid()
      ensures segments.Some? <==> Window() < 2 || |displayStamps| >= Window() + scrollOffset
      ensures segments.Some? ==>
        && |segments.value| == (if Window() < 1 then 0 else Window() - 1)
        && forall i :: 0 <= i < |segments.value| ==>
             segments.value[i] == (displayStamps[i + scrollOffset], displayStamps[i + 1 + scrollOffset])
      ensures scrollOffset == 0 ==> segments.Some?
    {
      var end := Min(|displayStamps|, elementCount + 1);
      var drawn: seq<(Stamp, Stamp)> := [];
      var i := 0;
      while i < end - 1
        invariant 0 <= i <= (if end < 1 then 0 else end - 1)
        invariant i == 0 || |displayStamps| >= i + 1 + scrollOffset
        invariant |drawn| == i
        invariant forall j :: 0 <= j < i ==>
          drawn[j] == (displayStamps[j + scrollOffset], displayStamps[j + 1 + scrollOffset])
      {
        if i + 1 + scrollOffset >= |displayStamps| {
          return None;
        }
        drawn := drawn + [(displayStamps[i + scrollOffset], displayStamps[i + 1 + scrollOffset])];
        i := i + 1;
      }
      segments := Some(drawn);
    }

    /** The nested `get_x_label`: the `index`-th tick counts back from the
        right edge; past the ticks it shows the offset, or "LIVE" when pinned
        at 0. */
    method GetXLabel(index: int) returns (tick: XLabel)
      requires Valid()
      ensures 0 <= index < elementCount - 1 ==>
        tick == Steps(stepX * (elementCount + scrollOffset - 1 - index))
      ensures !(0 <= index < elementCount - 1) ==>
        tick == if scrollOffset > 0 then Steps(stepX * scrollOffset) else Live
    {
      var count := stepX * (elementCount + scrollOffset);
      var k := 0;
      while k < elementCount - 1
        invariant 0 <= k <= elementCount - 1
        invariant count == stepX * (elementCount + scrollOffset - k)
        invariant !(0 <= index < k)
      {
        count := count - stepX;
        if k == index {
          return Steps(count);
        }
        k := k + 1;
      }
      if scrollOffset > 0 {
        return Steps(count - stepX);
      }
      return Live;
    }

    /** The nested `get_y_label`: tick `index` of the y axis is `stepY * (index + 1)`;
        outside `0 .. elementCount - 1` there is no label (Python returns None). */
    method GetYLabel(index: int) returns (tick: Option<int>)
      requires Valid()
      ensures tick.Some? <==> 0 <= index < elementCount
      ensures tick.Some? ==> tick.value == stepY * (index + 1)
    {
      var count := stepY;
      var k := 0;
      while k < elementCount
        invariant 0 <= k <= elementCount
        invariant count == stepY * (k + 1)
        invariant !(0 <= index < k)
      {
        if index == k {
          return Some(count);
        }
        count := count + stepY;
        k := k + 1;
      }
      return None;
    }
  }
}

/** Two runs of the scene, built only from its own operations, that end in a
    frame whose buffer is too short for the offset. */
module LiveViewRuns {
  import opened Wrappers
  import opened Records
  import opened LiveView

  /** A fresh scene with ten elements per frame that has received `n` live
      stamps while pinned. */
  method LiveScene(n: nat) returns (scene: PingScene)
    ensures fresh(scene) && scene.Valid() && scene.elementCount == 10
    ensures |scene.displayStamps| == n && scene.totalStamps == n
    ensures scene.scrollOffset == 0 && scene.startSticky
  {
    scene := new PingScene(1, 1000, 10);
    var i := 0;
    while i < n
      invariant 0 <= i <= n
      invariant scene.Valid() && scene.elementCount == 10
      invariant |scene.displayStamps| == i && scene.totalStamps == i
      invariant scene.scrollOffset == 0 && scene.startSticky
    {
      scene.AddStamp("live", 20);
      i := i + 1;
    }
  }

  /** Three live stamps, one wheel notch up, and a store holding three older
      rows: the pull exactly meets the backfill test computed with the old
      window, so no clamp happens, yet the window recomputed after the pull
      needs two entries more than the buffer has. */
  method BackfillThatFitsStillOverruns() returns (segments: Option<seq<(Stamp, Stamp)>>)
    ensures segments.None?
  {
    var scene := LiveScene(3);
    scene.PushEvent(MouseEvent(MouseButtonDown, 4, false));
    assert scene.scrollOffset == 2 && !scene.startSticky && scene.Window() == 3;
    var older := ProbeRecord(30, 1000, "10.0.0.9", "d", None, false, 0);
    var pull := (skip: int, limit: int) => if skip == 3 then [older, older, older] else [];
    assert |pull(3, DbPullInterval)| == 3;
    scene.Render(pull);
    assert |scene.displayStamps| == 6 && scene.scrollOffset == 2;
    segments := scene.DrawStamps();
  }

  /** Twelve entries, ten elements per frame and the offset at 11, with no
      older rows in the store: `render` clamps once, to 9, and the frame still
      reads past the end of the buffer. */
  method ClampStepTooSmall() returns (offset: int, segments: Option<seq<(Stamp, Stamp)>>)
    ensures offset == 9 && segments.None?
  {
    var scene := LiveScene(11);
    var wheelUp := MouseEvent(MouseButtonDown, 4, false);
    scene.PushEvent(wheelUp);
    scene.PushEvent(wheelUp);
    scene.PushEvent(wheelUp);
    scene.PushEvent(wheelUp);
    scene.PushEvent(wheelUp);
    scene.AddStamp("live", 20);
    assert |scene.displayStamps| == 12 && scene.scrollOffset == 11 && !scene.startSticky;
    scene.Render((skip: int, limit: int) => []);
    offset := scene.scrollOffset;
    segments := scene.DrawStamps();
  }
}
