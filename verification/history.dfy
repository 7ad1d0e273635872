/**
 The message history viewer's cursor (input_handlers.py, HistoryViewer).

 The viewer snapshots the log length when it opens and keeps a cursor into
 the log. The cursor keys move it by CURSOR_Y_KEYS; a move that would leave
 the log from an edge wraps to the other edge, any other move is clamped.
 */
module History {
  import opened Keys
  import opened Bounds

  datatype Viewer = Viewer(logLength: int, cursor: int)

  /** The cursor points at a message of the snapshotted log. */
  predicate InRange(v: Viewer)
  {
    0 <= v.cursor < v.logLength
  }

  /** HistoryViewer.__init__: the cursor starts on the newest message. */
  function Open(logLength: nat): (v: Viewer)
    ensures v.logLength == logLength
    ensures logLength >= 1 ==> InRange(v) && v.cursor + 1 == logLength
    ensures logLength == 0 ==> v.cursor == -1
  {
    Viewer(logLength, logLength - 1)
  }

  /** One cursor adjustment by `adjust` (input_handlers.py:394-403). */
  function Scroll(v: Viewer, adjust: int): (v': Viewer)
    ensures v'.logLength == v.logLength
    ensures v.logLength >= 1 ==> InRange(v')
  {
    var last := v.logLength - 1;
    if adjust < 0 && v.cursor == 0 then v.(cursor := last)
    else if adjust > 0 && v.cursor == last then v.(cursor := 0)
    else v.(cursor := Clamp(v.cursor + adjust, 0, last))
  }

  /** UP moves to the previous message, cyclically. */
  lemma UpIsCyclicPredecessor(v: Viewer)
    requires InRange(v)
    ensures Scroll(v, -1).cursor == (v.cursor - 1) % v.logLength
  {
    if v.cursor == 0 {
      assert (v.cursor - 1) % v.logLength == v.logLength - 1;
    } else {
      assert (v.cursor - 1) % v.logLength == v.cursor - 1;
    }
  }

  /** DOWN moves to the next message, cyclically. */
  lemma DownIsCyclicSuccessor(v: Viewer)
    requires InRange(v)
    ensures Scroll(v, 1).cursor == (v.cursor + 1) % v.logLength
  {
    if v.cursor == v.logLength - 1 {
      assert (v.cursor + 1) % v.logLength == 0;
    } else {
      assert (v.cursor + 1) % v.logLength == v.cursor + 1;
    }
  }

  /**
   PAGEUP and PAGEDOWN move ten messages, stopping at the first or last one,
   except that from that edge itself they wrap to the other edge.
   */
  lemma PageKeys(v: Viewer)
    requires InRange(v)
    ensures Scroll(v, -10).cursor
            == if v.cursor == 0 then v.logLength - 1
               else if v.cursor >= 10 then v.cursor - 10 else 0
    ensures Scroll(v, 10).cursor
            == if v.cursor == v.logLength - 1 then 0
               else if v.cursor + 10 <= v.logLength - 1 then v.cursor + 10 else v.logLength - 1
  {
  }

  /** f applied n times. */
  function Iterate<T>(f: T -> T, x: T, n: nat): T
    decreases n
  {
    if n == 0 then x else Iterate(f, f(x), n - 1)
  }

  /** Applying f a + b times is applying it a times, then b times. */
  lemma {:induction false} IterateCompose<T>(f: T -> T, x: T, a: nat, b: nat)
    ensures Iterate(f, x, a + b) == Iterate(f, Iterate(f, x, a), b)
    decreases a
  {
    if a > 0 {
      IterateCompose(f, f(x), a - 1, b);
      assert Iterate(f, x, a + b) == Iterate(f, f(x), (a - 1) + b);
    }
  }

  /** One press of UP. */
  function Up(v: Viewer): Viewer
  {
    Scroll(v, -1)
  }

  /** n presses of UP. */
  function UpPresses(v: Viewer, n: nat): Viewer
  {
    Iterate(Up, v, n)
  }

  lemma {:induction false} UpPressesDescend(v: Viewer, n: nat)
    requires InRange(v) && n <= v.cursor
    ensures UpPresses(v, n) == v.(cursor := v.cursor - n)
    decreases n
  {
    if n > 0 {
      UpPressesDescend(Up(v), n - 1);
    }
  }

  /** Pressing UP once per message in the log comes back to where it started. */
  lemma FullCycle(v: Viewer)
    requires InRange(v)
    ensures UpPresses(v, v.logLength) == v
  {
    var c, last := v.cursor, v.logLength - 1;
    IterateCompose(Up, v, c, 1 + (last - c));
    UpPressesDescend(v, c);
    IterateCompose(Up, v.(cursor := 0), 1, last - c);
    assert UpPresses(v.(cursor := 0), 1) == v.(cursor := last);
    UpPressesDescend(v.(cursor := last), last - c);
  }

  /** What a key does in the viewer: move the cursor, or close the viewer. */
  datatype Nav = Moved(viewer: Viewer) | Closed

  /**
   HistoryViewer.ev_keydown. The cursor keys, HOME and END keep the viewer
   open (HOME goes to the first message, END to the last); every other key,
   modifier keys included, closes it.
   */
  function Navigate(v: Viewer, key: Key): (r: Nav)
    ensures r.Moved? <==> key in CursorYKeys || key == Home || key == End
    ensures r.Moved? ==> r.viewer.logLength == v.logLength
    ensures r.Moved? && v.logLength >= 1 ==> InRange(r.viewer)
    ensures r.Moved? && v.logLength == 0 && -1 <= v.cursor <= 0 ==> -1 <= r.viewer.cursor <= 0
    ensures key == Home ==> r == Moved(v.(cursor := 0))
    ensures key == End ==> r == Moved(v.(cursor := v.logLength - 1))
  {
    if key in CursorYKeys then Moved(Scroll(v, CursorYKeys[key]))
    else if key == Home then Moved(v.(cursor := 0))
    else if key == End then Moved(v.(cursor := v.logLength - 1))
    else Closed
  }

  /** Python's s[:stop] for a non-negative or negative stop. */
  function PrefixSlice<T>(s: seq<T>, stop: int): seq<T>
  {
    if stop < 0 then s[..if |s| + stop < 0 then 0 else |s| + stop]
    else if stop > |s| then s
    else s[..stop]
  }

  /**
   The messages the viewer renders, messages[:cursor + 1]: the log up to and
   including the cursor's message, which is the last one shown. On an empty
   log (cursor -1 or 0) nothing is shown.
   */
  function VisibleMessages<T>(log: seq<T>, v: Viewer): (shown: seq<T>)
    ensures |shown| <= |log|
    ensures forall i :: 0 <= i < |shown| ==> shown[i] == log[i]
    ensures -1 <= v.cursor ==> |shown| == if v.cursor + 1 <= |log| then v.cursor + 1 else |log|
    ensures InRange(v) && v.logLength <= |log| ==> shown[v.cursor] == log[v.cursor]
  {
    PrefixSlice(log, v.cursor + 1)
  }
}
