/** The event multiplexer of `src/tui.rs`. A background task waits on the
    terminal's input stream and on timers and, each time one of them fires,
    sends at most one `Event` into an unbounded FIFO channel, which
    `EventHandler::next` drains. Which source fires is a scheduling choice
    of `tokio::select!`; here it is an input, a sequence of `Firing`s. */
module Events {
  import Input
  import opened Wrappers

  /** The high-level events the channel carries. */
  datatype Event =
    | Init
    | Quit
    | Error
    | Closed
    | Tick
    | Render
    | FocusGained
    | FocusLost
    | Paste(text: string)
    | Key(key: Input.KeyEvent)
    | Mouse(mouse: Input.MouseEvent)
    | Resize(columns: Input.u16, rows: Input.u16)

  /** The branch of the `select!` that completed: the input stream yielded a
      notification, yielded an error, or ended; the tick timer elapsed; the
      render timer (of `Tui::start`) elapsed. */
  datatype Firing =
    | InputItem(item: Input.Notification)
    | InputError
    | InputEnd
    | TickElapsed
    | RenderElapsed

  /** The event one firing sends, if any. */
  function Translate(f: Firing): (r: Option<Event>)
    ensures r.Some? ==> Origin(r.value) == Some(f)
  {
    match f
    case InputItem(n) =>
      if n.Key? && n.key.kind == Input.Press then Some(Key(n.key)) else None
    case InputError => Some(Error)
    case InputEnd => None
    case TickElapsed => Some(Tick)
    case RenderElapsed => Some(Render)
  }

  /** The firing an event can only have come from; `None` for the events no
      firing produces. */
  function Origin(e: Event): Option<Firing> {
    match e
    case Key(k) => if k.kind == Input.Press then Some(InputItem(Input.Key(k))) else None
    case Error => Some(InputError)
    case Tick => Some(TickElapsed)
    case Render => Some(RenderElapsed)
    case _ => None
  }

  /** What one iteration of the loop appends to the channel. */
  function Emitted(f: Firing): (es: seq<Event>) {
    match Translate(f)
    case Some(e) => [e]
    case None => []
  }

  /** Everything the loop has sent after the firings `fs`, oldest first. */
  function Translated(fs: seq<Firing>): (es: seq<Event>)
    ensures forall i | 0 <= i < |es| :: Origin(es[i]).Some?
  {
    if fs == [] then [] else Translated(fs[..|fs| - 1]) + Emitted(fs[|fs| - 1])
  }

  /** How often `x` occurs in `s`. */
  function Occurrences<T(==)>(s: seq<T>, x: T): nat {
    if s == [] then 0
    else Occurrences(s[..|s| - 1], x) + (if s[|s| - 1] == x then 1 else 0)
  }

  /** The channel of `EventHandler`. Its sender side is the background loop;
      `pending` holds what was sent and not yet received, oldest first.
      `Fire` and `Pump` also accept `RenderElapsed`, which stands for the
      render timer of the other loop, the one in `Tui::start`
      (`src/tui.rs:131-132`); `EventHandler::new`'s own loop has no render
      timer and never gets that firing (see `HandlerNeverRenders`). */
  class EventHandler {
    var pending: seq<Event>

    /** `EventHandler::new`: an empty channel. */
    constructor ()
      ensures pending == []
    {
      pending := [];
    }

    /** One iteration of the spawned loop, for the branch `f` of the
        `select!` that completed. */
    method Fire(f: Firing)
      modifies this
      ensures pending == old(pending) + Emitted(f)
    {
      match Translate(f)
      case Some(e) =>
        pending := pending + [e];
      case None =>
    }

    /** The spawned loop, run over the firings `fs` in the order the
        scheduler chose them. */
    method Pump(fs: seq<Firing>)
      modifies this
      ensures pending == old(pending) + Translated(fs)
    {
      var i := 0;
      while i < |fs|
        invariant i <= |fs|
        invariant pending == old(pending) + Translated(fs[..i])
      {
        assert fs[..i + 1][..i] == fs[..i];
        Fire(fs[i]);
        i := i + 1;
      }
      assert fs[..i] == fs;
    }

    /** `EventHandler::next`: receive the oldest pending event. With nothing
        pending the model reports the error the program attaches to a
        closed channel. */
    method Next() returns (r: Result<Event>)
      modifies this
      ensures old(pending) == [] ==> r == Err("Unable to get event") && pending == []
      ensures old(pending) != [] ==> r == Ok(old(pending)[0]) && pending == old(pending)[1..]
    {
      if pending == [] {
        r := Err("Unable to get event");
      } else {
        r := Ok(pending[0]);
        pending := pending[1..];
      }
    }
  }

  // ---------------------------------------------------------------------
  // One firing

  /** A firing sends `e` exactly when `e` comes from it: a pressed key as
      `Key` with the same key, an input error as `Error`, the tick timer as
      `Tick`, the render timer as `Render`. Nothing else is ever sent, and
      no two firings send the same event. */
  lemma TranslateOrigin(f: Firing, e: Event)
    ensures Translate(f) == Some(e) <==> Origin(e) == Some(f)
  {
  }

  /** A key press is forwarded unchanged; a repeat or release is dropped. */
  lemma KeyForwarding(k: Input.KeyEvent)
    ensures Translate(InputItem(Input.Key(k))) == if k.kind == Input.Press then Some(Key(k)) else None
  {
  }

  /** An input error sends exactly `Error`, the tick timer exactly `Tick`. */
  lemma ErrorAndTick()
    ensures Translate(InputError) == Some(Error)
    ensures Translate(TickElapsed) == Some(Tick)
  {
  }

  /** The render timer of `Tui::start` sends exactly `Render`. */
  lemma RenderTimer()
    ensures Translate(RenderElapsed) == Some(Render)
  {
  }

  /** Mouse, resize, focus and paste notifications and the end of the input
      stream send nothing, although `Event` has variants for some of them. */
  lemma NonKeysDropped(f: Firing)
    requires f == InputEnd || (f.InputItem? && !f.item.Key?)
    ensures Translate(f) == None
  {
  }

  // ---------------------------------------------------------------------
  // The channel after many firings

  /** Firing `a` and then `b` sends what `a` sends followed by what `b`
      sends: events already queued are neither reordered nor removed. */
  lemma {:induction false} TranslatedAppend(a: seq<Firing>, b: seq<Firing>)
    ensures Translated(a + b) == Translated(a) + Translated(b)
  {
    if b == [] {
      assert a + b == a;
    } else {
      assert (a + b)[..|a + b| - 1] == a + b[..|b| - 1];
      TranslatedAppend(a, b[..|b| - 1]);
    }
  }

  /** What was sent after the first `i` firings stays the head of the
      channel's history. */
  lemma TranslatedPrefix(fs: seq<Firing>, i: nat)
    requires i <= |fs|
    ensures Translated(fs[..i]) <= Translated(fs)
  {
    assert fs == fs[..i] + fs[i..];
    TranslatedAppend(fs[..i], fs[i..]);
  }

  /** Each firing sends at most one event. */
  lemma {:induction false} TranslatedLength(fs: seq<Firing>)
    ensures |Translated(fs)| <= |fs|
  {
    if fs != [] {
      TranslatedLength(fs[..|fs| - 1]);
    }
  }

  /** Every event is sent as often as the one firing it comes from fired,
      and events that come from no firing are never sent. */
  lemma {:induction false} TranslatedCounts(fs: seq<Firing>, e: Event)
    ensures Occurrences(Translated(fs), e) ==
            match Origin(e)
            case None => 0
            case Some(f) => Occurrences(fs, f)
  {
    if fs != [] {
      var init, last := fs[..|fs| - 1], fs[|fs| - 1];
      TranslatedCounts(init, e);
      TranslateOrigin(last, e);
      var t := Translated(fs);
      assert Occurrences(t, e) == Occurrences(Translated(init), e) + (if Translate(last) == Some(e) then 1 else 0) by {
        if Translate(last).Some? {
          assert t[..|t| - 1] == Translated(init);
        } else {
          assert t == Translated(init);
        }
      }
      match Origin(e)
      case None =>
      case Some(f) =>
        assert Occurrences(fs, f) == Occurrences(init, f) + (if last == f then 1 else 0);
    }
  }

  /** The channel of `EventHandler::new`, which has no render timer, never
      carries `Render`. */
  lemma HandlerNeverRenders(fs: seq<Firing>)
    requires forall i | 0 <= i < |fs| :: fs[i] != RenderElapsed
    ensures Occurrences(Translated(fs), Render) == 0
  {
    TranslatedCounts(fs, Render);
    NotOccurring(fs, RenderElapsed);
  }

  /** A value that is not in a sequence occurs in it zero times. */
  lemma {:induction false} NotOccurring<T>(s: seq<T>, x: T)
    requires forall i | 0 <= i < |s| :: s[i] != x
    ensures Occurrences(s, x) == 0
  {
    if s != [] {
      NotOccurring(s[..|s| - 1], x);
    }
  }
}
