/** How the two halves fit together. `src/main.rs` reads the terminal itself,
    while `src/tui.rs` forwards terminal input as `Event`s; both drop every
    key notification that is not a press. This module shows the two filters
    agree: handing the counter the events the multiplexer sends yields the
    same state as handing it the terminal's notifications directly. */
module Pipeline {
  import Input
  import Events
  import opened Counter

  /** What `update` would see if the multiplexer's source fired: the
      notification itself, the I/O error, or nothing (a timeout). */
  function RawPoll(f: Events.Firing): Poll {
    match f
    case InputItem(n) => Ready(n)
    case InputError => Failed
    case _ => Timeout
  }

  /** What `update` sees when it is handed an event instead: a key event is
      the key notification it carries, `Error` is a failed read, and every
      other event reads as nothing. */
  function EventPoll(e: Events.Event): Poll {
    match e
    case Key(k) => Ready(Input.Key(k))
    case Error => Failed
    case _ => Timeout
  }

  function RawPolls(fs: seq<Events.Firing>): (ps: seq<Poll>)
    ensures |ps| == |fs|
  {
    seq(|fs|, i requires 0 <= i < |fs| => RawPoll(fs[i]))
  }

  function EventPolls(es: seq<Events.Event>): (ps: seq<Poll>)
    ensures |ps| == |es|
  {
    seq(|es|, i requires 0 <= i < |es| => EventPoll(es[i]))
  }

  /** One firing: whatever the multiplexer sends for it has the same effect
      on the counter as the raw notification. */
  lemma FiringAgrees(s: AppState, f: Events.Firing)
    ensures Replay(s, EventPolls(Events.Emitted(f))) == Step(s, RawPoll(f))
  {
  }

  /** Any run of firings: feeding the counter the channel's events in order
      ends in the same state as feeding it the terminal input in order. */
  lemma {:induction false} PipelineAgrees(s: AppState, fs: seq<Events.Firing>)
    ensures Replay(s, EventPolls(Events.Translated(fs))) == Replay(s, RawPolls(fs))
  {
    if fs != [] {
      var init, last := fs[..|fs| - 1], fs[|fs| - 1];
      var sent, more := Events.Translated(init), Events.Emitted(last);
      assert EventPolls(sent + more) == EventPolls(sent) + EventPolls(more);
      ReplayAppend(s, EventPolls(sent), EventPolls(more));
      PipelineAgrees(s, init);
      FiringAgrees(Replay(s, RawPolls(init)), last);
      assert RawPolls(fs)[..|fs| - 1] == RawPolls(init);
    }
  }

  // Keys j, j, k, q pressed with a tick, a render and the release of j in
  // between.
  const J := Input.KeyEvent(Input.Char('j'), 0, Input.Press)
  const K := Input.KeyEvent(Input.Char('k'), 0, Input.Press)
  const Q := Input.KeyEvent(Input.Char('q'), 0, Input.Press)
  const Up := Input.KeyEvent(Input.Char('j'), 0, Input.Release)
  const Scenario: seq<Events.Firing> :=
    [Events.InputItem(Input.Key(J)), Events.TickElapsed, Events.InputItem(Input.Key(Up)),
     Events.InputItem(Input.Key(J)), Events.RenderElapsed, Events.InputItem(Input.Key(K)),
     Events.InputItem(Input.Key(Q))]

  /** The release is dropped; every other firing sends one event, in order. */
  lemma ScenarioEvents()
    ensures Events.Translated(Scenario) ==
            [Events.Key(J), Events.Tick, Events.Key(J), Events.Render, Events.Key(K), Events.Key(Q)]
  {
    var fs := Scenario;
    var es := [Events.Key(J), Events.Tick, Events.Key(J), Events.Render, Events.Key(K), Events.Key(Q)];
    assert Events.Translated(fs[..1]) == es[..1] by { assert fs[..1][..0] == []; }
    assert Events.Translated(fs[..2]) == es[..2] by { assert fs[..2][..1] == fs[..1]; }
    assert Events.Translated(fs[..3]) == es[..2] by { assert fs[..3][..2] == fs[..2]; }
    assert Events.Translated(fs[..4]) == es[..3] by { assert fs[..4][..3] == fs[..3]; }
    assert Events.Translated(fs[..5]) == es[..4] by { assert fs[..5][..4] == fs[..4]; }
    assert Events.Translated(fs[..6]) == es[..5] by { assert fs[..6][..5] == fs[..5]; }
    assert fs[..6] == fs[..|fs| - 1];
  }

  /** The counter run over the six events reads all of them and ends at 1
      with the quit flag set. */
  lemma ScenarioCounter()
    ensures var ps := EventPolls(Events.Translated(Scenario));
            Consumed(ps) == 6 && Replay(Initial, ps) == AppState(1, true)
  {
    ScenarioEvents();
    var ps := EventPolls(Events.Translated(Scenario));
    assert ps == [Ready(Input.Key(J)), Timeout, Ready(Input.Key(J)), Timeout, Ready(Input.Key(K)), Ready(Input.Key(Q))];
    ScenarioPolls(ps);
  }

  lemma ScenarioPolls(ps: seq<Poll>)
    requires ps == [Ready(Input.Key(J)), Timeout, Ready(Input.Key(J)), Timeout, Ready(Input.Key(K)), Ready(Input.Key(Q))]
    ensures Consumed(ps) == 6 && Replay(Initial, ps) == AppState(1, true)
  {
    assert Consumed(ps) == 6 by {
      assert Stops(ps[5]);
      assert ps[1..][1..][1..][1..][1..] == [ps[5]];
    }
    assert Replay(Initial, ps[..1]) == AppState(1, false) by { assert ps[..1][..0] == []; }
    assert Replay(Initial, ps[..2]) == AppState(1, false) by { assert ps[..2][..1] == ps[..1]; }
    assert Replay(Initial, ps[..3]) == AppState(2, false) by { assert ps[..3][..2] == ps[..2]; }
    assert Replay(Initial, ps[..4]) == AppState(2, false) by { assert ps[..4][..3] == ps[..3]; }
    assert Replay(Initial, ps[..5]) == AppState(1, false) by { assert ps[..5][..4] == ps[..4]; }
    assert ps[..|ps| - 1] == ps[..5];
  }
}
