/** The counter application of `src/main.rs`: a signed counter and a quit
    flag, changed one terminal notification at a time, and the loop that
    runs until the flag is set. The crossterm calls `event::poll` and
    `event::read` are replaced by a sequence of `Poll` values, one per
    call of `update`. */
module Counter {
  import opened Input

  /** The state of `App`. */
  datatype AppState = AppState(counter: int, shouldQuit: bool)

  /** The state `run` builds before its loop. */
  const Initial: AppState := AppState(0, false)

  /** What one call of `update` gets from the terminal: the 250 ms poll ran
      out (`Timeout`), a notification was read (`Ready`), or `poll` or
      `read` returned an I/O error (`Failed`). */
  datatype Poll = Timeout | Ready(n: Notification) | Failed

  /** Is `p` a notification of a press of the character key `c`? */
  predicate IsPress(p: Poll, c: char) {
    p.Ready? && IsPressOf(p.n, Char(c))
  }

  /** The effect of a notification that was read: presses of 'j', 'k' and
      'q' act, everything else is ignored. */
  function Apply(s: AppState, n: Notification): (r: AppState)
    ensures !(n.Key? && n.key.kind == Press) ==> r == s
    ensures s.counter - 1 <= r.counter <= s.counter + 1
    ensures s.shouldQuit ==> r.shouldQuit
    ensures r.counter != s.counter ==> r.shouldQuit == s.shouldQuit
  {
    if IsPressOf(n, Char('j')) then s.(counter := s.counter + 1)
    else if IsPressOf(n, Char('k')) then s.(counter := s.counter - 1)
    else if IsPressOf(n, Char('q')) then s.(shouldQuit := true)
    else s
  }

  /** The state after one call of `update`. A failed poll or read leaves the
      state as it was (the error goes to the caller, see `Stops`). */
  function Step(s: AppState, p: Poll): (r: AppState)
    ensures !p.Ready? ==> r == s
    ensures s.counter - 1 <= r.counter <= s.counter + 1
    ensures s.shouldQuit ==> r.shouldQuit
  {
    match p
    case Ready(n) => Apply(s, n)
    case _ => s
  }

  /** The state after `update` has seen every poll of `ps`, oldest first. */
  function Replay(s: AppState, ps: seq<Poll>): (r: AppState)
    ensures s.counter - |ps| <= r.counter <= s.counter + |ps|
    ensures s.shouldQuit ==> r.shouldQuit
  {
    if ps == [] then s else Step(Replay(s, ps[..|ps| - 1]), ps[|ps| - 1])
  }

  /** How many polls of `ps` are presses of the character key `c`. */
  function PressCount(ps: seq<Poll>, c: char): nat {
    if ps == [] then 0
    else PressCount(ps[..|ps| - 1], c) + (if IsPress(ps[|ps| - 1], c) then 1 else 0)
  }

  /** Does `run` leave its loop after this poll? It does on the error that
      `update(&mut app)?` propagates, and when the poll set the quit flag,
      which only a press of 'q' does. */
  predicate Stops(p: Poll) {
    p.Failed? || IsPress(p, 'q')
  }

  /** How many polls `run` consumes from `ps`: up to and including the first
      that stops it, or all of them. */
  function Consumed(ps: seq<Poll>): (k: nat)
    ensures k <= |ps|
    ensures forall i | 0 <= i < k - 1 :: !Stops(ps[i])
    ensures k < |ps| ==> 0 < k && Stops(ps[k - 1])
  {
    if ps == [] then 0
    else if Stops(ps[0]) then 1
    else 1 + Consumed(ps[1..])
  }

  /** `App`: the application state, updated in place through `&mut App`. */
  class App {
    var counter: int
    var shouldQuit: bool

    function State(): AppState
      reads this
    {
      AppState(counter, shouldQuit)
    }

    constructor ()
      ensures State() == Initial
    {
      counter := 0;
      shouldQuit := false;
    }

    /** `update`: one poll of the terminal. `ok` is false exactly when the
        poll or the read failed, where the program returns the error. */
    method Update(p: Poll) returns (ok: bool)
      modifies this
      ensures State() == Step(old(State()), p)
      ensures ok <==> !p.Failed?
    {
      match p
      case Failed =>
        ok := false;
      case Timeout =>
        ok := true;
      case Ready(n) =>
        ok := true;
        if n.Key? && n.key.kind == Press {
          if n.key.code == Char('j') {
            counter := counter + 1;
          } else if n.key.code == Char('k') {
            counter := counter - 1;
          } else if n.key.code == Char('q') {
            shouldQuit := true;
          }
        }
    }
  }

  /** `run`: start from a zero counter, call `update` until it fails or the
      quit flag is set. `failed` says the loop ended on an error. If `ps`
      runs out first, the model stops there. */
  method Run(ps: seq<Poll>) returns (final: AppState, consumed: nat, failed: bool)
    ensures consumed == Consumed(ps)
    ensures final == Replay(Initial, ps[..consumed])
    ensures failed <==> 0 < consumed && ps[consumed - 1].Failed?
  {
    var app := new App();
    consumed, failed := 0, false;
    while consumed < |ps|
      invariant consumed <= |ps|
      invariant app.State() == Replay(Initial, ps[..consumed])
      invariant !app.shouldQuit
      invariant forall i | 0 <= i < consumed :: !Stops(ps[i])
    {
      assert ps[..consumed + 1][..consumed] == ps[..consumed];
      var ok := app.Update(ps[consumed]);
      consumed := consumed + 1;
      if !ok {
        failed := true;
        break;
      }
      if app.shouldQuit {
        break;
      }
    }
    final := app.State();
  }

  // ---------------------------------------------------------------------
  // One step

  /** A press of 'j' adds one and leaves the quit flag alone. */
  lemma PressJ(s: AppState, modifiers: bv8)
    ensures Step(s, Ready(Key(KeyEvent(Char('j'), modifiers, Press))))
         == AppState(s.counter + 1, s.shouldQuit)
  {
  }

  /** A press of 'k' subtracts one and leaves the quit flag alone. */
  lemma PressK(s: AppState, modifiers: bv8)
    ensures Step(s, Ready(Key(KeyEvent(Char('k'), modifiers, Press))))
         == AppState(s.counter - 1, s.shouldQuit)
  {
  }

  /** A press of 'q' sets the quit flag and leaves the counter alone. */
  lemma PressQ(s: AppState, modifiers: bv8)
    ensures Step(s, Ready(Key(KeyEvent(Char('q'), modifiers, Press))))
         == AppState(s.counter, true)
  {
  }

  /** A timeout, a failure, a notification that is not a key, a repeat or
      release, or a press of any other key changes nothing. */
  lemma OthersIgnored(s: AppState, p: Poll)
    requires !IsPress(p, 'j') && !IsPress(p, 'k') && !IsPress(p, 'q')
    ensures Step(s, p) == s
  {
  }

  // ---------------------------------------------------------------------
  // Sequences of polls

  /** Replaying two stretches of input one after the other is replaying
      their concatenation. */
  lemma {:induction false} ReplayAppend(s: AppState, a: seq<Poll>, b: seq<Poll>)
    ensures Replay(s, a + b) == Replay(Replay(s, a), b)
  {
    if b == [] {
      assert a + b == a;
    } else {
      assert (a + b)[..|a + b| - 1] == a + b[..|b| - 1];
      ReplayAppend(s, a, b[..|b| - 1]);
    }
  }

  /** The counter moves by the number of 'j' presses minus the number of
      'k' presses, whatever else the input holds. */
  lemma {:induction false} ReplayCounter(s: AppState, ps: seq<Poll>)
    ensures Replay(s, ps).counter == s.counter + PressCount(ps, 'j') - PressCount(ps, 'k')
  {
    if ps != [] {
      ReplayCounter(s, ps[..|ps| - 1]);
    }
  }

  /** The quit flag is set after a stretch of input exactly when it was set
      before or the stretch holds a press of 'q': `update` never clears it. */
  lemma {:induction false} ReplayQuit(s: AppState, ps: seq<Poll>)
    ensures Replay(s, ps).shouldQuit <==>
            s.shouldQuit || exists i | 0 <= i < |ps| :: IsPress(ps[i], 'q')
  {
    if ps != [] {
      var init := ps[..|ps| - 1];
      ReplayQuit(s, init);
      if exists i | 0 <= i < |init| :: IsPress(init[i], 'q') {
        var i :| 0 <= i < |init| && IsPress(init[i], 'q');
        assert IsPress(ps[i], 'q');
      }
      if exists i | 0 <= i < |ps| :: IsPress(ps[i], 'q') {
        var i :| 0 <= i < |ps| && IsPress(ps[i], 'q');
        if i < |init| {
          assert IsPress(init[i], 'q');
        }
      }
    }
  }

  /** Once the quit flag is set, no further input clears it. */
  lemma QuitSticks(s: AppState, ps: seq<Poll>)
    requires s.shouldQuit
    ensures Replay(s, ps).shouldQuit
  {
    ReplayQuit(s, ps);
  }

  // ---------------------------------------------------------------------
  // The run loop

  /** `run` ends with the quit flag set exactly when the last poll it
      consumed was a press of 'q'. */
  lemma RunQuits(ps: seq<Poll>)
    ensures var k := Consumed(ps);
            Replay(Initial, ps[..k]).shouldQuit <==> 0 < k && IsPress(ps[k - 1], 'q')
  {
    var k := Consumed(ps);
    ReplayQuit(Initial, ps[..k]);
    if exists i | 0 <= i < k :: IsPress(ps[..k][i], 'q') {
      var i :| 0 <= i < k && IsPress(ps[..k][i], 'q');
      assert Stops(ps[i]);
    }
    if 0 < k && IsPress(ps[k - 1], 'q') {
      assert IsPress(ps[..k][k - 1], 'q');
    }
  }

  /** Whatever follows the poll that stops `run` is never read. */
  lemma {:induction false} RunIgnoresRest(ps: seq<Poll>, rest: seq<Poll>)
    requires exists i | 0 <= i < |ps| :: Stops(ps[i])
    ensures Consumed(ps + rest) == Consumed(ps)
  {
    if !Stops(ps[0]) {
      var i :| 0 <= i < |ps| && Stops(ps[i]);
      assert i != 0 && Stops(ps[1..][i - 1]);
      assert (ps + rest)[1..] == ps[1..] + rest;
      RunIgnoresRest(ps[1..], rest);
    }
  }

  /** On input holding no press of 'q' and no failure, `run` reads all of it,
      does not quit, and ends with the 'j' presses minus the 'k' presses. */
  lemma RunWithoutStop(ps: seq<Poll>)
    requires forall i | 0 <= i < |ps| :: !Stops(ps[i])
    ensures Consumed(ps) == |ps|
    ensures Replay(Initial, ps).counter == PressCount(ps, 'j') - PressCount(ps, 'k')
    ensures !Replay(Initial, ps).shouldQuit
  {
    ReplayCounter(Initial, ps);
    ReplayQuit(Initial, ps);
  }

  /** The keys j, j, k, q, followed by anything: `run` reads exactly four
      polls and ends with counter 1 and the quit flag set. */
  lemma JJKQ(rest: seq<Poll>)
    ensures var ps := [Ready(Key(KeyEvent(Char('j'), 0, Press))), Ready(Key(KeyEvent(Char('j'), 0, Press))),
                       Ready(Key(KeyEvent(Char('k'), 0, Press))), Ready(Key(KeyEvent(Char('q'), 0, Press)))] + rest;
            Consumed(ps) == 4 && Replay(Initial, ps[..4]) == AppState(1, true)
  {
    var keys := [Ready(Key(KeyEvent(Char('j'), 0, Press))), Ready(Key(KeyEvent(Char('j'), 0, Press))),
                 Ready(Key(KeyEvent(Char('k'), 0, Press))), Ready(Key(KeyEvent(Char('q'), 0, Press)))];
    assert Stops(keys[3]);
    RunIgnoresRest(keys, rest);
    assert (keys + rest)[..4] == keys;
    assert Replay(Initial, keys[..1]) == AppState(1, false) by {
      assert keys[..1][..0] == [];
    }
    assert Replay(Initial, keys[..2]) == AppState(2, false) by {
      assert keys[..2][..1] == keys[..1];
    }
    assert Replay(Initial, keys[..3]) == AppState(1, false) by {
      assert keys[..3][..2] == keys[..2];
    }
    assert keys[..4][..3] == keys[..3];
  }
}
