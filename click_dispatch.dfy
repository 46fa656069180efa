/** The per-shape click / double-click dispatcher installed on every
    interactive shape (installClickHandlers in
    client/components/viewer/DEFViewer.js). The pending timer is an explicit
    state bit, and its expiry an explicit event. */
module ClickDispatch {

  /** The default of the doubleClickTimeout setting, in milliseconds. */
  const DefaultDoubleClickTimeout: int := 500

  datatype Event = Activate | TimerExpired

  /** Which callback an event invoked; `NoCallback` when it invoked none
      (an expiry, or an absent callback). */
  datatype Fired = NoCallback | OnClick | OnDoubleClick

  /** `clicked` is the shape's pending flag; `timerArmed` says a timeout
      that will clear it is outstanding. */
  datatype State = State(clicked: bool, timerArmed: bool)

  const Initial: State := State(false, false)

  ghost predicate Consistent(s: State) { s.clicked == s.timerArmed }

  /** One event. An activation first cancels any outstanding timeout; if a
      click was pending it clears it and calls onDoubleClick, otherwise it
      marks the click pending, arms the timeout and calls onClick. An
      expiry of an armed timeout clears the pending click. */
  function Step(s: State, e: Event, hasOnClick: bool, hasOnDoubleClick: bool): (r: (State, Fired))
    ensures Consistent(s) ==> Consistent(r.0)
    ensures e == Activate && s.clicked ==>
      !r.0.clicked && r.1 != OnClick && (r.1 == OnDoubleClick <==> hasOnDoubleClick)
    ensures e == Activate && !s.clicked ==>
      r.0.clicked && r.0.timerArmed && r.1 != OnDoubleClick && (r.1 == OnClick <==> hasOnClick)
    ensures e == TimerExpired ==> r.1 == NoCallback
    ensures e == TimerExpired && s.timerArmed ==> !r.0.clicked
  {
    match e
    case Activate =>
      if s.clicked then
        (State(false, false), if hasOnDoubleClick then OnDoubleClick else NoCallback)
      else
        (State(true, true), if hasOnClick then OnClick else NoCallback)
    case TimerExpired =>
      if s.timerArmed then (State(false, false), NoCallback) else (s, NoCallback)
  }

  /** The state after a sequence of events. */
  function Final(s: State, events: seq<Event>, hasOnClick: bool, hasOnDoubleClick: bool): State
    decreases |events|
  {
    if events == [] then s
    else Final(Step(s, events[0], hasOnClick, hasOnDoubleClick).0, events[1..], hasOnClick, hasOnDoubleClick)
  }

  /** The callbacks a sequence of events invokes, one entry per event: an
      expiry invokes none, and a callback is invoked only when installed. */
  function Trace(s: State, events: seq<Event>, hasOnClick: bool, hasOnDoubleClick: bool)
    : (fs: seq<Fired>)
    ensures |fs| == |events|
    ensures forall i :: 0 <= i < |events| ==>
      (events[i] == TimerExpired ==> fs[i] == NoCallback) &&
      (fs[i] == OnClick ==> hasOnClick) && (fs[i] == OnDoubleClick ==> hasOnDoubleClick)
    decreases |events|
  {
    if events == [] then []
    else
      var (s1, f) := Step(s, events[0], hasOnClick, hasOnDoubleClick);
      [f] + Trace(s1, events[1..], hasOnClick, hasOnDoubleClick)
  }

  function Count(fs: seq<Fired>, f: Fired): (n: nat)
    ensures n <= |fs|
  {
    if fs == [] then 0 else (if fs[0] == f then 1 else 0) + Count(fs[1..], f)
  }

  /** With both callbacks installed, every double click is paired with the
      single click that opened it (a timeout can also close a pending
      click, with no double click): over any run, the double clicks plus a
      click left pending at the end never outnumber the clicks plus a click
      pending at the start. */
  lemma {:induction false} ClicksPairUp(s: State, events: seq<Event>)
    requires Consistent(s)
    ensures var fs := Trace(s, events, true, true);
            Count(fs, OnDoubleClick) + (if Final(s, events, true, true).clicked then 1 else 0)
              <= Count(fs, OnClick) + (if s.clicked then 1 else 0)
    decreases |events|
  {
    if events != [] {
      var (s1, f) := Step(s, events[0], true, true);
      var fs := Trace(s1, events[1..], true, true);
      ClicksPairUp(s1, events[1..]);
      assert Trace(s, events, true, true) == [f] + fs;
      assert Final(s, events, true, true) == Final(s1, events[1..], true, true);
      assert ([f] + fs)[1..] == fs;
      assert Count([f] + fs, OnClick) == (if f == OnClick then 1 else 0) + Count(fs, OnClick);
      assert Count([f] + fs, OnDoubleClick) == (if f == OnDoubleClick then 1 else 0) + Count(fs, OnDoubleClick);
    }
  }

  /** From rest, there are never more double clicks than clicks. */
  lemma DoubleClicksNeverOutnumber(events: seq<Event>)
    ensures var fs := Trace(Initial, events, true, true);
            Count(fs, OnDoubleClick) <= Count(fs, OnClick)
  {
    ClicksPairUp(Initial, events);
  }

  /** A single activation followed by the timeout is one click; two
      activations within the timeout are a click and then a double click;
      the shape is back at rest either way. Without onDoubleClick the second
      activation invokes nothing. */
  lemma Gestures(hasOnClick: bool, hasOnDoubleClick: bool)
    ensures Trace(Initial, [Activate, TimerExpired], true, hasOnDoubleClick) == [OnClick, NoCallback]
    ensures Final(Initial, [Activate, TimerExpired], hasOnClick, hasOnDoubleClick) == Initial
    ensures Trace(Initial, [Activate, Activate], true, true) == [OnClick, OnDoubleClick]
    ensures Final(Initial, [Activate, Activate], hasOnClick, hasOnDoubleClick) == Initial
    ensures Trace(Initial, [Activate, Activate], hasOnClick, false)[1] == NoCallback
  {
    var pending := State(true, true);
    assert [Activate, TimerExpired][1..] == [TimerExpired];
    assert [Activate, Activate][1..] == [Activate];
    assert [TimerExpired][1..] == [] && [Activate][1..] == [];
    assert Trace(pending, [TimerExpired], true, hasOnDoubleClick) == [NoCallback];
    assert Trace(pending, [Activate], true, true) == [OnDoubleClick];
    assert Trace(pending, [Activate], hasOnClick, false) == [NoCallback];
  }

  /** The shape object with its two handler fields. */
  class Clickable {
    var interactive: bool
    var clicked: bool
    var timerArmed: bool
    const doubleClickTimeout: int
    const hasOnClick: bool
    const hasOnDoubleClick: bool

    ghost predicate Valid() reads this {
      interactive && Consistent(State(clicked, timerArmed))
    }

    /** installClickHandlers: the shape becomes interactive and starts with
        no pending click and no timeout. */
    constructor Install(hasOnClick: bool, hasOnDoubleClick: bool, doubleClickTimeout: int)
      ensures Valid() && !clicked && !timerArmed
      ensures this.hasOnClick == hasOnClick && this.hasOnDoubleClick == hasOnDoubleClick
      ensures this.doubleClickTimeout == doubleClickTimeout
    {
      interactive := true;
      clicked := false;
      timerArmed := false;
      this.hasOnClick := hasOnClick;
      this.hasOnDoubleClick := hasOnDoubleClick;
      this.doubleClickTimeout := doubleClickTimeout;
    }

    /** The `click` handler. */
    method Click() returns (fired: Fired)
      requires Valid()
      modifies this`clicked, this`timerArmed
      ensures Valid()
      ensures (State(clicked, timerArmed), fired)
           == Step(old(State(clicked, timerArmed)), Activate, hasOnClick, hasOnDoubleClick)
    {
      timerArmed := false;
      if clicked {
        clicked := false;
        fired := if hasOnDoubleClick then OnDoubleClick else NoCallback;
      } else {
        clicked := true;
        timerArmed := true;
        fired := if hasOnClick then OnClick else NoCallback;
      }
    }

    /** The armed timeout firing after doubleClickTimeout milliseconds. */
    method Expire()
      requires Valid() && timerArmed
      modifies this`clicked, this`timerArmed
      ensures Valid()
      ensures State(clicked, timerArmed)
           == Step(old(State(clicked, timerArmed)), TimerExpired, hasOnClick, hasOnDoubleClick).0
    {
      clicked := false;
      timerArmed := false;
    }
  }
}
