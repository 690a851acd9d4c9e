/**
 * The serial line source: the connection state machine of an Intermec
 * scanner in virtual-COM mode and the clean-up of each received frame.
 *
 * Every callback is one discrete step `(scanner, input) -> (scanner', events)`;
 * the events are what the emitter would dispatch, in emission order.
 */
module IntermecScanner {
  import opened Wrappers
  import opened JsString

  /** The state names the source declares; only Closed, Online and Closing are ever entered. */
  datatype ConnState = Closed | Opening | Offline | Initializing | Online | Closing

  predicate IsEntered(s: ConnState) {
    s.Closed? || s.Online? || s.Closing?
  }

  /**
   * An emitted event, stamped with the emission time.  The open-failure error
   * carries its payload text and the thrown error as a separate field
   * (`detail`); the port error folds the error into its payload text.
   */
  datatype Event =
    | ErrorEvent(utc: string, payload: string, detail: Option<string>)
    | StateEvent(utc: string, state: ConnState)
    | RxEvent(utc: string, payload: string)

  /** The scanner object: its state and whether `this.port` refers to a port (is not null). */
  datatype Scanner = Scanner(state: ConnState, hasPort: bool)

  /** What the constructor builds. */
  const Initial: Scanner := Scanner(Closed, false)

  /**
   * The stimuli a scanner reacts to.  `portIsOpen` is the value `port.isOpen`
   * reports at that moment: it belongs to the serial driver, not to the scanner.
   */
  datatype Input =
    | OpenSucceeded
    | OpenFailed(error: string)
    | CloseCalled(portIsOpen: bool)
    | PortError(error: string, portIsOpen: bool)
    | PortClosed
    | Data(frame: string)

  /**
   * `close()` dereferences `this.port`, so it needs a port object; the port's
   * error, close and data handlers exist only once a port has been opened.
   */
  predicate Enabled(s: Scanner, input: Input) {
    match input
    case OpenSucceeded => true
    case OpenFailed(_) => true
    case _ => s.hasPort
  }

  datatype Transition = Transition(next: Scanner, events: seq<Event>)

  /** `setState`: record the new state and announce it. */
  function SetState(s: Scanner, newState: ConnState, now: string): (t: Transition)
    ensures t.next.state == newState && t.next.hasPort == s.hasPort
    ensures |t.events| == 1 && StatesAnnounced(t.events) == [newState]
  {
    Transition(s.(state := newState), [StateEvent(now, newState)])
  }

  /** Runs `second` after `first`, concatenating the emitted events. */
  function Then(first: Transition, second: Transition): Transition {
    Transition(second.next, first.events + second.events)
  }

  /** `open()` when the port object is constructed and wired without throwing. */
  function OpenOk(s: Scanner, now: string): (t: Transition)
    ensures t.next == Scanner(Online, true)
    ensures t.events == [StateEvent(now, Online)]
  {
    SetState(s.(hasPort := true), Online, now)
  }

  /**
   * `open()` when constructing the port throws: `this.port` keeps its previous
   * value, one error event is emitted and the state is forced to Closed.
   */
  function OpenFail(s: Scanner, error: string, now: string): (t: Transition)
    ensures t.next == Scanner(Closed, s.hasPort)
    ensures t.events == [ErrorEvent(now, "Port Failed to open: ", Some(error)), StateEvent(now, Closed)]
  {
    Then(Transition(s, [ErrorEvent(now, "Port Failed to open: ", Some(error))]), SetState(s, Closed, now))
  }

  /**
   * `close()`: Closing is always announced first; an open port is asked to
   * close (its close callback finishes the job later), otherwise Closed follows at once.
   */
  function Close(s: Scanner, portIsOpen: bool, now: string): (t: Transition)
    requires s.hasPort
    ensures t.next.hasPort
    ensures |t.events| >= 1 && t.events[0] == StateEvent(now, Closing)
    ensures portIsOpen ==> t.next.state == Closing && |t.events| == 1
    ensures !portIsOpen ==> t.next.state == Closed && t.events == [StateEvent(now, Closing), StateEvent(now, Closed)]
  {
    var closing := SetState(s, Closing, now);
    if portIsOpen then closing
    else Then(closing, SetState(closing.next, Closed, now))
  }

  /** The port's error handler: one error event, then exactly what `close()` does. */
  function OnPortError(s: Scanner, error: string, portIsOpen: bool, now: string): (t: Transition)
    requires s.hasPort
    ensures t.next == Close(s, portIsOpen, now).next
    ensures t.events == [ErrorEvent(now, "Port Error: " + error, None)] + Close(s, portIsOpen, now).events
  {
    Then(Transition(s, [ErrorEvent(now, "Port Error: " + error, None)]), Close(s, portIsOpen, now))
  }

  /** The port's close handler: Closed, from whatever state came before. */
  function OnPortClose(s: Scanner, now: string): (t: Transition)
    requires s.hasPort
    ensures t.next == s.(state := Closed)
    ensures t.events == [StateEvent(now, Closed)]
  {
    SetState(s, Closed, now)
  }

  /**
   * The frame clean-up of `read`: delete the FIRST line feed, then the first
   * carriage return, then the first escape, then trim whitespace at both ends.
   * Later control characters survive unless they sit in the trimmed ends.
   */
  function Sanitize(frame: string): (line: string)
    ensures |line| <= |frame|
    ensures line == [] || (!IsWhitespace(line[0]) && !IsWhitespace(line[|line| - 1]))
  {
    var noLf := RemoveFirst(frame, LF);
    var noCr := RemoveFirst(noLf, CR);
    Trim(RemoveFirst(noCr, ESC))
  }

  /**
   * How many characters survive the clean-up: nothing is added, exactly one
   * escape goes when there is any, at least one line feed and one carriage
   * return go when there are any, and every character that is neither
   * whitespace nor an escape is kept as often as the frame holds it.
   */
  lemma SanitizeCounts(frame: string)
    ensures multiset(Sanitize(frame)) <= multiset(frame)
    ensures multiset(Sanitize(frame))[ESC] == (if multiset(frame)[ESC] == 0 then 0 else multiset(frame)[ESC] - 1)
    ensures multiset(frame)[LF] > 0 ==> multiset(Sanitize(frame))[LF] < multiset(frame)[LF]
    ensures multiset(frame)[CR] > 0 ==> multiset(Sanitize(frame))[CR] < multiset(frame)[CR]
    ensures forall c :: !IsWhitespace(c) && c != ESC ==> multiset(Sanitize(frame))[c] == multiset(frame)[c]
  {
    var noLf, noCr, noEsc := SanitizeStages(frame);
    RemovalCounts(multiset(frame), noLf, noCr, noEsc);
    RemovalKeepsOthers(multiset(frame), noLf, noCr, noEsc);
    assert IsWhitespace(LF) && IsWhitespace(CR);
  }

  /** The character counts after each of the three replacements, and what the trim keeps of them. */
  lemma SanitizeStages(frame: string) returns (noLf: multiset<char>, noCr: multiset<char>, noEsc: multiset<char>)
    ensures noLf == multiset(frame) - multiset{LF}
    ensures noCr == noLf - multiset{CR}
    ensures noEsc == noCr - multiset{ESC}
    ensures multiset(Sanitize(frame)) <= noEsc
    ensures multiset(Sanitize(frame))[ESC] == noEsc[ESC]
    ensures forall c :: !IsWhitespace(c) ==> multiset(Sanitize(frame))[c] == noEsc[c]
  {
    var s1 := RemoveFirst(frame, LF);
    var s2 := RemoveFirst(s1, CR);
    var s3 := RemoveFirst(s2, ESC);
    noLf, noCr, noEsc := multiset(s1), multiset(s2), multiset(s3);
    TrimKeeps(s3);
  }

  /** The three removals leave every other character's count alone. */
  lemma RemovalKeepsOthers(frame: multiset<char>, noLf: multiset<char>, noCr: multiset<char>, noEsc: multiset<char>)
    requires noLf == frame - multiset{LF}
    requires noCr == noLf - multiset{CR}
    requires noEsc == noCr - multiset{ESC}
    ensures forall c :: c != LF && c != CR && c != ESC ==> noEsc[c] == frame[c]
  {
    forall c | c != LF && c != CR && c != ESC ensures noEsc[c] == frame[c] {
      assert noLf[c] == frame[c];
      assert noCr[c] == noLf[c];
    }
  }

  /** Trimming adds nothing and keeps every escape. */
  lemma TrimKeeps(s: string)
    ensures multiset(Trim(s)) <= multiset(s)
    ensures multiset(Trim(s))[ESC] == multiset(s)[ESC]
    ensures forall c :: !IsWhitespace(c) ==> multiset(Trim(s))[c] == multiset(s)[c]
  {
    TrimmedIsSubMultiset(Trim(s), s);
    TrimKeepsNonWhitespace(s);
    assert !IsWhitespace(ESC);
  }

  /** Counting through the three single removals. */
  lemma RemovalCounts(frame: multiset<char>, noLf: multiset<char>, noCr: multiset<char>, noEsc: multiset<char>)
    requires noLf == frame - multiset{LF}
    requires noCr == noLf - multiset{CR}
    requires noEsc == noCr - multiset{ESC}
    ensures noEsc <= frame
    ensures noEsc[ESC] == (if frame[ESC] == 0 then 0 else frame[ESC] - 1)
    ensures frame[LF] > 0 ==> noEsc[LF] < frame[LF]
    ensures frame[CR] > 0 ==> noEsc[CR] < frame[CR]
  {
    assert noCr[ESC] == noLf[ESC] == frame[ESC];
    assert noEsc[LF] == noCr[LF] == noLf[LF];
    assert noEsc[CR] == noCr[CR];
    assert noLf[CR] == frame[CR];
  }

  /** Trimming never adds a character. */
  lemma TrimmedIsSubMultiset(r: string, s: string)
    requires IsWhitespaceFramed(r, s)
    ensures multiset(r) <= multiset(s)
  {
    var a: nat :| FramedAt(r, s, a);
    assert s == s[..a] + r + s[a + |r|..];
  }

  /**
   * Only the first escape goes: a frame with two escapes keeps one, so a
   * cleaned line may still hold control characters.
   */
  lemma SanitizeKeepsLaterEscapes(frame: string)
    requires multiset(frame)[ESC] >= 2
    ensures ESC in Sanitize(frame)
  {
    SanitizeCounts(frame);
  }

  /** `read`: a frame that cleans up to nothing is dropped; any other yields one rx event. */
  function Read(frame: string, now: string): (events: seq<Event>)
    ensures |events| <= 1
    ensures events == [] <==> Sanitize(frame) == []
    ensures events != [] ==> events == [RxEvent(now, Sanitize(frame))]
    ensures forall k :: 0 <= k < |events| ==> events[k].RxEvent?
  {
    Emit(Sanitize(frame), now)
  }

  /** The rx event of a cleaned line, if it is not empty. */
  function Emit(line: string, now: string): (events: seq<Event>)
    ensures |events| <= 1
    ensures events == [] <==> line == []
    ensures events != [] ==> events == [RxEvent(now, line)]
    ensures forall k :: 0 <= k < |events| ==> events[k].RxEvent?
  {
    if |line| == 0 then [] else [RxEvent(now, line)]
  }

  /** One callback of the scanner. */
  function Step(s: Scanner, input: Input, now: string): (t: Transition)
    requires Enabled(s, input)
    ensures input.Data? ==> t.next == s && t.events == Read(input.frame, now)
    ensures !input.Data? ==> |t.events| >= 1 && t.events[|t.events| - 1] == StateEvent(now, t.next.state)
    ensures t.next.hasPort == (s.hasPort || input.OpenSucceeded?)
  {
    match input
    case OpenSucceeded => OpenOk(s, now)
    case OpenFailed(error) => OpenFail(s, error, now)
    case CloseCalled(portIsOpen) => Close(s, portIsOpen, now)
    case PortError(error, portIsOpen) => OnPortError(s, error, portIsOpen, now)
    case PortClosed => OnPortClose(s, now)
    case Data(frame) => Transition(s, Read(frame, now))
  }

  /** A stimulus and the wall-clock time at which it is handled. */
  datatype Stimulus = Stimulus(input: Input, now: string)

  /** Every stimulus of the sequence is enabled in the state reached before it. */
  predicate Runnable(s: Scanner, stimuli: seq<Stimulus>)
    decreases |stimuli|
  {
    |stimuli| == 0
    || (Enabled(s, stimuli[0].input)
        && Runnable(Step(s, stimuli[0].input, stimuli[0].now).next, stimuli[1..]))
  }

  /** Handles the stimuli in order, collecting every emitted event. */
  function Run(s: Scanner, stimuli: seq<Stimulus>): Transition
    requires Runnable(s, stimuli)
    decreases |stimuli|
  {
    if |stimuli| == 0 then Transition(s, [])
    else
      var first := Step(s, stimuli[0].input, stimuli[0].now);
      Then(first, Run(first.next, stimuli[1..]))
  }

  /** The state events of a sequence, in order. */
  function StatesAnnounced(events: seq<Event>): (r: seq<ConnState>)
    ensures |r| <= |events|
  {
    if |events| == 0 then []
    else (if events[0].StateEvent? then [events[0].state] else []) + StatesAnnounced(events[1..])
  }

  lemma {:induction false} StatesAnnouncedAppend(a: seq<Event>, b: seq<Event>)
    ensures StatesAnnounced(a + b) == StatesAnnounced(a) + StatesAnnounced(b)
  {
    if |a| == 0 {
      assert a + b == b;
    } else {
      var ab := a + b;
      assert ab[0] == a[0];
      assert ab[1..] == a[1..] + b;
      StatesAnnouncedAppend(a[1..], b);
      assert StatesAnnounced(ab) == (if a[0].StateEvent? then [a[0].state] else []) + StatesAnnounced(ab[1..]);
    }
  }

  /** The state last announced by `events`, or `current` when they announce none. */
  function LastAnnounced(events: seq<Event>, current: ConnState): ConnState
    decreases |events|
  {
    if |events| == 0 then current
    else LastAnnounced(events[1..], if events[0].StateEvent? then events[0].state else current)
  }

  lemma {:induction false} LastAnnouncedAppend(a: seq<Event>, b: seq<Event>, current: ConnState)
    ensures LastAnnounced(a + b, current) == LastAnnounced(b, LastAnnounced(a, current))
    decreases |a|
  {
    if |a| == 0 {
      assert a + b == b;
    } else {
      var ab := a + b;
      assert ab[0] == a[0];
      assert ab[1..] == a[1..] + b;
      LastAnnouncedAppend(a[1..], b, if a[0].StateEvent? then a[0].state else current);
    }
  }

  /** Every state event of `events` names an entered state. */
  ghost predicate AnnouncesOnlyEntered(events: seq<Event>) {
    forall k :: 0 <= k < |events| && events[k].StateEvent? ==> IsEntered(events[k].state)
  }

  /** A sequence whose last event announces `st` has `st` as its last announced state. */
  lemma LastAnnouncedIsFinalState(events: seq<Event>, current: ConnState, now: string, st: ConnState)
    requires |events| > 0 && events[|events| - 1] == StateEvent(now, st)
    ensures LastAnnounced(events, current) == st
  {
    var init := events[..|events| - 1];
    assert events == init + [StateEvent(now, st)];
    LastAnnouncedAppend(init, [StateEvent(now, st)], current);
  }

  /** A sequence without state events leaves the current state as the last announced one. */
  lemma {:induction false} LastAnnouncedWithoutStates(events: seq<Event>, current: ConnState)
    requires forall k :: 0 <= k < |events| ==> !events[k].StateEvent?
    ensures LastAnnounced(events, current) == current
    decreases |events|
  {
    if |events| > 0 {
      LastAnnouncedWithoutStates(events[1..], current);
    }
  }

  /**
   * Every step leaves the scanner in the state it announced last (each
   * `setState(s)` makes `s` the state and announces it); a step that
   * announces nothing leaves the state alone.
   */
  lemma StepStateIsLastAnnounced(s: Scanner, input: Input, now: string)
    requires Enabled(s, input)
    ensures Step(s, input, now).next.state == LastAnnounced(Step(s, input, now).events, s.state)
  {
    match input
    case OpenSucceeded =>
      LastAnnouncedIsFinalState([StateEvent(now, Online)], s.state, now, Online);
    case OpenFailed(error) =>
      LastAnnouncedIsFinalState(OpenFail(s, error, now).events, s.state, now, Closed);
    case CloseCalled(portIsOpen) =>
      CloseIsLastAnnounced(s, portIsOpen, now, s.state);
    case PortError(error, portIsOpen) =>
      CloseIsLastAnnounced(s, portIsOpen, now, s.state);
      LastAnnouncedAppend([ErrorEvent(now, "Port Error: " + error, None)], Close(s, portIsOpen, now).events, s.state);
    case PortClosed =>
      LastAnnouncedIsFinalState([StateEvent(now, Closed)], s.state, now, Closed);
    case Data(frame) =>
      LastAnnouncedWithoutStates(Read(frame, now), s.state);
  }

  /** `close()` leaves the scanner in the state it announced last. */
  lemma CloseIsLastAnnounced(s: Scanner, portIsOpen: bool, now: string, current: ConnState)
    requires s.hasPort
    ensures Close(s, portIsOpen, now).next.state == LastAnnounced(Close(s, portIsOpen, now).events, current)
  {
    var t := Close(s, portIsOpen, now);
    LastAnnouncedIsFinalState(t.events, current, now, t.next.state);
  }

  /** A single callback only enters and announces Closed, Online or Closing. */
  lemma StepKeepsEntered(s: Scanner, input: Input, now: string)
    requires Enabled(s, input) && IsEntered(s.state)
    ensures IsEntered(Step(s, input, now).next.state)
    ensures AnnouncesOnlyEntered(Step(s, input, now).events)
  {
    var t := Step(s, input, now);
    forall k | 0 <= k < |t.events| && t.events[k].StateEvent? ensures IsEntered(t.events[k].state) {
      match input
      case OpenSucceeded =>
      case OpenFailed(_) =>
      case CloseCalled(portIsOpen) =>
      case PortError(error, portIsOpen) =>
        assert t.events[k] == ErrorEvent(now, "Port Error: " + error, None) || t.events[k] in Close(s, portIsOpen, now).events;
      case PortClosed =>
      case Data(frame) =>
    }
  }

  /** The same holds of any run: the state reached is the state announced last. */
  lemma {:induction false} RunStateIsLastAnnounced(s: Scanner, stimuli: seq<Stimulus>)
    requires Runnable(s, stimuli)
    ensures Run(s, stimuli).next.state == LastAnnounced(Run(s, stimuli).events, s.state)
    decreases |stimuli|
  {
    if |stimuli| > 0 {
      var first := Step(s, stimuli[0].input, stimuli[0].now);
      var rest := Run(first.next, stimuli[1..]);
      StepStateIsLastAnnounced(s, stimuli[0].input, stimuli[0].now);
      RunStateIsLastAnnounced(first.next, stimuli[1..]);
      LastAnnouncedAppend(first.events, rest.events, s.state);
      assert Run(s, stimuli) == Transition(rest.next, first.events + rest.events);
    }
  }

  /**
   * Starting from an entered state, a run only ever enters and announces
   * Closed, Online and Closing.
   */
  lemma {:induction false} OnlyEnteredStatesReachable(s: Scanner, stimuli: seq<Stimulus>)
    requires IsEntered(s.state) && Runnable(s, stimuli)
    ensures IsEntered(Run(s, stimuli).next.state)
    ensures AnnouncesOnlyEntered(Run(s, stimuli).events)
    decreases |stimuli|
  {
    if |stimuli| > 0 {
      var first := Step(s, stimuli[0].input, stimuli[0].now);
      StepKeepsEntered(s, stimuli[0].input, stimuli[0].now);
      OnlyEnteredStatesReachable(first.next, stimuli[1..]);
      var rest := Run(first.next, stimuli[1..]);
      assert Run(s, stimuli) == Transition(rest.next, first.events + rest.events);
      AnnouncesOnlyEnteredAppend(first.events, rest.events);
    }
  }

  lemma AnnouncesOnlyEnteredAppend(a: seq<Event>, b: seq<Event>)
    requires AnnouncesOnlyEntered(a) && AnnouncesOnlyEntered(b)
    ensures AnnouncesOnlyEntered(a + b)
  {
    var all := a + b;
    forall k | 0 <= k < |all| && all[k].StateEvent? ensures IsEntered(all[k].state) {
      if k >= |a| {
        assert all[k] == b[k - |a|];
      }
    }
  }

  /** A new scanner is Closed and holds no port. */
  lemma InitialIsClosed()
    ensures Initial.state == Closed && !Initial.hasPort
    ensures !Enabled(Initial, CloseCalled(false)) && !Enabled(Initial, PortClosed)
  {
  }

  /** From construction, Opening, Offline and Initializing are never entered. */
  lemma InitialReachesOnlyEnteredStates(stimuli: seq<Stimulus>)
    requires Runnable(Initial, stimuli)
    ensures IsEntered(Run(Initial, stimuli).next.state)
    ensures forall e :: e in Run(Initial, stimuli).events && e.StateEvent? ==> !(e.state.Opening? || e.state.Offline? || e.state.Initializing?)
  {
    OnlyEnteredStatesReachable(Initial, stimuli);
  }

  /**
   * A successful open followed by a port error on a port that no longer
   * reports itself open announces Online, Closing, Closed: the error-triggered
   * close passes through Closing.
   */
  lemma OpenThenPortErrorAnnouncesClosing(t1: string, t2: string, error: string)
    ensures Runnable(Initial, [Stimulus(OpenSucceeded, t1), Stimulus(PortError(error, false), t2)])
    ensures var t := Run(Initial, [Stimulus(OpenSucceeded, t1), Stimulus(PortError(error, false), t2)]);
      StatesAnnounced(t.events) == [Online, Closing, Closed] && t.next.state == Closed
  {
    var first := Step(Initial, OpenSucceeded, t1);
    var second := Step(first.next, PortError(error, false), t2);
    RunOfTwo(Initial, Stimulus(OpenSucceeded, t1), Stimulus(PortError(error, false), t2));
    var err := ErrorEvent(t2, "Port Error: " + error, None);
    assert second.events == [err] + [StateEvent(t2, Closing), StateEvent(t2, Closed)];
    StatesAnnouncedAppend([err], [StateEvent(t2, Closing), StateEvent(t2, Closed)]);
    StatesAnnouncedAppend(first.events, second.events);
  }

  /** Running two stimuli is running the first and then the second. */
  lemma RunOfTwo(s: Scanner, a: Stimulus, b: Stimulus)
    requires Enabled(s, a.input) && Enabled(Step(s, a.input, a.now).next, b.input)
    ensures Runnable(s, [a, b])
    ensures Run(s, [a, b]).next == Step(Step(s, a.input, a.now).next, b.input, b.now).next
    ensures Run(s, [a, b]).events == Step(s, a.input, a.now).events + Step(Step(s, a.input, a.now).next, b.input, b.now).events
  {
    var first := Step(s, a.input, a.now);
    var second := Step(first.next, b.input, b.now);
    assert [a, b][1..] == [b];
    assert [b][1..] == [];
    assert Runnable(first.next, [b]);
    assert Run(first.next, [b]) == Then(second, Transition(second.next, []));
    assert second.events + [] == second.events;
  }
}
