/**
 * The wiring of the bridge: the scanner's error and state events go to the
 * error and state channels, its rx events through the classifier, and every
 * outgoing message is serialised and handed to the publisher.  A drain timer
 * firing is a separate step.
 *
 * `JSON.parse` and `JSON.stringify` are parameters (`parse`, `stringify`);
 * the broker connection is the flag `connected` of each step.
 */
module Bridge {
  import opened Wrappers
  import opened IntermecScanner
  import opened Publisher
  import opened Drain
  import opened Classifier

  /** Everything the bridge process holds. */
  datatype Service = Service(scanner: Scanner, channels: seq<Channel>, attribution: Attribution)

  /**
   * The process after start-up, before the scanner is opened: the fixed
   * channel table under `root` with every buffer empty, a Closed scanner
   * without a port, and the "N/A" attribution.
   */
  function Start(root: string): (r: Service)
    ensures r.scanner.state == Closed && !r.scanner.hasPort
    ensures r.attribution == InitialAttribution
    ensures |r.channels| == ChannelCount && forall j :: 0 <= j < ChannelCount ==> r.channels[j].buffer == []
    ensures Good(r, root)
  {
    MqttConfigIsWellFormed(root);
    Service(Initial, MqttConfig(root), InitialAttribution)
  }

  /** What the listeners send for one scanner event. */
  function Listen(attr: Attribution, ev: Event, parse: string -> Option<Json>): (c: Classified)
    ensures 1 <= |c.sends| <= 2
    ensures ev.ErrorEvent? ==> c == Classified(attr, [Outgoing(ErrorChannel, EventMessage(ev))])
    ensures ev.StateEvent? ==> c == Classified(attr, [Outgoing(StateChannel, EventMessage(ev))])
    ensures ev.RxEvent? ==> c.sends[0] == Outgoing(RxChannel, EventMessage(ev))
  {
    match ev
    case ErrorEvent(_, _, _) => Classified(attr, [Outgoing(ErrorChannel, EventMessage(ev))])
    case StateEvent(_, _) => Classified(attr, [Outgoing(StateChannel, EventMessage(ev))])
    case RxEvent(utc, payload) => OnRx(attr, utc, payload, parse)
  }

  /** The publication a connected send of `o` asks for. */
  function Immediate(chans: seq<Channel>, o: Outgoing, stringify: Message -> string): Publication
    requires |chans| == ChannelCount
  {
    var c := chans[IndexOf(o.category)];
    Publication(c.topic, stringify(o.message), c.retain)
  }

  /** `mqttSend` for each outgoing message, in order. */
  function SendAll(chans: seq<Channel>, sends: seq<Outgoing>, connected: bool, stringify: Message -> string): (d: Delivery)
    requires |chans| == ChannelCount
    ensures |d.channels| == ChannelCount
    ensures connected ==> d.channels == chans
    ensures connected ==> |d.published| == |sends|
    ensures connected ==> forall k :: 0 <= k < |sends| ==> d.published[k] == Immediate(chans, sends[k], stringify)
    ensures !connected ==> d.published == []
    decreases |sends|
  {
    if |sends| == 0 then Delivery(chans, [])
    else
      var first := Send(chans, IndexOf(sends[0].category), stringify(sends[0].message), connected);
      var rest := SendAll(first.channels, sends[1..], connected, stringify);
      Delivery(rest.channels, first.published + rest.published)
  }

  datatype Effects = Effects(channels: seq<Channel>, attribution: Attribution, published: seq<Publication>)

  /** Every emitted event reaches its listener, in emission order. */
  function Dispatch(chans: seq<Channel>, attr: Attribution, events: seq<Event>, connected: bool,
                    parse: string -> Option<Json>, stringify: Message -> string): (e: Effects)
    requires |chans| == ChannelCount
    ensures |e.channels| == ChannelCount
    ensures connected ==> e.channels == chans
    ensures !connected ==> e.published == []
    ensures (forall ev :: ev in events ==> !ev.RxEvent?) ==> e.attribution == attr
    decreases |events|
  {
    if |events| == 0 then Effects(chans, attr, [])
    else
      var c := Listen(attr, events[0], parse);
      var d := SendAll(chans, c.sends, connected, stringify);
      var rest := Dispatch(d.channels, c.attribution, events[1..], connected, parse, stringify);
      assert events[0] in events;
      Effects(rest.channels, rest.attribution, d.published + rest.published)
  }

  /**
   * What the listeners send for a sequence of events, in emission order, with
   * the attribution record threaded from one rx event to the next.
   */
  function ListenerSends(attr: Attribution, events: seq<Event>, parse: string -> Option<Json>): (c: Classified)
    ensures |events| <= |c.sends| <= 2 * |events|
    ensures (forall k :: 0 <= k < |events| ==> !events[k].RxEvent?) ==> c.attribution == attr
    decreases |events|
  {
    if |events| == 0 then Classified(attr, [])
    else
      var first := Listen(attr, events[0], parse);
      var rest := ListenerSends(first.attribution, events[1..], parse);
      Classified(rest.attribution, first.sends + rest.sends)
  }

  /** The messages of `sends` bound for channel `j`, serialised, in order. */
  function MessagesFor(sends: seq<Outgoing>, j: nat, stringify: Message -> string): (r: seq<string>)
    ensures |r| <= |sends|
    ensures forall k :: 0 <= k < |r| ==>
      exists n :: 0 <= n < |sends| && IndexOf(sends[n].category) == j && r[k] == stringify(sends[n].message)
    decreases |sends|
  {
    if |sends| == 0 then []
    else (if IndexOf(sends[0].category) == j then [stringify(sends[0].message)] else [])
         + MessagesFor(sends[1..], j, stringify)
  }

  /** Sending `a + b` is sending `a` and then `b`. */
  lemma {:induction false} SendAllAppend(chans: seq<Channel>, a: seq<Outgoing>, b: seq<Outgoing>,
                                         connected: bool, stringify: Message -> string)
    requires |chans| == ChannelCount
    ensures SendAll(chans, a + b, connected, stringify).channels
      == SendAll(SendAll(chans, a, connected, stringify).channels, b, connected, stringify).channels
    ensures SendAll(chans, a + b, connected, stringify).published
      == SendAll(chans, a, connected, stringify).published
         + SendAll(SendAll(chans, a, connected, stringify).channels, b, connected, stringify).published
    decreases |a|
  {
    if |a| == 0 {
      assert a + b == b;
    } else {
      var ab := a + b;
      TailOfAppend(a, b);
      var first := Send(chans, IndexOf(a[0].category), stringify(a[0].message), connected);
      SendAllUnfold(chans, ab, connected, stringify);
      SendAllUnfold(chans, a, connected, stringify);
      SendAllAppend(first.channels, a[1..], b, connected, stringify);
      var ra := SendAll(first.channels, a[1..], connected, stringify);
      var db := SendAll(ra.channels, b, connected, stringify);
      AppendAssoc(first.published, ra.published, db.published);
    }
  }

  lemma AppendAssoc<T>(a: seq<T>, b: seq<T>, c: seq<T>)
    ensures a + (b + c) == (a + b) + c
  {
  }

  lemma AppendNil<T>(a: seq<T>)
    ensures a + [] == a && [] + a == a
  {
  }

  lemma TailOfAppend<T>(a: seq<T>, b: seq<T>)
    requires |a| > 0
    ensures (a + b)[0] == a[0] && (a + b)[1..] == a[1..] + b
  {
  }

  /** One step of SendAll: the first send, then the rest from where it left the channels. */
  lemma SendAllUnfold(chans: seq<Channel>, sends: seq<Outgoing>, connected: bool, stringify: Message -> string)
    requires |chans| == ChannelCount && |sends| > 0
    ensures var first := Send(chans, IndexOf(sends[0].category), stringify(sends[0].message), connected);
      var rest := SendAll(first.channels, sends[1..], connected, stringify);
      SendAll(chans, sends, connected, stringify) == Delivery(rest.channels, first.published + rest.published)
  {
  }

  /**
   * Dispatching events is sending, in order, everything their listeners send:
   * the event loop adds nothing and drops nothing.
   */
  lemma {:induction false} DispatchSendsListenerSends(chans: seq<Channel>, attr: Attribution, events: seq<Event>, connected: bool,
                                                      parse: string -> Option<Json>, stringify: Message -> string)
    requires |chans| == ChannelCount
    ensures var l := ListenerSends(attr, events, parse);
      var d := SendAll(chans, l.sends, connected, stringify);
      Dispatch(chans, attr, events, connected, parse, stringify) == Effects(d.channels, l.attribution, d.published)
    decreases |events|
  {
    if |events| > 0 {
      var c := Listen(attr, events[0], parse);
      var d := SendAll(chans, c.sends, connected, stringify);
      var rest := ListenerSends(c.attribution, events[1..], parse);
      DispatchSendsListenerSends(d.channels, c.attribution, events[1..], connected, parse, stringify);
      SendAllAppend(chans, c.sends, rest.sends, connected, stringify);
    }
  }

  /**
   * While disconnected, every channel ends up with the last `limit` entries of
   * its old buffer followed by the messages sent to it, in order.
   */
  lemma {:induction false} DisconnectedSendAllBuffers(chans: seq<Channel>, sends: seq<Outgoing>, stringify: Message -> string)
    requires |chans| == ChannelCount && WithinLimits(chans)
    ensures var d := SendAll(chans, sends, false, stringify);
      forall j :: 0 <= j < ChannelCount ==>
        d.channels[j] == chans[j].(buffer := KeepLast(chans[j].buffer + MessagesFor(sends, j, stringify), chans[j].limit))
    decreases |sends|
  {
    var d := SendAll(chans, sends, false, stringify);
    if |sends| == 0 {
      forall j | 0 <= j < ChannelCount
        ensures d.channels[j] == chans[j].(buffer := KeepLast(chans[j].buffer + MessagesFor(sends, j, stringify), chans[j].limit))
      {
        AppendNil(chans[j].buffer);
      }
    } else {
      var i := IndexOf(sends[0].category);
      var m := stringify(sends[0].message);
      var first := Send(chans, i, m, false);
      SendAllUnfold(chans, sends, false, stringify);
      SendKeepsWithinLimits(chans, i, m, false);
      DisconnectedSendAllBuffers(first.channels, sends[1..], stringify);
      forall j | 0 <= j < ChannelCount
        ensures d.channels[j] == chans[j].(buffer := KeepLast(chans[j].buffer + MessagesFor(sends, j, stringify), chans[j].limit))
      {
        BufferAfterFirstSend(chans, sends, j, stringify);
      }
    }
  }

  /** The first disconnected send, followed by the rest, keeps what all of them would keep. */
  lemma BufferAfterFirstSend(chans: seq<Channel>, sends: seq<Outgoing>, j: nat, stringify: Message -> string)
    requires |chans| == ChannelCount && |sends| > 0 && j < ChannelCount
    ensures var first := Send(chans, IndexOf(sends[0].category), stringify(sends[0].message), false);
      KeepLast(first.channels[j].buffer + MessagesFor(sends[1..], j, stringify), chans[j].limit)
        == KeepLast(chans[j].buffer + MessagesFor(sends, j, stringify), chans[j].limit)
  {
    var i := IndexOf(sends[0].category);
    var m := stringify(sends[0].message);
    var rest := MessagesFor(sends[1..], j, stringify);
    if j == i {
      assert MessagesFor(sends, j, stringify) == [m] + rest;
      KeepLastAppend(chans[j].buffer + [m], rest, chans[j].limit);
      AppendAssoc(chans[j].buffer, [m], rest);
    } else {
      assert MessagesFor(sends, j, stringify) == [] + rest;
      AppendNil(rest);
    }
  }

  datatype Outcome = Outcome(service: Service, published: seq<Publication>)

  /** One scanner callback together with the listeners it triggers. */
  function OnStimulus(s: Service, stimulus: Stimulus, connected: bool,
                      parse: string -> Option<Json>, stringify: Message -> string): (o: Outcome)
    requires |s.channels| == ChannelCount && Enabled(s.scanner, stimulus.input)
    ensures o.service.scanner == Step(s.scanner, stimulus.input, stimulus.now).next
    ensures |o.service.channels| == ChannelCount
    ensures connected ==> o.service.channels == s.channels
    ensures !connected ==> o.published == []
    ensures !stimulus.input.Data? ==> o.service.attribution == s.attribution
  {
    var t := Step(s.scanner, stimulus.input, stimulus.now);
    assert !stimulus.input.Data? ==> forall ev :: ev in t.events ==> !ev.RxEvent?;
    var e := Dispatch(s.channels, s.attribution, t.events, connected, parse, stringify);
    Outcome(Service(t.next, e.channels, e.attribution), e.published)
  }

  /**
   * A scanner callback delivers everything its listeners send: while
   * connected, one publication per send, in emission order, on the send's
   * channel topic; while disconnected, each channel keeps the last `limit`
   * entries of its old buffer followed by the messages sent to it.
   */
  lemma OnStimulusDelivers(s: Service, stimulus: Stimulus, connected: bool,
                           parse: string -> Option<Json>, stringify: Message -> string)
    requires |s.channels| == ChannelCount && Enabled(s.scanner, stimulus.input)
    ensures var l := ListenerSends(s.attribution, Step(s.scanner, stimulus.input, stimulus.now).events, parse);
      var o := OnStimulus(s, stimulus, connected, parse, stringify);
      && o.service.attribution == l.attribution
      && (connected ==>
            && |o.published| == |l.sends|
            && forall k :: 0 <= k < |l.sends| ==> o.published[k] == Immediate(s.channels, l.sends[k], stringify))
      && (!connected && WithinLimits(s.channels) ==>
            forall j :: 0 <= j < ChannelCount ==>
              o.service.channels[j]
                == s.channels[j].(buffer := KeepLast(s.channels[j].buffer + MessagesFor(l.sends, j, stringify), s.channels[j].limit)))
  {
    var t := Step(s.scanner, stimulus.input, stimulus.now);
    var l := ListenerSends(s.attribution, t.events, parse);
    DispatchSendsListenerSends(s.channels, s.attribution, t.events, connected, parse, stringify);
    if !connected && WithinLimits(s.channels) {
      DisconnectedSendAllBuffers(s.channels, l.sends, stringify);
    }
  }

  /** While connected, `close()` on an open port publishes Closing on the state topic, and nothing else. */
  lemma ConnectedCloseAnnouncesClosing(s: Service, now: string,
                                       parse: string -> Option<Json>, stringify: Message -> string)
    requires |s.channels| == ChannelCount && s.scanner.hasPort
    ensures OnStimulus(s, Stimulus(CloseCalled(true), now), true, parse, stringify).published
      == [Publication(s.channels[IndexOf(StateChannel)].topic,
                      stringify(EventMessage(StateEvent(now, Closing))),
                      s.channels[IndexOf(StateChannel)].retain)]
  {
    var events := [StateEvent(now, Closing)];
    assert Step(s.scanner, CloseCalled(true), now).events == events;
    var l := ListenerSends(s.attribution, events, parse);
    assert l.sends == [Outgoing(StateChannel, EventMessage(StateEvent(now, Closing)))] + [] by {
      assert events[1..] == [];
    }
    OnStimulusDelivers(s, Stimulus(CloseCalled(true), now), true, parse, stringify);
  }

  /**
   * While disconnected, a port error is kept in the error channel's buffer
   * (limit 100), and nothing is published.
   */
  lemma DisconnectedPortErrorIsBuffered(s: Service, root: string, error: string, portIsOpen: bool, now: string,
                                        parse: string -> Option<Json>, stringify: Message -> string)
    requires Good(s, root) && s.scanner.hasPort
    ensures var o := OnStimulus(s, Stimulus(PortError(error, portIsOpen), now), false, parse, stringify);
      && o.published == []
      && stringify(EventMessage(ErrorEvent(now, "Port Error: " + error, None))) in o.service.channels[IndexOf(ErrorChannel)].buffer
  {
    var e := ErrorEvent(now, "Port Error: " + error, None);
    var c := Close(s.scanner, portIsOpen, now);
    assert Step(s.scanner, PortError(error, portIsOpen), now).events == [e] + c.events;
    ErrorThenStatesBuffered(s.attribution, e, c.events, parse, stringify);
    OnStimulusDelivers(s, Stimulus(PortError(error, portIsOpen), now), false, parse, stringify);
    MqttConfigIsWellFormed(root);
    assert s.channels[0].limit == 100;
    KeepLastKeepsNewest(s.channels[0].buffer, stringify(EventMessage(e)), s.channels[0].limit);
  }

  /** An error event followed only by state events sends exactly the error's message to the error channel. */
  lemma ErrorThenStatesBuffered(attr: Attribution, e: Event, states: seq<Event>,
                                parse: string -> Option<Json>, stringify: Message -> string)
    requires e.ErrorEvent? && forall k :: 0 <= k < |states| ==> states[k].StateEvent?
    ensures MessagesFor(ListenerSends(attr, [e] + states, parse).sends, IndexOf(ErrorChannel), stringify)
      == [stringify(EventMessage(e))]
  {
    var rest := ListenerSends(attr, states, parse);
    TailOfAppend([e], states);
    assert ListenerSends(attr, [e] + states, parse).sends == [Outgoing(ErrorChannel, EventMessage(e))] + rest.sends;
    StateSendsSkipOtherChannels(attr, states, parse, stringify);
    TailOfAppend([Outgoing(ErrorChannel, EventMessage(e))], rest.sends);
    AppendNil([stringify(EventMessage(e))]);
  }

  /** State events are sent on the state channel only, and leave the attribution alone. */
  lemma {:induction false} StateSendsSkipOtherChannels(attr: Attribution, events: seq<Event>,
                                                        parse: string -> Option<Json>, stringify: Message -> string)
    requires forall k :: 0 <= k < |events| ==> events[k].StateEvent?
    ensures ListenerSends(attr, events, parse).attribution == attr
    ensures forall j :: 0 <= j < ChannelCount && j != IndexOf(StateChannel) ==>
      MessagesFor(ListenerSends(attr, events, parse).sends, j, stringify) == []
    decreases |events|
  {
    if |events| > 0 {
      StateSendsSkipOtherChannels(attr, events[1..], parse, stringify);
      var rest := ListenerSends(attr, events[1..], parse);
      var first := Outgoing(StateChannel, EventMessage(events[0]));
      assert ListenerSends(attr, events, parse).sends == [first] + rest.sends;
      forall j | 0 <= j < ChannelCount && j != IndexOf(StateChannel)
        ensures MessagesFor(ListenerSends(attr, events, parse).sends, j, stringify) == []
      {
        TailOfAppend([first], rest.sends);
      }
    }
  }

  /** A message just appended survives eviction whenever the limit is positive. */
  lemma KeepLastKeepsNewest(buffer: seq<string>, m: string, limit: nat)
    requires limit > 0
    ensures m in KeepLast(buffer + [m], limit)
  {
    var s := buffer + [m];
    assert KeepLast(s, limit)[|KeepLast(s, limit)| - 1] == s[|s| - 1];
  }

  /**
   * After a reconnection a new message overtakes the older ones still
   * buffered on its channel: `mqttSendBuffered` shifts one entry per tick,
   * while `mqttSend` publishes at once when connected.  With `[a, b]`
   * buffered, a drain tick, a send of `c` and a second tick put `a`, `c`,
   * `b` on the channel's topic, in that order, and leave the buffer empty.
   */
  lemma ReconnectSendOvertakesBuffered(chans: seq<Channel>, i: nat, a: string, b: string, c: string)
    requires i < |chans| && DistinctTopics(chans) && NoEmptyMessages(chans)
    requires chans[i].buffer == [a, b]
    ensures var t1 := DrainTick(chans, true);
      var d := Send(t1.channels, i, c, true);
      var t2 := DrainTick(d.channels, true);
      && Select(t1.published + d.published + t2.published, chans[i].topic)
           == [Publication(chans[i].topic, a, chans[i].retain),
               Publication(chans[i].topic, c, chans[i].retain),
               Publication(chans[i].topic, b, chans[i].retain)]
      && t2.channels[i].buffer == []
  {
    var t1 := DrainTick(chans, true);
    FirstTickPublishesOldest(chans, i, a, b);
    TickKeepsDistinctTopics(chans);
    TickKeepsNoEmptyMessages(chans);
    ConnectedSendSelect(t1.channels, i, c);
    SecondTickPublishesNext(t1.channels, i, b);
    var d := Send(t1.channels, i, c, true);
    var t2 := DrainTick(d.channels, true);
    SelectThree(t1.published, d.published, t2.published, chans[i].topic);
    ThreeSingletons(Publication(chans[i].topic, a, chans[i].retain),
                    Publication(chans[i].topic, c, chans[i].retain),
                    Publication(chans[i].topic, b, chans[i].retain));
  }

  lemma ThreeSingletons<T>(p: T, q: T, r: T)
    ensures [p] + [q] + [r] == [p, q, r]
  {
  }

  /** The first tick publishes `a` on the channel's topic and leaves `[b]` behind. */
  lemma FirstTickPublishesOldest(chans: seq<Channel>, i: nat, a: string, b: string)
    requires i < |chans| && DistinctTopics(chans) && NoEmptyMessages(chans)
    requires chans[i].buffer == [a, b]
    ensures Select(DrainTick(chans, true).published, chans[i].topic) == [Publication(chans[i].topic, a, chans[i].retain)]
    ensures DrainTick(chans, true).channels[i] == chans[i].(buffer := [b])
  {
    ShiftEachPublishesHeads(chans);
    assert [a, b][1..] == [b];
  }

  /** A tick that finds a single entry publishes it on the channel's topic and empties the buffer. */
  lemma SecondTickPublishesNext(chans: seq<Channel>, i: nat, b: string)
    requires i < |chans| && DistinctTopics(chans) && NoEmptyMessages(chans)
    requires chans[i].buffer == [b]
    ensures Select(DrainTick(chans, true).published, chans[i].topic) == [Publication(chans[i].topic, b, chans[i].retain)]
    ensures DrainTick(chans, true).channels[i].buffer == []
  {
    ShiftEachPublishesHeads(chans);
  }

  lemma TickKeepsDistinctTopics(chans: seq<Channel>)
    requires DistinctTopics(chans)
    ensures DistinctTopics(DrainTick(chans, true).channels)
  {
    var after := DrainTick(chans, true).channels;
    assert forall j :: 0 <= j < |after| ==> after[j].topic == chans[j].topic;
  }

  lemma TickKeepsNoEmptyMessages(chans: seq<Channel>)
    requires NoEmptyMessages(chans)
    ensures NoEmptyMessages(DrainTick(chans, true).channels)
  {
    ShiftKeepsNoEmptyMessages(chans, DrainTick(chans, true).channels);
  }

  /** A connected send leaves the table alone and publishes `c` on the channel's topic only. */
  lemma ConnectedSendSelect(chans: seq<Channel>, i: nat, c: string)
    requires i < |chans|
    ensures Send(chans, i, c, true).channels == chans
    ensures Select(Send(chans, i, c, true).published, chans[i].topic) == [Publication(chans[i].topic, c, chans[i].retain)]
  {
    var p := Publication(chans[i].topic, c, chans[i].retain);
    assert Select([p], chans[i].topic) == [p] + Select([], chans[i].topic);
  }

  lemma SelectThree(x: seq<Publication>, y: seq<Publication>, z: seq<Publication>, topic: string)
    ensures Select(x + y + z, topic) == Select(x, topic) + Select(y, topic) + Select(z, topic)
  {
    SelectAppend(x, y, topic);
    SelectAppend(x + y, z, topic);
  }

  /** The drain timer firing (or the connect handler calling the drain directly). */
  function OnDrainTimer(s: Service, connected: bool): (o: (Outcome, bool))
    ensures o.0.service.scanner == s.scanner && o.0.service.attribution == s.attribution
    ensures !connected ==> o.0 == Outcome(s, []) && !o.1
  {
    var t := DrainTick(s.channels, connected);
    (Outcome(s.(channels := t.channels), t.published), t.rescheduled)
  }

  /** What holds of the process at every step: fixed table, bounded buffers, entered states only. */
  ghost predicate Good(s: Service, root: string) {
    && |s.channels| == ChannelCount
    && (forall j :: 0 <= j < ChannelCount ==> s.channels[j] == MqttConfig(root)[j].(buffer := s.channels[j].buffer))
    && WithinLimits(s.channels)
    && NoEmptyMessages(s.channels)
    && IsEntered(s.scanner.state)
  }

  /** The table entries keep their topic, retain flag and limit; only buffers change. */
  ghost predicate SameTable(before: seq<Channel>, after: seq<Channel>) {
    |after| == |before| && forall j :: 0 <= j < |before| ==> after[j] == before[j].(buffer := after[j].buffer)
  }

  lemma SendKeepsGood(chans: seq<Channel>, i: nat, message: string, connected: bool)
    requires i < |chans| && WithinLimits(chans) && NoEmptyMessages(chans) && message != ""
    ensures WithinLimits(Send(chans, i, message, connected).channels)
    ensures NoEmptyMessages(Send(chans, i, message, connected).channels)
    ensures SameTable(chans, Send(chans, i, message, connected).channels)
  {
    SendKeepsWithinLimits(chans, i, message, connected);
    if !connected {
      KeptMessagesAreNonEmpty(chans[i].buffer, message, chans[i].limit);
    }
  }

  lemma KeptMessagesAreNonEmpty(buffer: seq<string>, message: string, limit: nat)
    requires forall k :: 0 <= k < |buffer| ==> buffer[k] != ""
    requires message != ""
    ensures forall k :: 0 <= k < |KeepLast(buffer + [message], limit)| ==> KeepLast(buffer + [message], limit)[k] != ""
  {
    var full := buffer + [message];
    var kept := KeepLast(full, limit);
    forall k | 0 <= k < |kept| ensures kept[k] != "" {
      var x := |full| - |kept| + k;
      assert kept[k] == full[x];
      if x < |buffer| {
        assert full[x] == buffer[x];
      }
    }
  }

  lemma {:induction false} SendAllKeepsGood(chans: seq<Channel>, sends: seq<Outgoing>, connected: bool, stringify: Message -> string)
    requires |chans| == ChannelCount && WithinLimits(chans) && NoEmptyMessages(chans)
    requires forall m :: stringify(m) != ""
    ensures var d := SendAll(chans, sends, connected, stringify);
      WithinLimits(d.channels) && NoEmptyMessages(d.channels) && SameTable(chans, d.channels)
    decreases |sends|
  {
    if |sends| > 0 {
      var first := Send(chans, IndexOf(sends[0].category), stringify(sends[0].message), connected);
      SendKeepsGood(chans, IndexOf(sends[0].category), stringify(sends[0].message), connected);
      SendAllKeepsGood(first.channels, sends[1..], connected, stringify);
    }
  }

  lemma {:induction false} DispatchKeepsGood(chans: seq<Channel>, attr: Attribution, events: seq<Event>, connected: bool,
                                             parse: string -> Option<Json>, stringify: Message -> string)
    requires |chans| == ChannelCount && WithinLimits(chans) && NoEmptyMessages(chans)
    requires forall m :: stringify(m) != ""
    ensures var e := Dispatch(chans, attr, events, connected, parse, stringify);
      WithinLimits(e.channels) && NoEmptyMessages(e.channels) && SameTable(chans, e.channels)
    decreases |events|
  {
    if |events| > 0 {
      var c := Listen(attr, events[0], parse);
      var d := SendAll(chans, c.sends, connected, stringify);
      SendAllKeepsGood(chans, c.sends, connected, stringify);
      DispatchKeepsGood(d.channels, c.attribution, events[1..], connected, parse, stringify);
    }
  }

  /**
   * Every scanner callback keeps the process good: whatever is sent while the
   * broker is away, no buffer exceeds its limit.
   */
  lemma OnStimulusKeepsGood(s: Service, root: string, stimulus: Stimulus, connected: bool,
                            parse: string -> Option<Json>, stringify: Message -> string)
    requires Good(s, root) && Enabled(s.scanner, stimulus.input)
    requires forall m :: stringify(m) != ""
    ensures Good(OnStimulus(s, stimulus, connected, parse, stringify).service, root)
  {
    var t := Step(s.scanner, stimulus.input, stimulus.now);
    var e := Dispatch(s.channels, s.attribution, t.events, connected, parse, stringify);
    DispatchKeepsGood(s.channels, s.attribution, t.events, connected, parse, stringify);
    StepKeepsEntered(s.scanner, stimulus.input, stimulus.now);
    SameTableKeepsConfig(s.channels, e.channels, root);
  }

  lemma SameTableKeepsConfig(before: seq<Channel>, after: seq<Channel>, root: string)
    requires |before| == ChannelCount
    requires forall j :: 0 <= j < ChannelCount ==> before[j] == MqttConfig(root)[j].(buffer := before[j].buffer)
    requires SameTable(before, after)
    ensures forall j :: 0 <= j < ChannelCount ==> after[j] == MqttConfig(root)[j].(buffer := after[j].buffer)
  {
  }

  /** So does every drain tick. */
  lemma OnDrainTimerKeepsGood(s: Service, root: string, connected: bool)
    requires Good(s, root)
    ensures Good(OnDrainTimer(s, connected).0.service, root)
  {
    var t := DrainTick(s.channels, connected);
    if connected {
      ShiftKeepsNoEmptyMessages(s.channels, t.channels);
    }
  }

  /** The sample-request-id and instrument-id channels never hold anything. */
  lemma UnbufferedChannelsStayEmpty(s: Service, root: string)
    requires Good(s, root)
    ensures s.channels[IndexOf(SampleRequestIdChannel)].buffer == []
    ensures s.channels[IndexOf(InstrumentIdChannel)].buffer == []
  {
    MqttConfigIsWellFormed(root);
    assert s.channels[4].limit == 0;
    assert s.channels[5].limit == 0;
  }

  /**
   * While connected, a received line is published on the rx topic first and
   * its derived message, if any, right after it; nothing is buffered.
   */
  lemma ConnectedRxPublishesRawFirst(chans: seq<Channel>, attr: Attribution, line: string, now: string,
                                     parse: string -> Option<Json>, stringify: Message -> string)
    requires |chans| == ChannelCount
    ensures var e := Dispatch(chans, attr, [RxEvent(now, line)], true, parse, stringify);
      var c := OnRx(attr, now, line, parse);
      && e.channels == chans
      && e.attribution == c.attribution
      && |e.published| == |c.sends|
      && (forall k :: 0 <= k < |c.sends| ==> e.published[k] == Immediate(chans, c.sends[k], stringify))
      && e.published[0] == Publication(chans[IndexOf(RxChannel)].topic,
                                       stringify(EventMessage(RxEvent(now, line))),
                                       chans[IndexOf(RxChannel)].retain)
  {
    var events := [RxEvent(now, line)];
    var c := OnRx(attr, now, line, parse);
    var d := SendAll(chans, c.sends, true, stringify);
    assert events[1..] == [];
    assert Dispatch(chans, attr, events, true, parse, stringify)
      == Effects(d.channels, c.attribution, d.published + []);
  }
}
